/**
 Shard leases, the times and states computed from them, and lists of shards.

 Times are nanoseconds on an unbounded line; LeaseArithmetic says when the 64-bit
 arithmetic of the program gives the same answers.
 */
module Leases {
  import opened Prelude

  const SECOND: int := 1_000_000_000
  const DEFAULT_LEASE_DURATION: int := 15 * SECOND
  const LEASE_TTL: int := 60 * SECOND

  datatype Lease = Lease(
    name: string,
    holder: Option<string>,
    acquireTime: Option<int>,
    renewTime: Option<int>,
    durationSeconds: Option<int>,
    transitions: Option<int>,
    ringLabel: string,    // empty if the label is absent
    stateLabel: string)   // empty if the label is absent

  datatype Times = Times(expiration: int, leaseDuration: int, toExpired: int, toUncertain: int, toOrphaned: int)

  datatype ShardState = Unknown | Orphaned | Dead | Uncertain | Expired | Ready
  {
    function Rank(): (n: nat)
    {
      match this
      case Unknown => 0
      case Orphaned => 1
      case Dead => 2
      case Uncertain => 3
      case Expired => 4
      case Ready => 5
    }

    predicate IsAvailable()
    {
      Rank() >= Uncertain.Rank()
    }

    function ToString(): (s: string)
    {
      match this
      case Orphaned => "orphaned"
      case Dead => "dead"
      case Uncertain => "uncertain"
      case Expired => "expired"
      case Ready => "ready"
      case Unknown => "unknown"
    }
  }

  function StateFromString(s: string): (state: ShardState)
  {
    if s == "orphaned" then Orphaned
    else if s == "dead" then Dead
    else if s == "uncertain" then Uncertain
    else if s == "expired" then Expired
    else if s == "ready" then Ready
    else Unknown
  }

  /** Reading back the label that was written yields the state; nothing else reads as that state. */
  lemma StateRoundTrip(state: ShardState, s: string)
    ensures StateFromString(state.ToString()) == state
    ensures state != Unknown ==> (StateFromString(s) == state <==> s == state.ToString())
  {
  }

  lemma StateNames()
    ensures StateFromString("ready") == Ready && StateFromString("expired") == Expired
    ensures StateFromString("uncertain") == Uncertain && StateFromString("dead") == Dead
    ensures StateFromString("orphaned") == Orphaned && StateFromString("unknown") == Unknown
  {
  }

  /** All three time fields are set. */
  predicate Complete(lease: Lease)
  {
    lease.acquireTime.Some? && lease.renewTime.Some? && lease.durationSeconds.Some?
  }

  function ToTimes(lease: Lease, now: int): (t: Times)
  {
    var duration := if Complete(lease) then lease.durationSeconds.value * SECOND else DEFAULT_LEASE_DURATION;
    var expiration := if Complete(lease) then lease.renewTime.value + duration else now;
    Times(expiration, duration, expiration - now, expiration - now + duration, expiration - now + LEASE_TTL)
  }

  function StateFromTimes(lease: Lease, t: Times): (s: ShardState)
  {
    if lease.holder.None? || lease.holder.value == "" || lease.holder.value != lease.name then
      if t.toOrphaned <= 0 then Orphaned else Dead
    else if t.toUncertain <= 0 then Uncertain
    else if t.toExpired <= 0 then Expired
    else Ready
  }

  function ToState(lease: Lease, now: int): (s: ShardState)
  {
    StateFromTimes(lease, ToTimes(lease, now))
  }

  // ------------------------------------------------------------------ meaning of the states

  /** The shard itself holds its lease. */
  predicate Held(lease: Lease)
  {
    lease.holder == Some(lease.name) && lease.name != ""
  }

  /** Availability is a matter of the holder alone; the clock plays no part. */
  lemma AvailableIffHeld(lease: Lease, now: int)
    ensures ToState(lease, now).IsAvailable() <==> Held(lease)
    ensures ToState(lease, now) != Unknown
  {
  }

  /** Complete and with a duration that the API server admits. */
  predicate Proper(lease: Lease)
  {
    Complete(lease) && lease.durationSeconds.value >= 1
  }

  function Duration(lease: Lease): (d: int)
    requires Complete(lease)
  {
    lease.durationSeconds.value * SECOND
  }

  function Expiry(lease: Lease): (t: int)
    requires Complete(lease)
  {
    lease.renewTime.value + Duration(lease)
  }

  /** Which instants belong to which state. */
  lemma StateIntervals(lease: Lease, now: int)
    requires Proper(lease)
    ensures ToState(lease, now) == Ready <==> Held(lease) && now < Expiry(lease)
    ensures ToState(lease, now) == Expired <==> Held(lease) && Expiry(lease) <= now < Expiry(lease) + Duration(lease)
    ensures ToState(lease, now) == Uncertain <==> Held(lease) && Expiry(lease) + Duration(lease) <= now
    ensures ToState(lease, now) == Dead <==> !Held(lease) && now < Expiry(lease) + 60 * SECOND
    ensures ToState(lease, now) == Orphaned <==> !Held(lease) && Expiry(lease) + 60 * SECOND <= now
  {
  }

  /** The states that time alone can lead to. */
  predicate AgesTo(from: ShardState, to: ShardState)
  {
    || from == to
    || (from == Ready && (to == Expired || to == Uncertain))
    || (from == Expired && to == Uncertain)
    || (from == Dead && to == Orphaned)
  }

  /**
   Without a write, a lease only moves from ready over expired to uncertain, or from dead to
   orphaned. A lease that misses a time field never moves at all: it stays expired or dead.
   */
  lemma Aging(lease: Lease, t1: int, t2: int)
    requires t1 <= t2
    requires Complete(lease) ==> Proper(lease)
    ensures AgesTo(ToState(lease, t1), ToState(lease, t2))
    ensures !Complete(lease) ==> ToState(lease, t1) == ToState(lease, t2) == if Held(lease) then Expired else Dead
    ensures !Complete(lease) ==> ToTimes(lease, t1).leaseDuration == 15 * SECOND
  {
  }

  // ------------------------------------------------------------------ lists of shards

  datatype Shard = Shard(id: string, state: ShardState, times: Times)

  /** What a lookup without a result yields. */
  const NO_SHARD := Shard("", Unknown, Times(0, 0, 0, 0, 0))

  function ToShard(lease: Lease, now: int): (s: Shard)
  {
    var times := ToTimes(lease, now);
    Shard(lease.name, StateFromTimes(lease, times), times)
  }

  function ShardsOf(leases: seq<Lease>, now: int): (s: seq<Shard>)
    ensures |s| == |leases|
  {
    seq(|leases|, i requires 0 <= i < |leases| => ToShard(leases[i], now))
  }

  function OnlyAvailable(s: seq<Shard>): (r: seq<Shard>)
  {
    if s == [] then []
    else if s[0].state.IsAvailable() then [s[0]] + OnlyAvailable(s[1..])
    else OnlyAvailable(s[1..])
  }

  function IdsOf(s: seq<Shard>): (r: seq<string>)
    ensures |r| == |s|
  {
    seq(|s|, i requires 0 <= i < |s| => s[i].id)
  }

  method ToShards(leases: seq<Lease>, now: int) returns (shards: seq<Shard>)
    ensures shards == ShardsOf(leases, now)
  {
    shards := [];
    for i := 0 to |leases|
      invariant |shards| == i
      invariant forall j :: 0 <= j < i ==> shards[j] == ToShard(leases[j], now)
    {
      shards := shards + [ToShard(leases[i], now)];
    }
  }

  /** The first shard of the list with that ID. */
  method ByID(s: seq<Shard>, id: string) returns (shard: Shard)
    ensures (forall i :: 0 <= i < |s| ==> s[i].id != id) ==> shard == NO_SHARD
    ensures forall i :: 0 <= i < |s| && s[i].id == id && (forall j :: 0 <= j < i ==> s[j].id != id) ==> shard == s[i]
    ensures shard == ShardByID(s, id)
  {
    for i := 0 to |s|
      invariant forall j :: 0 <= j < i ==> s[j].id != id
      invariant ShardByID(s, id) == ShardByID(s[i..], id)
    {
      if s[i].id == id {
        return s[i];
      }
    }
    return NO_SHARD;
  }

  function ShardByID(s: seq<Shard>, id: string): (shard: Shard)
  {
    if s == [] then NO_SHARD
    else if s[0].id == id then s[0]
    else ShardByID(s[1..], id)
  }

  method AvailableShards(s: seq<Shard>) returns (shards: seq<Shard>)
    ensures shards == OnlyAvailable(s)
  {
    shards := [];
    for i := 0 to |s|
      invariant shards + OnlyAvailable(s[i..]) == OnlyAvailable(s)
    {
      if s[i].state.IsAvailable() {
        ConcatAssoc(shards, [s[i]], OnlyAvailable(s[i..][1..]));
        shards := shards + [s[i]];
      }
    }
  }

  method IDs(s: seq<Shard>) returns (ids: seq<string>)
    ensures ids == IdsOf(s)
  {
    ids := [];
    for i := 0 to |s|
      invariant |ids| == i
      invariant forall j :: 0 <= j < i ==> ids[j] == s[j].id
    {
      ids := ids + [s[i].id];
    }
  }

  /** The names of the available shards, in list order: the nodes of the hash ring. */
  function AvailableIDs(leases: seq<Lease>, now: int): (ids: seq<string>)
  {
    IdsOf(OnlyAvailable(ShardsOf(leases, now)))
  }

  lemma AvailableIDsCons(lease: Lease, rest: seq<Lease>, now: int)
    ensures AvailableIDs([lease] + rest, now) == (if Held(lease) then [lease.name] else []) + AvailableIDs(rest, now)
  {
    AvailableIffHeld(lease, now);
    var s := ShardsOf([lease] + rest, now);
    assert s[0] == ToShard(lease, now);
    assert s[1..] == ShardsOf(rest, now);
  }

  lemma {:induction false} AvailableIDsConcat(a: seq<Lease>, b: seq<Lease>, now: int)
    ensures AvailableIDs(a + b, now) == AvailableIDs(a, now) + AvailableIDs(b, now)
  {
    if a == [] {
      assert a + b == b;
    } else {
      AvailableIDsConcat(a[1..], b, now);
      assert a == [a[0]] + a[1..] && a + b == [a[0]] + (a[1..] + b);
      AvailableIDsCons(a[0], a[1..], now);
      AvailableIDsCons(a[0], a[1..] + b, now);
    }
  }

  /** The available shards are the holders of their own leases, at any time. */
  lemma {:induction false} AvailableIDsMember(leases: seq<Lease>, now: int, id: string)
    ensures id in AvailableIDs(leases, now) <==> exists l :: l in leases && Held(l) && l.name == id
  {
    if leases != [] {
      AvailableIDsMember(leases[1..], now, id);
      AvailableIDsCons(leases[0], leases[1..], now);
      assert leases == [leases[0]] + leases[1..];
      if l :| l in leases && Held(l) && l.name == id && id !in AvailableIDs(leases[1..], now) {
        assert l !in leases[1..];
        assert l == leases[0];
      }
    }
  }

  /** A name that no lease of the list carries reads as unknown, hence as not available. */
  lemma {:induction false} LookupLease(leases: seq<Lease>, now: int, id: string)
    ensures (forall l :: l in leases ==> l.name != id) ==> !ShardByID(ShardsOf(leases, now), id).state.IsAvailable()
    ensures (exists l :: l in leases && l.name == id) ==>
              exists l :: l in leases && l.name == id && ShardByID(ShardsOf(leases, now), id) == ToShard(l, now)
  {
    if leases != [] {
      LookupLease(leases[1..], now, id);
      assert ShardsOf(leases, now)[1..] == ShardsOf(leases[1..], now);
      if leases[0].name != id {
        if l :| l in leases && l.name == id {
          assert l in leases[1..];
        }
      }
    }
  }
}
