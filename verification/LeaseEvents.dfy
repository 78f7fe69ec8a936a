/**
 The event filters on shard leases, and why the sharder may rely on them: an event that is
 filtered out never changes which shards are available.
 */
module LeaseEvents {
  import opened Prelude
  import opened HashRing
  import opened Leases
  import opened RingFromLeases

  datatype Event =
    | Create(obj: Lease)
    | Update(before: Lease, after: Lease)
    | Delete(obj: Lease, stateUnknown: bool)
  {
    /** The object that filters on a single object look at. */
    function Subject(): (l: Lease)
    {
      if Update? then after else obj
    }
  }

  predicate IsShardLease(l: Lease)
  {
    l.ringLabel != ""
  }

  predicate ShardLeaseStateChanged(e: Event, now: int)
  {
    e.Update? ==> ToState(e.before, now) != ToState(e.after, now)
  }

  predicate ShardLeaseAvailabilityChanged(e: Event, now: int)
  {
    match e
    case Create(l) => ToState(l, now).IsAvailable()
    case Update(l, l') => ToState(l, now).IsAvailable() != ToState(l', now).IsAvailable()
    case Delete(l, unknown) => unknown || ToState(l, now).IsAvailable()
  }

  /** The filter of the shard lease controller. */
  predicate ShardLeaseAccepts(e: Event, now: int)
  {
    IsShardLease(e.Subject()) && ShardLeaseStateChanged(e, now) && !e.Delete?
  }

  /** The filter of the sharder controller. */
  predicate SharderAccepts(e: Event, now: int)
  {
    IsShardLease(e.Subject()) && ShardLeaseAvailabilityChanged(e, now)
  }

  /** Both filters are for leases of a ring; the object that an update leaves behind decides. */
  lemma OtherLeasesDropped(e: Event, now: int)
    requires e.Subject().ringLabel == ""
    ensures !ShardLeaseAccepts(e, now) && !SharderAccepts(e, now)
  {
  }

  /** Of the events of a ring, the lease controller sees creations and changes of state only. */
  lemma LeaseFilterIff(l: Lease, l': Lease, now: int)
    requires l.ringLabel != "" && l'.ringLabel != ""
    ensures ShardLeaseAccepts(Create(l), now)
    ensures forall unknown :: !ShardLeaseAccepts(Delete(l, unknown), now)
    ensures ShardLeaseAccepts(Update(l, l'), now) <==> ToState(l, now) != ToState(l', now)
  {
  }

  /** A renewal in time is dropped, a renewal of an expired lease is not. */
  lemma RenewalSeenIff(l: Lease, now: int, renewed: int)
    requires l.ringLabel != "" && Proper(l) && Held(l) && renewed <= now < renewed + Duration(l)
    ensures ShardLeaseAccepts(Update(l, l.(renewTime := Some(renewed))), now) <==> Expiry(l) <= now
  {
    StateIntervals(l, now);
    StateIntervals(l.(renewTime := Some(renewed)), now);
  }

  // ------------------------------------------------------------------ the leases of one ring

  datatype LeaseKey = LeaseKey(namespace: string, name: string)

  type LeaseStore = map<LeaseKey, Lease>

  /** An event about one lease, handled at some reading of the clock. */
  datatype Delivery = Delivery(key: LeaseKey, event: Event, now: int)

  predicate BelongsTo(ring: string, key: LeaseKey, l: Lease)
  {
    l.ringLabel == ring && l.name == key.name
  }

  /** Events of one ring report what happened; only a delete event of unknown state may carry an outdated object. */
  predicate Reports(ring: string, store: LeaseStore, d: Delivery)
  {
    && BelongsTo(ring, d.key, d.event.Subject())
    && match d.event
       case Create(l) => d.key !in store
       case Update(l, l') => d.key in store && store[d.key] == l
       case Delete(l, unknown) => d.key in store && (unknown || store[d.key] == l)
  }

  function Applied(store: LeaseStore, d: Delivery): (after: LeaseStore)
  {
    if d.event.Delete? then store - {d.key} else store[d.key := d.event.Subject()]
  }

  function AvailableKeys(store: LeaseStore): (keys: set<LeaseKey>)
  {
    set k | k in store && Held(store[k])
  }

  /** The store now, and the store as of the last event that passed the sharder's filter. */
  datatype FilterState = FilterState(store: LeaseStore, seen: LeaseStore)

  function Deliver(s: FilterState, d: Delivery): (s': FilterState)
  {
    var after := Applied(s.store, d);
    FilterState(after, if SharderAccepts(d.event, d.now) then after else s.seen)
  }

  /** A run of events; the stores after each prefix follow from it. */
  ghost predicate IsRun(ring: string, store: LeaseStore, run: seq<Delivery>)
    decreases run
  {
    run != [] ==> Reports(ring, store, run[0]) && IsRun(ring, Applied(store, run[0]), run[1..])
  }

  function DeliverAll(s: FilterState, run: seq<Delivery>): (s': FilterState)
    decreases run
  {
    if run == [] then s else DeliverAll(Deliver(s, run[0]), run[1..])
  }

  /**
   The filter is exact for one event: an event that changes which shards are available passes,
   and an event that passes changes it, unless it is a delete event of unknown state.
   */
  lemma FilterExact(ring: string, store: LeaseStore, d: Delivery)
    requires ring != "" && Reports(ring, store, d)
    ensures AvailableKeys(Applied(store, d)) != AvailableKeys(store) ==> SharderAccepts(d.event, d.now)
    ensures SharderAccepts(d.event, d.now) && !(d.event.Delete? && d.event.stateUnknown)
            ==> AvailableKeys(Applied(store, d)) != AvailableKeys(store)
  {
    var before, after := AvailableKeys(store), AvailableKeys(Applied(store, d));
    assert forall k :: k != d.key ==> (k in before <==> k in after);
    match d.event
    case Create(l) =>
      AvailableIffHeld(l, d.now);
      assert d.key in after <==> Held(l);
    case Update(l, l') =>
      AvailableIffHeld(l, d.now);
      AvailableIffHeld(l', d.now);
      assert (d.key in before <==> Held(l)) && (d.key in after <==> Held(l'));
    case Delete(l, unknown) =>
      AvailableIffHeld(l, d.now);
      assert d.key !in after;
      if !unknown {
        assert d.key in before <==> Held(l);
      }
  }

  /** Over every run, the shards that were available at the last accepted event are the ones available now. */
  lemma {:induction false} FilterComplete(ring: string, s: FilterState, run: seq<Delivery>)
    requires ring != "" && IsRun(ring, s.store, run)
    requires AvailableKeys(s.seen) == AvailableKeys(s.store)
    ensures AvailableKeys(DeliverAll(s, run).seen) == AvailableKeys(DeliverAll(s, run).store)
    decreases run
  {
    if run != [] {
      FilterExact(ring, s.store, run[0]);
      FilterComplete(ring, Deliver(s, run[0]), run[1..]);
    }
  }

  ghost predicate Lists(leases: seq<Lease>, store: LeaseStore)
  {
    forall l :: l in leases <==> exists k :: k in store && store[k] == l
  }

  /**
   So the ring that was computed at the last accepted event still places every key right, no
   matter how many filtered events came after it and in which order leases are listed, unless
   the key's position on the ring is contested.
   */
  lemma FilteredRingIsCurrent(hash: HashFunc, ring: string, run: seq<Delivery>,
                              earlier: seq<Lease>, current: seq<Lease>, t1: int, t2: int, key: string)
    requires ring != "" && IsRun(ring, map[], run)
    requires Lists(earlier, DeliverAll(FilterState(map[], map[]), run).seen)
    requires Lists(current, DeliverAll(FilterState(map[], map[]), run).store)
    requires UncontestedAmong(hash, earlier, key)
    ensures ShardFor(hash, earlier, t1, key) == ShardFor(hash, current, t2, key)
  {
    var start := FilterState(map[], map[]);
    FilterComplete(ring, start, run);
    NamesFollowKeys(ring, start, run);
    var end := DeliverAll(start, run);
    forall x ensures x in AvailableIDs(earlier, 0) <==> x in AvailableIDs(current, 0) {
      AvailableIDsMember(earlier, 0, x);
      AvailableIDsMember(current, 0, x);
      AvailableNames(end.seen, earlier, x);
      AvailableNames(end.store, current, x);
    }
    SameAvailability(hash, earlier, current, t1, t2, key);
  }

  ghost predicate NamedByKeys(store: LeaseStore)
  {
    forall k :: k in store ==> store[k].name == k.name
  }

  lemma {:induction false} NamesFollowKeys(ring: string, s: FilterState, run: seq<Delivery>)
    requires IsRun(ring, s.store, run) && NamedByKeys(s.store) && NamedByKeys(s.seen)
    ensures NamedByKeys(DeliverAll(s, run).store) && NamedByKeys(DeliverAll(s, run).seen)
    decreases run
  {
    if run != [] {
      NamesFollowKeys(ring, Deliver(s, run[0]), run[1..]);
    }
  }

  lemma AvailableNames(store: LeaseStore, leases: seq<Lease>, x: string)
    requires NamedByKeys(store) && Lists(leases, store)
    ensures (exists l :: l in leases && Held(l) && l.name == x)
       <==> (exists k :: k in AvailableKeys(store) && k.name == x)
  {
  }
}
