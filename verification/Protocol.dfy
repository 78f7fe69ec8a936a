/**
 The assignment protocol for the main objects of one ring, as a transition system.

 Shards start, renew and give up leases, follow the objects through caches that may lag
 behind, work on objects and acknowledge drains. The sharder resyncs with snapshots of the
 leases that may be outdated, its webhook assigns unlabelled objects with possibly outdated
 leases too, and it acquires and deletes leases. All of this interleaves in any order.
 */
module Protocol {
  import opened Prelude
  import opened HashRing
  import opened Leases
  import opened RingFromLeases
  import opened ShardLease
  import opened ShardController
  import opened Resync

  /** The hash function, and the hash key of each object. */
  datatype Config = Config(hash: HashFunc, key: string -> string)

  /**
   What the safety of the protocol rests on besides the steps themselves:
   - the snapshot of a resync is not older than the lease of the shard that an object it handles
     is labelled with (`snapshotFresh`);
   - a shard that lost its lease, because it was released, acquired by the sharder or deleted,
     does not come back under its name (`noReturn`);
   - a shard stops its controllers before its lease becomes uncertain (`stopsInTime`).
   */
  datatype Hypotheses = Hypotheses(snapshotFresh: bool, noReturn: bool, stopsInTime: bool)

  /** One stored version of an object; an absent shard label is the empty string. */
  datatype Version = Version(shard: string, drain: bool)

  /**
   A resync operation: the lease list it read and the clock reading it used. The list shows the
   leases as they were at the position `seen` of the lease log.
   */
  datatype Op = Op(leases: seq<Lease>, at: int, seen: nat)

  datatype Item = Item(op: Op, id: string, resourceVersion: nat, drain: bool, current: string)

  datatype Task = Task(shard: string, id: string)

  type LeaseMap = map<string, Lease>

  datatype State = State(
    now: int,
    leaseLog: seq<LeaseMap>,        // every state of the leases so far; the last one is current
    known: set<string>,             // names of all shards that ever started
    running: set<string>,           // shards whose controllers run
    objs: map<string, seq<Version>>,// history of each object; the index is the resource version
    cache: map<Task, nat>,          // which version of an object a shard's cache shows
    working: set<Task>,             // reconciliations in progress
    ops: set<Op>,
    pending: set<Item>)

  predicate WellFormed(s: State)
  {
    s.leaseLog != [] && forall id :: id in s.objs ==> s.objs[id] != []
  }

  function CurrentLeases(s: State): (m: LeaseMap)
    requires s.leaseLog != []
  {
    s.leaseLog[|s.leaseLog| - 1]
  }

  function Latest(s: State, id: string): (i: nat)
    requires id in s.objs && s.objs[id] != []
  {
    |s.objs[id]| - 1
  }

  function LatestVersion(s: State, id: string): (v: Version)
    requires id in s.objs && s.objs[id] != []
  {
    s.objs[id][|s.objs[id]| - 1]
  }

  /** A list of all leases of the map, in any order. */
  ghost predicate Listing(list: seq<Lease>, m: LeaseMap)
  {
    && (forall l :: l in list ==> l.name in m && m[l.name] == l)
    && (forall n :: n in m ==> m[n] in list)
  }

  /** A list of the leases as they were at some time, which is what a cache returns. */
  ghost predicate CachedListing(s: State, list: seq<Lease>)
  {
    exists i :: 0 <= i < |s.leaseLog| && Listing(list, s.leaseLog[i])
  }

  /** What the webhook may answer: nothing, or the choice of a ring of cached leases. */
  ghost predicate WebhookMayChoose(c: Config, s: State, id: string, choice: string)
  {
    choice == "" || exists list, t :: CachedListing(s, list) && choice == ShardFor(c.hash, list, t, c.key(id))
  }

  /** Admission only touches objects without a shard label. */
  function Admit(v: Version, choice: string): (v': Version)
  {
    if v.shard == "" then v.(shard := choice) else v
  }

  const UNASSIGNED := Version("", false)

  function WithVersion(s: State, id: string, v: Version): (s': State)
    requires id in s.objs
  {
    s.(objs := s.objs[id := s.objs[id] + [v]])
  }

  /** A write that changes nothing leaves no new version behind. */
  function WithPatch(s: State, id: string, v: Version): (s': State)
    requires id in s.objs && s.objs[id] != []
  {
    if v == LatestVersion(s, id) then s else WithVersion(s, id, v)
  }

  function WithLeases(s: State, m: LeaseMap): (s': State)
  {
    s.(leaseLog := s.leaseLog + [m])
  }

  function ShardLabel(v: Version): (l: Option<string>)
  {
    if v.shard == "" then None else Some(v.shard)
  }

  /** How a shard responds to what its cache shows. */
  function CachedResponse(s: State, t: Task): (a: Action)
    requires t.id in s.objs && t in s.cache && s.cache[t] < |s.objs[t.id]|
  {
    var v := s.objs[t.id][s.cache[t]];
    Respond(ShardLabel(v), v.drain, t.shard)
  }

  function DecisionFor(c: Config, op: Op, id: string, current: string): (d: Decision)
  {
    Decide(ShardsOf(op.leases, op.at), ShardFor(c.hash, op.leases, op.at, c.key(id)), current, false)
  }

  /** The shard had a lease when the operation read the leases, or before. */
  ghost predicate Started(log: seq<LeaseMap>, op: Op, shard: string)
  {
    exists j :: 0 <= j <= op.seen && j < |log| && shard in log[j]
  }

  /** From its first appearance on, the lease of the shard was always there and held by the shard. */
  ghost predicate Kept(log: seq<LeaseMap>, shard: string)
  {
    forall i, j :: 0 <= i <= j < |log| && shard in log[i] ==> shard in log[j] && Held(log[j][shard])
  }

  datatype Step =
    | Tick(to: int)
    | StartShard(shard: string, lease: Lease)
    | RenewLease(shard: string)
    | StopShard(shard: string)
    | ReleaseLease(shard: string, lease: Lease)
    | ReconcileLease(shard: string)
    | DeleteLease(shard: string, seen: nat)
    | CreateObject(id: string, choice: string)
    | UpdateObject(id: string, choice: string)
    | BeginResync(op: Op)
    | DecideItem(op: Op, id: string, resourceVersion: nat)
    | ExecuteItem(item: Item, choice: string)
    | Observe(task: Task, version: nat)
    | StartWork(task: Task)
    | FinishWork(task: Task)
    | AcknowledgeDrain(task: Task, choice: string)

  ghost predicate LeaseStep(h: Hypotheses, s: State, step: Step, s': State)
    requires WellFormed(s)
  {
    var m := CurrentLeases(s);
    match step
    case Tick(to) =>
      && to >= s.now && s' == s.(now := to)
      && (h.stopsInTime ==> forall n :: n in s.running && n in m && Complete(m[n]) ==>
         to < Expiry(m[n]) + Duration(m[n]))
    // a new shard, or one that restarts under its name
    case StartShard(n, lease) =>
      && n != "" && n !in s.running && (h.noReturn ==> Kept(s.leaseLog, n))
      && lease.name == n && Held(lease) && Proper(lease) && lease.renewTime == Some(s.now)
      && s' == WithLeases(s, m[n := lease]).(known := s.known + {n}, running := s.running + {n})
    case RenewLease(n) =>
      && n in s.running && n in m
      && s' == WithLeases(s, m[n := m[n].(renewTime := Some(s.now))])
    case StopShard(n) =>
      s' == s.(running := s.running - {n}, working := set t | t in s.working && t.shard != n)
    case ReleaseLease(n, lease) =>
      && n !in s.running && n in m && lease.name == n && !Held(lease)
      && s' == WithLeases(s, m[n := lease])
    case ReconcileLease(n) =>
      && n in m
      && var after := Fresh(m[n], s.now).0.lease;
         s' == WithLeases(s, if after.Some? then m[n := after.value] else m - {n})
    // the delete call has no preconditions, so what it was decided on may be outdated
    case DeleteLease(n, seen) =>
      && seen < |s.leaseLog| && n in s.leaseLog[seen] && ToState(s.leaseLog[seen][n], s.now) == Orphaned
      && s' == WithLeases(s, m - {n})
    case _ => false
  }

  ghost predicate ObjectStep(c: Config, h: Hypotheses, s: State, step: Step, s': State)
    requires WellFormed(s)
  {
    match step
    case CreateObject(id, choice) =>
      && id !in s.objs && WebhookMayChoose(c, s, id, choice)
      && s' == s.(objs := s.objs[id := [Admit(UNASSIGNED, choice)]])
    // an update by a user that leaves the labels alone
    case UpdateObject(id, choice) =>
      && id in s.objs && WebhookMayChoose(c, s, id, choice)
      && s' == WithVersion(s, id, Admit(LatestVersion(s, id), choice))
    case BeginResync(op) =>
      && op.seen < |s.leaseLog| && Listing(op.leases, s.leaseLog[op.seen])
      && s' == s.(ops := s.ops + {op})
    // the listed version of the object may be outdated
    case DecideItem(op, id, rv) =>
      && op in s.ops && id in s.objs && rv < |s.objs[id]|
      && var current := s.objs[id][rv].shard;
         var d := DecisionFor(c, op, id, current);
         && (h.snapshotFresh && current != "" ==> Started(s.leaseLog, op, current))
         && s' == if d == Nothing then s else s.(pending := s.pending + {Item(op, id, rv, d == Drain, current)})
    // a conflict or a rejected write drops the item; a later resync decides again
    case ExecuteItem(item, choice) =>
      && item in s.pending && item.id in s.objs && WebhookMayChoose(c, s, item.id, choice)
      && var done := s.(pending := s.pending - {item});
         || s' == done
         || (item.resourceVersion == Latest(s, item.id)
             && s' == if item.drain then WithPatch(done, item.id, LatestVersion(s, item.id).(drain := true))
                      else WithPatch(done, item.id, Admit(UNASSIGNED, choice)))
    case _ => false
  }

  ghost predicate ShardStep(c: Config, s: State, step: Step, s': State)
    requires WellFormed(s)
  {
    match step
    // caches only move forward, also when a shard restarts
    case Observe(t, v) =>
      && t.shard in s.running && t.id in s.objs && v < |s.objs[t.id]|
      && (t in s.cache ==> s.cache[t] <= v)
      && s' == s.(cache := s.cache[t := v])
    case StartWork(t) =>
      && CanReconcile(s, t) && CachedResponse(s, t) == DelegateReconcile
      && s' == s.(working := s.working + {t})
    case FinishWork(t) =>
      s' == s.(working := s.working - {t})
    case AcknowledgeDrain(t, choice) =>
      && CanReconcile(s, t) && CachedResponse(s, t) == Acknowledge && WebhookMayChoose(c, s, t.id, choice)
      && s' == if s.cache[t] != Latest(s, t.id) then s else WithVersion(s, t.id, Admit(UNASSIGNED, choice))
    case _ => false
  }

  /** A running shard handles an object at most once at a time. */
  predicate CanReconcile(s: State, t: Task)
  {
    t.shard in s.running && t !in s.working && t.id in s.objs && t in s.cache && s.cache[t] < |s.objs[t.id]|
  }

  ghost predicate NextStep(c: Config, h: Hypotheses, s: State, step: Step, s': State)
  {
    WellFormed(s) && (LeaseStep(h, s, step, s') || ObjectStep(c, h, s, step, s') || ShardStep(c, s, step, s'))
  }

  predicate Init(s: State)
  {
    && s.leaseLog == [map[]] && s.known == {} && s.running == {} && s.objs == map[]
    && s.cache == map[] && s.working == {} && s.ops == {} && s.pending == {}
  }

  ghost predicate Next(c: Config, h: Hypotheses, s: State, s': State)
  {
    exists step :: NextStep(c, h, s, step, s')
  }

  ghost predicate IsRun(c: Config, h: Hypotheses, run: seq<State>)
  {
    && run != [] && Init(run[0])
    && forall i :: 0 <= i < |run| - 1 ==> Next(c, h, run[i], run[i + 1])
  }
}
