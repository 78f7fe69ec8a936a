/** Safety of the assignment protocol over all runs. */
module MutualExclusion {
  import opened Prelude
  import opened Leases
  import opened RingFromLeases
  import opened ShardLease
  import opened ShardController
  import opened Resync
  import opened Protocol

  // ------------------------------------------------------------------ invariants

  predicate WellNamed(known: set<string>, m: LeaseMap)
  {
    forall n :: n in m ==> m[n].name == n && n in known
  }

  predicate HoldsLease(now: int, m: LeaseMap, n: string)
  {
    n in m && Held(m[n]) && Proper(m[n]) && now < Expiry(m[n]) + Duration(m[n])
  }

  ghost predicate LeaseInv(now: int, log: seq<LeaseMap>, known: set<string>, running: set<string>)
  {
    && log != [] && "" !in known && running <= known
    && (forall i :: 0 <= i < |log| ==> WellNamed(known, log[i]))
    && (forall n :: n in running ==> Kept(log, n) && HoldsLease(now, log[|log| - 1], n))
  }

  ghost predicate OpsInv(log: seq<LeaseMap>, ops: set<Op>)
  {
    forall op :: op in ops ==> op.seen < |log| && Listing(op.leases, log[op.seen])
  }

  type Objects = map<string, seq<Version>>

  ghost predicate Stored(objs: Objects)
  {
    forall id :: id in objs ==> objs[id] != []
  }

  /** The label leaves the shard only at a version that the shard's cache has reached and that asks for the drain. */
  ghost predicate LeftOnlyAfterDrain(hist: seq<Version>, cache: map<Task, nat>, t: Task)
  {
    forall i, j {:trigger hist[i], hist[j]} :: 0 <= i && j == i + 1 && j < |hist| ==>
      hist[i].shard == t.shard && hist[j].shard != t.shard ==> t in cache && i <= cache[t] && hist[i].drain
  }

  ghost predicate LabelsInv(objs: Objects, known: set<string>)
  {
    forall id :: id in objs ==> forall i :: 0 <= i < |objs[id]| ==>
      objs[id][i].shard == "" || objs[id][i].shard in known
  }

  /** Shards that kept their lease, whether they run or not. */
  ghost predicate Owner(log: seq<LeaseMap>, known: set<string>, n: string)
  {
    n in known && Kept(log, n)
  }

  ghost predicate HistoryInv(objs: Objects, log: seq<LeaseMap>, known: set<string>, cache: map<Task, nat>)
  {
    forall t: Task :: Owner(log, known, t.shard) && t.id in objs ==> LeftOnlyAfterDrain(objs[t.id], cache, t)
  }

  predicate CacheInv(objs: Objects, cache: map<Task, nat>)
  {
    forall t :: t in cache ==> t.id in objs && cache[t] < |objs[t.id]|
  }

  predicate CarriesLabel(objs: Objects, running: set<string>, t: Task)
  {
    t.shard in running && t.id in objs && objs[t.id] != [] && objs[t.id][|objs[t.id]| - 1].shard == t.shard
  }

  predicate WorkInv(objs: Objects, running: set<string>, working: set<Task>)
  {
    forall t :: t in working ==> CarriesLabel(objs, running, t)
  }

  /** Each pending item is what the decision on its snapshot and its listed version was. */
  ghost predicate ItemInv(c: Config, h: Hypotheses, log: seq<LeaseMap>, objs: Objects, item: Item)
  {
    && item.id in objs && item.resourceVersion < |objs[item.id]|
    && item.current == objs[item.id][item.resourceVersion].shard
    && DecisionFor(c, item.op, item.id, item.current) == (if item.drain then Drain else Move)
    && (h.snapshotFresh && item.current != "" ==> Started(log, item.op, item.current))
  }

  ghost predicate PendingInv(c: Config, h: Hypotheses, log: seq<LeaseMap>,
                             objs: Objects, ops: set<Op>, pending: set<Item>)
  {
    && Stored(objs)
    && forall item :: item in pending ==> item.op in ops && ItemInv(c, h, log, objs, item)
  }

  const ASSUMED := Hypotheses(true, true, true)

  ghost predicate Invariant(c: Config, s: State)
  {
    && LeaseInv(s.now, s.leaseLog, s.known, s.running)
    && OpsInv(s.leaseLog, s.ops)
    && LabelsInv(s.objs, s.known)
    && HistoryInv(s.objs, s.leaseLog, s.known, s.cache)
    && CacheInv(s.objs, s.cache)
    && WorkInv(s.objs, s.running, s.working)
    && PendingInv(c, ASSUMED, s.leaseLog, s.objs, s.ops, s.pending)
  }

  // ------------------------------------------------------------------ leases

  lemma KeptGrows(log: seq<LeaseMap>, m: LeaseMap, n: string)
    ensures Kept(log + [m], n) ==> Kept(log, n)
    ensures Kept(log, n) && n in m && Held(m[n]) ==> Kept(log + [m], n)
  {
    var longer := log + [m];
    assert forall i :: 0 <= i < |log| ==> longer[i] == log[i];
    if Kept(longer, n) {
      forall i, j | 0 <= i <= j < |log| && n in log[i] ensures n in log[j] && Held(log[j][n]) {
        assert n in longer[i];
        assert longer[j] == log[j];
      }
    }
  }

  /** What does not depend on the current leases survives any lease write. */
  lemma LogGrows(c: Config, h: Hypotheses, s: State, m: LeaseMap)
    requires OpsInv(s.leaseLog, s.ops) && HistoryInv(s.objs, s.leaseLog, s.known, s.cache)
    requires PendingInv(c, h, s.leaseLog, s.objs, s.ops, s.pending)
    ensures OpsInv(s.leaseLog + [m], s.ops) && HistoryInv(s.objs, s.leaseLog + [m], s.known, s.cache)
    ensures PendingInv(c, h, s.leaseLog + [m], s.objs, s.ops, s.pending)
  {
    forall n ensures Kept(s.leaseLog + [m], n) ==> Kept(s.leaseLog, n) {
      KeptGrows(s.leaseLog, m, n);
    }
    PendingLogGrows(c, h, s.leaseLog, m, s.objs, s.ops, s.pending);
  }

  lemma PendingLogGrows(c: Config, h: Hypotheses, log: seq<LeaseMap>, m: LeaseMap,
                        objs: Objects, ops: set<Op>, pending: set<Item>)
    requires PendingInv(c, h, log, objs, ops, pending)
    ensures PendingInv(c, h, log + [m], objs, ops, pending)
  {
    forall item | item in pending ensures ItemInv(c, h, log + [m], objs, item) {
      assert ItemInv(c, h, log, objs, item);
      if Started(log, item.op, item.current) {
        var j :| 0 <= j <= item.op.seen && j < |log| && item.current in log[j];
        assert item.current in (log + [m])[j];
      }
    }
  }

  /** New leases under which every running shard still holds its lease. */
  lemma LeasesKeep(c: Config, s: State, m: LeaseMap)
    requires Invariant(c, s) && WellNamed(s.known, m)
    requires forall n :: n in s.running ==> HoldsLease(s.now, m, n)
    ensures Invariant(c, WithLeases(s, m))
  {
    LogGrows(c, ASSUMED, s, m);
    forall n | n in s.running ensures Kept(s.leaseLog + [m], n) {
      KeptGrows(s.leaseLog, m, n);
    }
  }

  lemma StartKeeps(c: Config, s: State, n: string, l: Lease)
    requires Invariant(c, s) && n != "" && Kept(s.leaseLog, n)
    requires l.name == n && Held(l) && Proper(l) && l.renewTime == Some(s.now)
    ensures Invariant(c, WithLeases(s, CurrentLeases(s)[n := l]).(known := s.known + {n}, running := s.running + {n}))
  {
    var m := CurrentLeases(s)[n := l];
    var known, running := s.known + {n}, s.running + {n};
    assert WellNamed(s.known, CurrentLeases(s));
    LogGrows(c, ASSUMED, s, m);
    forall k | k in running ensures Kept(s.leaseLog + [m], k) && HoldsLease(s.now, m, k) {
      KeptGrows(s.leaseLog, m, k);
    }
    forall t: Task | Owner(s.leaseLog + [m], known, t.shard) && t.id in s.objs
      ensures LeftOnlyAfterDrain(s.objs[t.id], s.cache, t)
    {
      KeptGrows(s.leaseLog, m, t.shard);
      assert t.shard in s.known ==> Owner(s.leaseLog + [m], s.known, t.shard);
    }
    assert forall i :: 0 <= i < |s.leaseLog| ==> WellNamed(s.known, s.leaseLog[i]);
  }

  /** A lease that was not held at some time belongs to a shard that does not run. */
  lemma UnheldStopped(s: State, i: nat, n: string)
    requires LeaseInv(s.now, s.leaseLog, s.known, s.running)
    requires i < |s.leaseLog| && n in s.leaseLog[i] && !Held(s.leaseLog[i][n])
    ensures n !in s.running
  {
    assert !Kept(s.leaseLog, n);
  }

  lemma ReconcileKeeps(c: Config, s: State, n: string)
    requires Invariant(c, s) && n in CurrentLeases(s)
    ensures var after := Fresh(CurrentLeases(s)[n], s.now).0.lease;
            var m := CurrentLeases(s);
            Invariant(c, WithLeases(s, if after.Some? then m[n := after.value] else m - {n}))
  {
    var m := CurrentLeases(s);
    assert WellNamed(s.known, m);
    ReconcileEffect(m[n], s.now);
    AvailableIffHeld(m[n], s.now);
    if n in s.running {
      StateIntervals(m[n], s.now);
    }
    var after := Fresh(m[n], s.now).0.lease;
    LeasesKeep(c, s, if after.Some? then m[n := after.value] else m - {n});
  }

  lemma LeaseStepKeeps(c: Config, s: State, step: Step, s': State)
    requires Invariant(c, s) && WellFormed(s) && LeaseStep(ASSUMED, s, step, s')
    ensures Invariant(c, s')
  {
    var m := CurrentLeases(s);
    assert WellNamed(s.known, m);
    match step
    case Tick(to) =>
    case StartShard(n, lease) => StartKeeps(c, s, n, lease);
    case RenewLease(n) => LeasesKeep(c, s, m[n := m[n].(renewTime := Some(s.now))]);
    case StopShard(n) =>
    case ReleaseLease(n, lease) => LeasesKeep(c, s, m[n := lease]);
    case ReconcileLease(n) => ReconcileKeeps(c, s, n);
    case DeleteLease(n, seen) =>
      AvailableIffHeld(s.leaseLog[seen][n], s.now);
      UnheldStopped(s, seen, n);
      LeasesKeep(c, s, m - {n});
  }

  // ------------------------------------------------------------------ objects

  lemma ChoiceKnown(c: Config, s: State, id: string, choice: string)
    requires LeaseInv(s.now, s.leaseLog, s.known, s.running) && WebhookMayChoose(c, s, id, choice)
    ensures choice == "" || choice in s.known
  {
    if choice != "" {
      var list, t :| CachedListing(s, list) && choice == ShardFor(c.hash, list, t, c.key(id));
      ShardForAvailable(c.hash, list, t, c.key(id));
      var i :| 0 <= i < |s.leaseLog| && Listing(list, s.leaseLog[i]);
      assert WellNamed(s.known, s.leaseLog[i]);
    }
  }

  /**
   The shard of an object to be moved has lost its lease for good: its lease was there when the
   snapshot was taken or before, and the snapshot shows it as not held or not at all.
   */
  lemma MovedShardLost(c: Config, s: State, item: Item)
    requires Invariant(c, s) && item in s.pending && !item.drain && item.current != ""
    ensures !Kept(s.leaseLog, item.current)
  {
    assert ItemInv(c, ASSUMED, s.leaseLog, s.objs, item);
    var op, n := item.op, item.current;
    var j :| 0 <= j <= op.seen && j < |s.leaseLog| && n in s.leaseLog[j];
    assert Listing(op.leases, s.leaseLog[op.seen]);
    if n in s.leaseLog[op.seen] {
      assert WellNamed(s.known, s.leaseLog[op.seen]);
      LookupLease(op.leases, op.at, n);
      var l :| l in op.leases && l.name == n && ShardByID(ShardsOf(op.leases, op.at), n) == ToShard(l, op.at);
      AvailableIffHeld(l, op.at);
    }
  }

  /** When a new version may take the label away. */
  ghost predicate MayWrite(s: State, id: string, v: Version)
    requires id in s.objs && s.objs[id] != []
  {
    var last := LatestVersion(s, id);
    || v.shard == last.shard
    || !Owner(s.leaseLog, s.known, last.shard)
    || (last.drain && Task(last.shard, id) !in s.working
        && Task(last.shard, id) in s.cache && s.cache[Task(last.shard, id)] == Latest(s, id))
  }

  lemma HistoryExtends(s: State, id: string, v: Version, t: Task)
    requires id in s.objs && s.objs[id] != [] && MayWrite(s, id, v)
    requires Owner(s.leaseLog, s.known, t.shard) && t.id == id && LeftOnlyAfterDrain(s.objs[id], s.cache, t)
    ensures LeftOnlyAfterDrain(s.objs[id] + [v], s.cache, t)
  {
  }

  /** Writing a version keeps all invariants if the write may happen. */
  lemma WriteKeeps(c: Config, s: State, id: string, v: Version)
    requires Invariant(c, s) && id in s.objs && s.objs[id] != [] && MayWrite(s, id, v)
    requires v.shard == "" || v.shard in s.known
    ensures Invariant(c, WithVersion(s, id, v))
  {
    var objs := s.objs[id := s.objs[id] + [v]];
    forall t: Task | Owner(s.leaseLog, s.known, t.shard) && t.id in objs
      ensures LeftOnlyAfterDrain(objs[t.id], s.cache, t) {
      assert LeftOnlyAfterDrain(s.objs[t.id], s.cache, t);
      if t.id == id {
        HistoryExtends(s, id, v, t);
      }
    }
    forall t | t in s.working ensures CarriesLabel(objs, s.running, t) {
      assert CarriesLabel(s.objs, s.running, t);
      assert t.id == id ==> t == Task(LatestVersion(s, id).shard, id);
    }
    PendingExtends(c, ASSUMED, s.leaseLog, s.objs, s.ops, s.pending, id, v);
  }

  lemma PendingExtends(c: Config, h: Hypotheses, log: seq<LeaseMap>, objs: Objects,
                       ops: set<Op>, pending: set<Item>, id: string, v: Version)
    requires PendingInv(c, h, log, objs, ops, pending) && id in objs
    ensures PendingInv(c, h, log, objs[id := objs[id] + [v]], ops, pending)
  {
  }

  lemma PatchKeeps(c: Config, s: State, id: string, v: Version)
    requires Invariant(c, s) && id in s.objs && s.objs[id] != [] && MayWrite(s, id, v)
    requires v.shard == "" || v.shard in s.known
    ensures Invariant(c, WithPatch(s, id, v))
  {
    WriteKeeps(c, s, id, v);
  }

  lemma ExecuteKeeps(c: Config, s: State, item: Item, choice: string, s': State)
    requires Invariant(c, s) && WellFormed(s) && ObjectStep(c, ASSUMED, s, ExecuteItem(item, choice), s')
    ensures Invariant(c, s')
  {
    var done := s.(pending := s.pending - {item});
    assert Invariant(c, done);
    if s' != done {
      ChoiceKnown(c, s, item.id, choice);
      if item.drain {
        assert LabelsInv(s.objs, s.known);
        PatchKeeps(c, done, item.id, LatestVersion(s, item.id).(drain := true));
      } else {
        MoveAllowed(c, s, item, Admit(UNASSIGNED, choice));
        PatchKeeps(c, done, item.id, Admit(UNASSIGNED, choice));
      }
    }
  }

  /** A movement of the latest version may take the label away. */
  lemma MoveAllowed(c: Config, s: State, item: Item, v: Version)
    requires Invariant(c, s) && item in s.pending && !item.drain
    requires item.id in s.objs && s.objs[item.id] != [] && item.resourceVersion == Latest(s, item.id)
    ensures MayWrite(s, item.id, v)
  {
    assert ItemInv(c, ASSUMED, s.leaseLog, s.objs, item);
    if item.current != "" {
      MovedShardLost(c, s, item);
    }
  }

  lemma CreateKeeps(c: Config, s: State, id: string, v: Version)
    requires Invariant(c, s) && id !in s.objs && (v.shard == "" || v.shard in s.known)
    ensures Invariant(c, s.(objs := s.objs[id := [v]]))
  {
  }

  lemma PendingCreates(c: Config, h: Hypotheses, log: seq<LeaseMap>, objs: Objects,
                       ops: set<Op>, pending: set<Item>, id: string, v: Version)
    requires PendingInv(c, h, log, objs, ops, pending) && id !in objs
    ensures PendingInv(c, h, log, objs[id := [v]], ops, pending)
  {
  }

  lemma ObjectStepKeeps(c: Config, s: State, step: Step, s': State)
    requires Invariant(c, s) && WellFormed(s) && ObjectStep(c, ASSUMED, s, step, s')
    ensures Invariant(c, s')
  {
    match step
    case CreateObject(id, choice) =>
      ChoiceKnown(c, s, id, choice);
      CreateKeeps(c, s, id, Admit(UNASSIGNED, choice));
    case UpdateObject(id, choice) =>
      ChoiceKnown(c, s, id, choice);
      WriteKeeps(c, s, id, Admit(LatestVersion(s, id), choice));
    case BeginResync(op) =>
    case DecideItem(op, id, rv) =>
    case ExecuteItem(item, choice) =>
      ExecuteKeeps(c, s, item, choice, s');
  }

  // ------------------------------------------------------------------ shards

  /** A running shard whose cache shows its label without the drain label still has the label. */
  lemma {:induction false} CachedLabelIsCurrent(hist: seq<Version>, cache: map<Task, nat>, t: Task, i: nat)
    requires LeftOnlyAfterDrain(hist, cache, t) && t in cache
    requires cache[t] <= i < |hist|
    requires hist[cache[t]].shard == t.shard && !hist[cache[t]].drain
    ensures hist[i].shard == t.shard
  {
    if i > cache[t] {
      CachedLabelIsCurrent(hist, cache, t, i - 1);
      assert hist[i - 1].shard == t.shard;
    }
  }

  lemma StartWorkKeeps(c: Config, s: State, t: Task)
    requires Invariant(c, s) && CanReconcile(s, t) && CachedResponse(s, t) == DelegateReconcile
    ensures Invariant(c, s.(working := s.working + {t}))
  {
    assert Owner(s.leaseLog, s.known, t.shard);
    CachedLabelIsCurrent(s.objs[t.id], s.cache, t, |s.objs[t.id]| - 1);
  }

  lemma ObserveKeeps(c: Config, s: State, t: Task, v: nat)
    requires Invariant(c, s) && t.id in s.objs && v < |s.objs[t.id]| && (t in s.cache ==> s.cache[t] <= v)
    ensures Invariant(c, s.(cache := s.cache[t := v]))
  {
  }

  lemma ShardStepKeeps(c: Config, s: State, step: Step, s': State)
    requires Invariant(c, s) && WellFormed(s) && ShardStep(c, s, step, s')
    ensures Invariant(c, s')
  {
    match step
    case Observe(t, v) => ObserveKeeps(c, s, t, v);
    case StartWork(t) => StartWorkKeeps(c, s, t);
    case FinishWork(t) =>
    case AcknowledgeDrain(t, choice) =>
      ChoiceKnown(c, s, t.id, choice);
      if s.cache[t] == Latest(s, t.id) {
        WriteKeeps(c, s, t.id, Admit(UNASSIGNED, choice));
      }
  }

  lemma StepKeeps(c: Config, s: State, s': State)
    requires Invariant(c, s) && Next(c, ASSUMED, s, s')
    ensures Invariant(c, s')
  {
    var step :| NextStep(c, ASSUMED, s, step, s');
    if LeaseStep(ASSUMED, s, step, s') {
      LeaseStepKeeps(c, s, step, s');
    } else if ObjectStep(c, ASSUMED, s, step, s') {
      ObjectStepKeeps(c, s, step, s');
    } else {
      ShardStepKeeps(c, s, step, s');
    }
  }

  lemma {:induction false} RunKeeps(c: Config, run: seq<State>, i: nat)
    requires IsRun(c, ASSUMED, run) && i < |run|
    ensures Invariant(c, run[i])
  {
    if i > 0 {
      RunKeeps(c, run, i - 1);
      assert Next(c, ASSUMED, run[i - 1], run[i - 1 + 1]);
      StepKeeps(c, run[i - 1], run[i]);
    }
  }

  /** No two shards work on the same object. */
  ghost predicate Exclusive(s: State)
  {
    forall t, u :: t in s.working && u in s.working && t.id == u.id ==> t.shard == u.shard
  }

  /**
   In every state of every run, at most one shard works on an object; it runs, it holds its
   lease, which is not uncertain yet, and the object's current shard label names it.
   */
  lemma AtMostOneShardWorks(c: Config, run: seq<State>, i: nat)
    requires IsRun(c, ASSUMED, run) && i < |run|
    ensures Exclusive(run[i]) && WellFormed(run[i])
    ensures forall t :: t in run[i].working ==>
              && t.shard in run[i].running && HoldsLease(run[i].now, CurrentLeases(run[i]), t.shard)
              && t.id in run[i].objs && LatestVersion(run[i], t.id).shard == t.shard
  {
    RunKeeps(c, run, i);
    forall t | t in run[i].working ensures CarriesLabel(run[i].objs, run[i].running, t) {
    }
  }

  // ------------------------------------------------------------------ no forced removal

  lemma PendingStep(c: Config, h: Hypotheses, s: State, step: Step, s': State)
    requires PendingInv(c, h, s.leaseLog, s.objs, s.ops, s.pending) && NextStep(c, h, s, step, s')
    ensures PendingInv(c, h, s'.leaseLog, s'.objs, s'.ops, s'.pending)
  {
    if ObjectStep(c, h, s, step, s') {
      PendingObjectStep(c, h, s, step, s');
    } else if LeaseStep(h, s, step, s') {
      PendingLeaseStep(c, h, s, step, s');
    } else if step.AcknowledgeDrain? {
      PendingExtends(c, h, s.leaseLog, s.objs, s.ops, s.pending, step.task.id, Admit(UNASSIGNED, step.choice));
    }
  }

  lemma PendingLeaseStep(c: Config, h: Hypotheses, s: State, step: Step, s': State)
    requires PendingInv(c, h, s.leaseLog, s.objs, s.ops, s.pending) && WellFormed(s) && LeaseStep(h, s, step, s')
    ensures PendingInv(c, h, s'.leaseLog, s'.objs, s'.ops, s'.pending)
  {
    if s'.leaseLog != s.leaseLog {
      assert s'.leaseLog == s.leaseLog + [CurrentLeases(s')];
      PendingLogGrows(c, h, s.leaseLog, CurrentLeases(s'), s.objs, s.ops, s.pending);
    }
  }

  lemma PendingObjectStep(c: Config, h: Hypotheses, s: State, step: Step, s': State)
    requires PendingInv(c, h, s.leaseLog, s.objs, s.ops, s.pending) && WellFormed(s) && ObjectStep(c, h, s, step, s')
    ensures PendingInv(c, h, s'.leaseLog, s'.objs, s'.ops, s'.pending)
  {
    match step
    case CreateObject(id, choice) =>
      PendingCreates(c, h, s.leaseLog, s.objs, s.ops, s.pending, id, Admit(UNASSIGNED, choice));
    case UpdateObject(id, choice) =>
      PendingExtends(c, h, s.leaseLog, s.objs, s.ops, s.pending, id, Admit(LatestVersion(s, id), choice));
    case BeginResync(op) =>
    case DecideItem(op, id, rv) =>
    case ExecuteItem(item, choice) =>
      var pending := s.pending - {item};
      PendingExtends(c, h, s.leaseLog, s.objs, s.ops, pending, item.id, LatestVersion(s, item.id).(drain := true));
      PendingExtends(c, h, s.leaseLog, s.objs, s.ops, pending, item.id, Admit(UNASSIGNED, choice));
  }

  lemma {:induction false} PendingOverRun(c: Config, h: Hypotheses, run: seq<State>, i: nat)
    requires IsRun(c, h, run) && i < |run|
    ensures PendingInv(c, h, run[i].leaseLog, run[i].objs, run[i].ops, run[i].pending)
  {
    if i > 0 {
      PendingOverRun(c, h, run, i - 1);
      assert Next(c, h, run[i - 1], run[i - 1 + 1]);
      var step :| NextStep(c, h, run[i - 1], step, run[i]);
      PendingStep(c, h, run[i - 1], step, run[i]);
    }
  }

  /** The two ways in which a shard label may be lost. */
  predicate AcknowledgedByOwner(s: State, step: Step, id: string, v: Version)
  {
    step.AcknowledgeDrain? && step.task == Task(v.shard, id) && v.drain && v.shard in s.running
  }

  predicate MovedFromUnavailable(step: Step, id: string, v: Version)
  {
    && step.ExecuteItem? && step.item.id == id && !step.item.drain && step.item.current == v.shard
    && !ShardByID(ShardsOf(step.item.op.leases, step.item.op.at), v.shard).state.IsAvailable()
  }

  lemma RemovalStep(c: Config, h: Hypotheses, s: State, step: Step, s': State, id: string)
    requires PendingInv(c, h, s.leaseLog, s.objs, s.ops, s.pending) && NextStep(c, h, s, step, s')
    requires id in s.objs
    ensures id in s'.objs && s.objs[id] != [] && s'.objs[id] != []
    ensures var v := LatestVersion(s, id);
            v.shard != "" && LatestVersion(s', id).shard != v.shard ==>
              AcknowledgedByOwner(s, step, id, v) || MovedFromUnavailable(step, id, v)
  {
    if ObjectStep(c, h, s, step, s') {
      RemovalObjectStep(c, h, s, step, s', id);
    } else if LeaseStep(h, s, step, s') {
      assert s'.objs == s.objs;
    }
  }

  lemma RemovalObjectStep(c: Config, h: Hypotheses, s: State, step: Step, s': State, id: string)
    requires PendingInv(c, h, s.leaseLog, s.objs, s.ops, s.pending) && WellFormed(s) && ObjectStep(c, h, s, step, s')
    requires id in s.objs
    ensures id in s'.objs && s'.objs[id] != []
    ensures var v := LatestVersion(s, id);
            v.shard != "" && LatestVersion(s', id).shard != v.shard ==> MovedFromUnavailable(step, id, v)
  {
    match step
    case CreateObject(_, _) =>
    case UpdateObject(_, _) =>
    case BeginResync(_) =>
    case DecideItem(_, _, _) => assert s'.objs == s.objs;
    case ExecuteItem(item, choice) => RemovalExecute(c, h, s, item, choice, s', id);
  }

  lemma RemovalExecute(c: Config, h: Hypotheses, s: State, item: Item, choice: string, s': State, id: string)
    requires PendingInv(c, h, s.leaseLog, s.objs, s.ops, s.pending) && WellFormed(s)
    requires ObjectStep(c, h, s, ExecuteItem(item, choice), s') && id in s.objs
    ensures id in s'.objs && s'.objs[id] != []
    ensures var v := LatestVersion(s, id);
            v.shard != "" && LatestVersion(s', id).shard != v.shard ==>
              MovedFromUnavailable(ExecuteItem(item, choice), id, v)
  {
    assert ItemInv(c, h, s.leaseLog, s.objs, item);
    if item.id != id {
      assert s'.objs[id] == s.objs[id];
    }
  }

  /**
   With or without the hypotheses: in every run, a shard label that is set goes away or changes
   only by its own shard acknowledging a version with the drain label, or by a movement whose
   snapshot showed that shard as not available.
   */
  lemma NoForcedRemoval(c: Config, h: Hypotheses, run: seq<State>, i: nat, step: Step, id: string)
    requires IsRun(c, h, run) && i + 1 < |run| && NextStep(c, h, run[i], step, run[i + 1])
    requires id in run[i].objs
    ensures id in run[i + 1].objs && run[i].objs[id] != [] && run[i + 1].objs[id] != []
    ensures var v := LatestVersion(run[i], id);
            v.shard != "" && LatestVersion(run[i + 1], id).shard != v.shard ==>
              AcknowledgedByOwner(run[i], step, id, v) || MovedFromUnavailable(step, id, v)
  {
    PendingOverRun(c, h, run, i);
    RemovalStep(c, h, run[i], step, run[i + 1], id);
  }
}
