/**
 Mutual exclusion holds in all runs exactly under all three hypotheses: for every hash function
 and all object keys, leaving any one of them out admits a run after which two shards work on
 the same object.
 */
module ProtocolWitness {
  import opened Prelude
  import opened Leases
  import opened RingFromLeases
  import opened ShardLease
  import opened Resync
  import opened Protocol
  import opened MutualExclusion

  function NewLease(n: string): (l: Lease)
  {
    Lease(n, Some(n), Some(0), Some(0), Some(15), None, "ring", "")
  }

  function ReleasedLease(n: string): (l: Lease)
  {
    NewLease(n).(holder := Some(""))
  }

  function RenewedLease(n: string, at: int): (l: Lease)
  {
    NewLease(n).(renewTime := Some(at))
  }

  /** The object of all scenarios. */
  const OBJ := "o"

  // ------------------------------------------------------------------ reachable states

  ghost predicate Reachable(c: Config, h: Hypotheses, s: State)
  {
    exists run :: IsRun(c, h, run) && run[|run| - 1] == s
  }

  lemma ReachStep(c: Config, h: Hypotheses, s: State, step: Step, s': State)
    requires Reachable(c, h, s) && NextStep(c, h, s, step, s')
    ensures Reachable(c, h, s')
  {
    var run :| IsRun(c, h, run) && run[|run| - 1] == s;
    var longer := run + [s'];
    forall i | 0 <= i < |longer| - 1 ensures Next(c, h, longer[i], longer[i + 1]) {
      if i < |run| - 1 {
        assert Next(c, h, run[i], run[i + 1]);
      }
    }
    assert IsRun(c, h, longer) && longer[|longer| - 1] == s';
  }

  lemma ByLeases(c: Config, h: Hypotheses, s: State, step: Step, s': State)
    requires Reachable(c, h, s) && WellFormed(s) && LeaseStep(h, s, step, s')
    ensures Reachable(c, h, s')
  {
    ReachStep(c, h, s, step, s');
  }

  lemma ByObjects(c: Config, h: Hypotheses, s: State, step: Step, s': State)
    requires Reachable(c, h, s) && WellFormed(s) && ObjectStep(c, h, s, step, s')
    ensures Reachable(c, h, s')
  {
    ReachStep(c, h, s, step, s');
  }

  lemma ByShards(c: Config, h: Hypotheses, s: State, step: Step, s': State)
    requires Reachable(c, h, s) && WellFormed(s) && ShardStep(c, s, step, s')
    ensures Reachable(c, h, s')
  {
    ReachStep(c, h, s, step, s');
  }

  const EMPTY: State := State(0, [map[]], {}, {}, map[], map[], {}, {}, {})

  lemma EmptyReachable(c: Config, h: Hypotheses)
    ensures Reachable(c, h, EMPTY)
  {
    assert IsRun(c, h, [EMPTY]) && [EMPTY][|[EMPTY]| - 1] == EMPTY;
  }

  // ------------------------------------------------------------------ single steps

  /** The lease log has grown by m. */
  predicate Appended(s: State, m: LeaseMap, s': State)
  {
    |s'.leaseLog| == |s.leaseLog| + 1 && s'.leaseLog[|s.leaseLog|] == m
    && forall i :: 0 <= i < |s.leaseLog| ==> s'.leaseLog[i] == s.leaseLog[i]
  }

  /** The leases x and y, which may be the same, and no other. */
  predicate Holds(m: LeaseMap, x: Lease, y: Lease)
  {
    && x.name in m && m[x.name] == x && y.name in m && m[y.name] == y
    && forall n :: n in m ==> n == x.name || n == y.name
  }

  /** A list of x and y and no other lease. */
  predicate Lists(list: seq<Lease>, x: Lease, y: Lease)
  {
    x in list && y in list && forall l :: l in list ==> l == x || l == y
  }

  lemma ListsAll(list: seq<Lease>, m: LeaseMap, x: Lease, y: Lease)
    requires Lists(list, x, y) && Holds(m, x, y)
    ensures Listing(list, m)
  {
  }

  lemma Start(c: Config, h: Hypotheses, s: State, n: string) returns (s': State)
    requires Reachable(c, h, s) && WellFormed(s) && s.now == 0
    requires n != "" && n !in s.running && (h.noReturn ==> forall i :: 0 <= i < |s.leaseLog| ==> n !in s.leaseLog[i])
    ensures Reachable(c, h, s') && Appended(s, CurrentLeases(s)[n := NewLease(n)], s')
    ensures s' == s.(leaseLog := s'.leaseLog, known := s.known + {n}, running := s.running + {n})
  {
    s' := WithLeases(s, CurrentLeases(s)[n := NewLease(n)]).(known := s.known + {n}, running := s.running + {n});
    ByLeases(c, h, s, StartShard(n, NewLease(n)), s');
  }

  /** The second shard starts. */
  lemma SecondShard(c: Config, h: Hypotheses, s: State, x: string, y: string) returns (s': State)
    requires Reachable(c, h, s) && WellFormed(s) && s.now == 0 && x != y && y != "" && y !in s.running
    requires |s.leaseLog| == 2 && s.leaseLog[0] == map[] && Holds(s.leaseLog[1], NewLease(x), NewLease(x))
    ensures Reachable(c, h, s') && |s'.leaseLog| == 3
    ensures s'.leaseLog[1] == s.leaseLog[1] && Holds(s'.leaseLog[2], NewLease(x), NewLease(y))
    ensures s' == s.(leaseLog := s'.leaseLog, known := s.known + {y}, running := s.running + {y})
  {
    s' := Start(c, h, s, y);
  }

  lemma Resynced(c: Config, h: Hypotheses, s: State, op: Op) returns (s': State)
    requires Reachable(c, h, s) && WellFormed(s) && op.seen < |s.leaseLog| && Listing(op.leases, s.leaseLog[op.seen])
    ensures Reachable(c, h, s') && s' == s.(ops := s.ops + {op})
  {
    s' := s.(ops := s.ops + {op});
    ByObjects(c, h, s, BeginResync(op), s');
  }

  /** The webhook assigns a new object with the leases at position i. */
  lemma Created(c: Config, h: Hypotheses, s: State, i: nat, list: seq<Lease>, n: string) returns (s': State)
    requires Reachable(c, h, s) && WellFormed(s) && OBJ !in s.objs && n != ""
    requires i < |s.leaseLog| && Listing(list, s.leaseLog[i]) && ShardFor(c.hash, list, 0, c.key(OBJ)) == n
    ensures Reachable(c, h, s') && s' == s.(objs := s.objs[OBJ := [Version(n, false)]])
  {
    assert CachedListing(s, list);
    assert WebhookMayChoose(c, s, OBJ, n);
    s' := s.(objs := s.objs[OBJ := [Version(n, false)]]);
    ByObjects(c, h, s, CreateObject(OBJ, n), s');
  }

  /** A shard's cache catches up and its controller starts to work. */
  lemma WorkOn(c: Config, h: Hypotheses, s: State, t: Task, v: nat) returns (s': State)
    requires Reachable(c, h, s) && WellFormed(s)
    requires t.shard in s.running && t !in s.cache && t !in s.working && t.shard != ""
    requires t.id in s.objs && v < |s.objs[t.id]| && s.objs[t.id][v] == Version(t.shard, false)
    ensures Reachable(c, h, s') && s' == s.(cache := s.cache[t := v], working := s.working + {t})
  {
    var seen := s.(cache := s.cache[t := v]);
    ByShards(c, h, s, Observe(t, v), seen);
    s' := seen.(working := seen.working + {t});
    ByShards(c, h, seen, StartWork(t), s');
  }

  lemma Decided(c: Config, h: Hypotheses, s: State, op: Op, a: string) returns (s': State)
    requires Reachable(c, h, s) && WellFormed(s) && op in s.ops
    requires OBJ in s.objs && s.objs[OBJ] == [Version(a, false)]
    requires h.snapshotFresh ==> Started(s.leaseLog, op, a)
    requires DecisionFor(c, op, OBJ, a) == Move
    ensures Reachable(c, h, s') && s' == s.(pending := s.pending + {Item(op, OBJ, 0, false, a)})
  {
    s' := s.(pending := s.pending + {Item(op, OBJ, 0, false, a)});
    ByObjects(c, h, s, DecideItem(op, OBJ, 0), s');
  }

  lemma Moved(c: Config, h: Hypotheses, s: State, op: Op, a: string, b: string) returns (s': State)
    requires Reachable(c, h, s) && WellFormed(s) && Item(op, OBJ, 0, false, a) in s.pending
    requires OBJ in s.objs && s.objs[OBJ] == [Version(a, false)] && a != b && b != ""
    requires op.seen < |s.leaseLog| && Listing(op.leases, s.leaseLog[op.seen])
    requires ShardFor(c.hash, op.leases, op.at, c.key(OBJ)) == b
    ensures Reachable(c, h, s')
    ensures s' == WithVersion(s.(pending := s.pending - {Item(op, OBJ, 0, false, a)}), OBJ, Version(b, false))
  {
    var item := Item(op, OBJ, 0, false, a);
    assert CachedListing(s, op.leases);
    assert WebhookMayChoose(c, s, OBJ, b);
    s' := WithVersion(s.(pending := s.pending - {item}), OBJ, Version(b, false));
    ByObjects(c, h, s, ExecuteItem(item, b), s');
  }

  /** An operation that sees the lease of b as the only one that is held. */
  predicate SeesOnly(op: Op, b: string)
  {
    && (exists l :: l in op.leases && Held(l))
    && forall l :: l in op.leases && Held(l) ==> l.name == b
  }

  /** Whatever the hash function: the only shard that is available gets every object. */
  lemma MoveDecision(c: Config, op: Op, a: string, b: string)
    requires SeesOnly(op, b) && a != b && a != ""
    ensures DecisionFor(c, op, OBJ, a) == Move && ShardFor(c.hash, op.leases, op.at, c.key(OBJ)) == b
  {
    ShardForAvailable(c.hash, op.leases, op.at, c.key(OBJ));
    LookupLease(op.leases, op.at, a);
    if l :| l in op.leases && l.name == a && ShardByID(ShardsOf(op.leases, op.at), a) == ToShard(l, op.at) {
      AvailableIffHeld(l, op.at);
    }
  }

  /** How all scenarios end: a works on the object, the movement is executed, b works on it too. */
  lemma MoveWhileWorking(c: Config, h: Hypotheses, s: State, op: Op, a: string, b: string) returns (s': State)
    requires Reachable(c, h, s) && WellFormed(s) && op in s.ops
    requires OBJ in s.objs && s.objs[OBJ] == [Version(a, false)]
    requires s.cache == map[] && s.working == {} && a in s.running && b in s.running && a != b && a != "" && b != ""
    requires op.seen < |s.leaseLog| && Listing(op.leases, s.leaseLog[op.seen]) && SeesOnly(op, b)
    requires h.snapshotFresh ==> Started(s.leaseLog, op, a)
    ensures Reachable(c, h, s') && !Exclusive(s')
  {
    MoveDecision(c, op, a, b);
    s' := Decided(c, h, s, op, a);
    s' := WorkOn(c, h, s', Task(a, OBJ), 0);
    s' := Moved(c, h, s', op, a, b);
    s' := WorkOn(c, h, s', Task(b, OBJ), 1);
    assert Task(a, OBJ) in s'.working && Task(b, OBJ) in s'.working;
  }

  /** The only shard of a list gets the object. */
  lemma SingleShard(c: Config, n: string)
    requires n != ""
    ensures ShardFor(c.hash, [NewLease(n)], 0, c.key(OBJ)) == n
  {
    assert NewLease(n) in [NewLease(n)];
    ShardForAvailable(c.hash, [NewLease(n)], 0, c.key(OBJ));
  }

  // ------------------------------------------------------------------ an outdated snapshot

  /** A resync begins when b is the only shard. */
  lemma SnapshotOfOne(c: Config, h: Hypotheses, b: string, op: Op) returns (s: State)
    requires b != "" && op.seen == 1 && Lists(op.leases, NewLease(b), NewLease(b))
    ensures Reachable(c, h, s) && s.now == 0 && s.objs == map[] && s.ops == {op}
    ensures s.cache == map[] && s.working == {} && s.running == {b}
    ensures |s.leaseLog| == 2 && s.leaseLog[0] == map[] && Holds(s.leaseLog[1], NewLease(b), NewLease(b))
  {
    EmptyReachable(c, h);
    s := Start(c, h, EMPTY, b);
    ListsAll(op.leases, s.leaseLog[1], NewLease(b), NewLease(b));
    s := Resynced(c, h, s, op);
  }

  /** Then a starts and gets the object, and is at work when the resync moves it to b. */
  lemma AssignedAfterSnapshot(c: Config, h: Hypotheses, list: seq<Lease>, a: string, b: string, op: Op)
    returns (s: State)
    requires a != b && a != "" && b != "" && op.seen == 1 && Lists(op.leases, NewLease(b), NewLease(b))
    requires Lists(list, NewLease(a), NewLease(b))
    requires ShardFor(c.hash, list, 0, c.key(OBJ)) == a
    ensures Reachable(c, h, s) && WellFormed(s) && op in s.ops && OBJ in s.objs && s.objs[OBJ] == [Version(a, false)]
    ensures s.cache == map[] && s.working == {} && a in s.running && b in s.running
    ensures |s.leaseLog| == 3 && Holds(s.leaseLog[1], NewLease(b), NewLease(b))
  {
    s := SnapshotOfOne(c, h, b, op);
    s := SecondShard(c, h, s, b, a);
    ListsAll(list, s.leaseLog[2], NewLease(b), NewLease(a));
    s := Created(c, h, s, 2, list, a);
  }

  lemma OneOfTwo(c: Config, list: seq<Lease>, x: string, y: string)
    requires Lists(list, NewLease(x), NewLease(y)) && x != "" && y != ""
    ensures ShardFor(c.hash, list, 0, c.key(OBJ)) == x || ShardFor(c.hash, list, 0, c.key(OBJ)) == y
  {
    ShardForAvailable(c.hash, list, 0, c.key(OBJ));
    assert Held(NewLease(x));
  }

  /**
   The object was assigned with newer leases than the resync knows of, so it is moved without a
   drain. Which of two shards can lose an object in this way depends on the hash function.
   */
  lemma SnapshotFreshNeeded(c: Config) returns (s: State)
    ensures Reachable(c, Hypotheses(false, true, true), s) && !Exclusive(s)
  {
    var h := Hypotheses(false, true, true);
    var list := [NewLease("s"), NewLease("t")];
    assert list[0] == NewLease("s") && list[1] == NewLease("t");
    OneOfTwo(c, list, "s", "t");
    var (a, b) := if ShardFor(c.hash, list, 0, c.key(OBJ)) == "s" then ("s", "t") else ("t", "s");
    var op := Op([NewLease(b)], 0, 1);
    assert op.leases[0] == NewLease(b);
    s := AssignedAfterSnapshot(c, h, list, a, b, op);
    s := MoveWhileWorking(c, h, s, op, a, b);
  }

  // ------------------------------------------------------------------ a shard that returns

  /** A single shard a, which has the object. */
  lemma FirstShard(c: Config, h: Hypotheses, a: string) returns (s: State)
    requires a != ""
    ensures Reachable(c, h, s) && WellFormed(s) && s.now == 0 && s.objs == map[OBJ := [Version(a, false)]]
    ensures s.cache == map[] && s.working == {} && s.running == {a}
    ensures |s.leaseLog| == 2 && s.leaseLog[0] == map[] && Holds(s.leaseLog[1], NewLease(a), NewLease(a))
  {
    EmptyReachable(c, h);
    s := Start(c, h, EMPTY, a);
    SingleShard(c, a);
    s := Created(c, h, s, 1, [NewLease(a)], a);
  }

  lemma StoppedAndReleased(c: Config, h: Hypotheses, s: State, n: string) returns (s': State)
    requires Reachable(c, h, s) && WellFormed(s) && s.working == {} && n in CurrentLeases(s)
    ensures Reachable(c, h, s') && Appended(s, CurrentLeases(s)[n := ReleasedLease(n)], s')
    ensures s' == s.(leaseLog := s'.leaseLog, running := s.running - {n})
  {
    var stopped := s.(running := s.running - {n});
    assert (set t | t in s.working && t.shard != n) == {};
    ByLeases(c, h, s, StopShard(n), stopped);
    s' := WithLeases(stopped, CurrentLeases(s)[n := ReleasedLease(n)]);
    ByLeases(c, h, stopped, ReleaseLease(n, ReleasedLease(n)), s');
  }

  /** The shard of the object gives up its lease before another shard starts. */
  lemma GivenUp(c: Config, h: Hypotheses, a: string, b: string) returns (s: State)
    requires a != b && a != "" && b != ""
    ensures Reachable(c, h, s) && WellFormed(s) && s.now == 0 && OBJ in s.objs && s.objs[OBJ] == [Version(a, false)]
    ensures s.cache == map[] && s.working == {} && a !in s.running && b in s.running
    ensures |s.leaseLog| == 4 && a in s.leaseLog[1] && Holds(s.leaseLog[3], ReleasedLease(a), NewLease(b))
  {
    s := FirstShard(c, h, a);
    s := StoppedAndReleased(c, h, s, a);
    s := Start(c, h, s, b);
  }

  /** A shard that gave up its lease comes back under its old name while its objects are being moved. */
  lemma NoReturnNeeded(c: Config) returns (s: State)
    ensures Reachable(c, Hypotheses(true, false, true), s) && !Exclusive(s)
  {
    var h, a, b := Hypotheses(true, false, true), "s", "t";
    var op := Op([ReleasedLease(a), NewLease(b)], 0, 3);
    s := GivenUp(c, h, a, b);
    assert op.leases[0] == ReleasedLease(a) && op.leases[1] == NewLease(b);
    s := Resynced(c, h, s, op);
    s := Start(c, h, s, a);
    s := MoveWhileWorking(c, h, s, op, a, b);
  }

  // ------------------------------------------------------------------ a shard that stops too late

  /** The clock reading at which the second shard renews its lease. */
  const RENEWAL := 20 * SECOND

  lemma TwoShards(c: Config, h: Hypotheses, a: string, b: string) returns (s: State)
    requires a != b && a != "" && b != ""
    ensures Reachable(c, h, s) && WellFormed(s) && s.now == 0 && OBJ in s.objs && s.objs[OBJ] == [Version(a, false)]
    ensures s.cache == map[] && s.working == {} && a in s.running && b in s.running
    ensures |s.leaseLog| == 3 && a in s.leaseLog[1] && Holds(s.leaseLog[2], NewLease(a), NewLease(b))
  {
    s := FirstShard(c, h, a);
    s := SecondShard(c, h, s, a, b);
  }

  lemma RenewedByOne(c: Config, h: Hypotheses, s: State, a: string, b: string) returns (s': State)
    requires !h.stopsInTime && Reachable(c, h, s) && WellFormed(s) && s.now == 0 && a != b && b in s.running
    requires Holds(CurrentLeases(s), NewLease(a), NewLease(b))
    ensures Reachable(c, h, s') && Appended(s, CurrentLeases(s)[b := RenewedLease(b, RENEWAL)], s')
    ensures s' == s.(now := RENEWAL, leaseLog := s'.leaseLog)
  {
    var later := s.(now := RENEWAL);
    ByLeases(c, h, s, Tick(RENEWAL), later);
    s' := WithLeases(later, CurrentLeases(s)[b := RenewedLease(b, RENEWAL)]);
    ByLeases(c, h, later, RenewLease(b), s');
  }

  /** The sharder acquires a lease of 15 s at the very instant it becomes uncertain. */
  lemma AcquiredAtBoundary(a: string) returns (l: Lease)
    requires a != "" && a != IDENTITY
    ensures Fresh(NewLease(a), 30 * SECOND).0.lease == Some(l) && !Held(l) && l.name == a
  {
    ReconcileEffect(NewLease(a), 30 * SECOND);
    StateIntervals(NewLease(a), 30 * SECOND);
    l := Fresh(NewLease(a), 30 * SECOND).0.lease.value;
  }

  lemma Overtaken(c: Config, h: Hypotheses, s: State, a: string) returns (s': State, l: Lease)
    requires !h.stopsInTime && Reachable(c, h, s) && WellFormed(s) && s.now == RENEWAL && a != "" && a != IDENTITY
    requires a in CurrentLeases(s) && CurrentLeases(s)[a] == NewLease(a)
    ensures Reachable(c, h, s') && !Held(l) && l.name == a && Appended(s, CurrentLeases(s)[a := l], s')
    ensures s' == s.(now := 30 * SECOND, leaseLog := s'.leaseLog)
  {
    var late := s.(now := 30 * SECOND);
    ByLeases(c, h, s, Tick(30 * SECOND), late);
    l := AcquiredAtBoundary(a);
    s' := WithLeases(late, CurrentLeases(s)[a := l]);
    ByLeases(c, h, late, ReconcileLease(a), s');
  }

  /** The sharder holds the lease of a, which runs, and b holds its own. */
  lemma LateShard(c: Config, h: Hypotheses, a: string, b: string) returns (s: State, l: Lease)
    requires !h.stopsInTime && a != b && a != "" && b != "" && a != IDENTITY
    ensures Reachable(c, h, s) && WellFormed(s) && OBJ in s.objs && s.objs[OBJ] == [Version(a, false)]
    ensures s.now == 30 * SECOND && s.cache == map[] && s.working == {} && a in s.running && b in s.running
    ensures |s.leaseLog| == 5 && a in s.leaseLog[1] && l.name == a && !Held(l)
    ensures Holds(s.leaseLog[4], l, RenewedLease(b, RENEWAL))
  {
    s := TwoShards(c, h, a, b);
    s := RenewedByOne(c, h, s, a, b);
    s, l := Overtaken(c, h, s, a);
  }

  /**
   A shard that still works at the instant its lease becomes uncertain is overtaken by the
   sharder, while the lease of the other shard, renewed in time, is ready.
   */
  lemma StoppingInTimeNeeded(c: Config) returns (s: State)
    ensures Reachable(c, Hypotheses(true, true, false), s) && !Exclusive(s)
  {
    var h, a, b := Hypotheses(true, true, false), "s", "t";
    var l: Lease;
    s, l := LateShard(c, h, a, b);
    var op := Op([l, RenewedLease(b, RENEWAL)], s.now, 4);
    assert op.leases[0] == l && op.leases[1] == RenewedLease(b, RENEWAL);
    ListsAll(op.leases, s.leaseLog[4], l, RenewedLease(b, RENEWAL));
    s := Resynced(c, h, s, op);
    s := MoveWhileWorking(c, h, s, op, a, b);
  }

  // ------------------------------------------------------------------ the exact condition

  /** Whatever `strong` assumes, `weak` may not assume more. */
  predicate AssumesLess(weak: Hypotheses, strong: Hypotheses)
  {
    && (weak.snapshotFresh ==> strong.snapshotFresh)
    && (weak.noReturn ==> strong.noReturn)
    && (weak.stopsInTime ==> strong.stopsInTime)
  }

  /** Fewer hypotheses admit more runs. */
  lemma MoreRuns(c: Config, weak: Hypotheses, strong: Hypotheses, run: seq<State>)
    requires AssumesLess(weak, strong) && IsRun(c, strong, run)
    ensures IsRun(c, weak, run)
  {
    forall i | 0 <= i < |run| - 1 ensures Next(c, weak, run[i], run[i + 1]) {
      assert Next(c, strong, run[i], run[i + 1]);
      var step :| NextStep(c, strong, run[i], step, run[i + 1]);
      assert NextStep(c, weak, run[i], step, run[i + 1]);
    }
  }

  ghost predicate AlwaysExclusive(c: Config, h: Hypotheses)
  {
    forall run, i :: IsRun(c, h, run) && 0 <= i < |run| ==> Exclusive(run[i])
  }

  lemma ViolationRefutes(c: Config, weak: Hypotheses, strong: Hypotheses, s: State)
    requires AssumesLess(weak, strong) && Reachable(c, strong, s) && !Exclusive(s)
    ensures !AlwaysExclusive(c, weak)
  {
    var run :| IsRun(c, strong, run) && run[|run| - 1] == s;
    MoreRuns(c, weak, strong, run);
  }

  /**
   For every hash function and all object keys: no run ever breaks mutual exclusion exactly under
   all three hypotheses.
   */
  lemma AlwaysExclusiveIff(c: Config, h: Hypotheses)
    ensures AlwaysExclusive(c, h) <==> h == ASSUMED
  {
    if h == ASSUMED {
      forall run, i | IsRun(c, h, run) && 0 <= i < |run| ensures Exclusive(run[i]) {
        AtMostOneShardWorks(c, run, i);
      }
    } else if !h.snapshotFresh {
      var s := SnapshotFreshNeeded(c);
      ViolationRefutes(c, h, Hypotheses(false, true, true), s);
    } else if !h.noReturn {
      var s := NoReturnNeeded(c);
      ViolationRefutes(c, h, Hypotheses(true, false, true), s);
    } else {
      var s := StoppingInTimeNeeded(c);
      ViolationRefutes(c, h, Hypotheses(true, true, false), s);
    }
  }
}
