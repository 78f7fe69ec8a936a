/**
 How the shard lease controller wakes up: watch events that pass the filter, and timers that
 reconciliations leave behind. No state change of a lease is ever slept through.

 The system is that of a single lease whose ring exists: its stored versions, of which the
 controller's cache has seen a prefix, the workqueue's flag for this lease, its timer, and a
 reconciliation that may be in progress for at most `latency`.
 */
module WakeUp {
  import opened Prelude
  import opened Leases
  import opened LeaseArithmetic
  import opened ShardLease
  import opened LeaseEvents

  /** A reconciliation in progress; `due` is when it wants the lease looked at again. */
  datatype Busy = Busy(start: int, due: Option<int>)

  datatype State = State(
    now: int,
    cached: Option<Lease>,
    cachedVersion: nat,
    /** Versions that are stored but that the cache has not seen yet, oldest first. */
    inflight: seq<Option<Lease>>,
    queued: bool,
    timer: Option<int>,
    busy: Option<Busy>)

  function Live(s: State): (l: Option<Lease>)
  {
    if s.inflight == [] then s.cached else s.inflight[|s.inflight| - 1]
  }

  /** A lease of the shard `name` with admissible times that the sharder can acquire. */
  predicate Sound(name: string, l: Lease)
  {
    && Proper(l) && l.name == name && IsShardLease(l)
    && (Held(l) ==> l.durationSeconds.value < TWO_31 / 2)
  }

  predicate SoundOption(name: string, l: Option<Lease>)
  {
    l.Some? ==> Sound(name, l.value)
  }

  /** A write that leaves the lease with the same kind of holder does not move its deadlines to an earlier time. */
  predicate Permitted(before: Option<Lease>, after: Option<Lease>)
  {
    match (before, after)
    case (None, _) => after.Some?
    case (Some(_), None) => true
    case (Some(l), Some(l')) =>
      Complete(l) && Complete(l')
      && (Held(l) == Held(l') ==> Expiry(l) <= Expiry(l') && Expiry(l) + Duration(l) <= Expiry(l') + Duration(l'))
  }

  /** The next instant at which the lease changes state; `now` if only the sharder can still change it. */
  function NextChange(l: Lease, now: int): (t: int)
    requires Complete(l)
  {
    match ToState(l, now)
    case Ready => Expiry(l)
    case Expired => Expiry(l) + Duration(l)
    case Dead => Expiry(l) + LEASE_TTL
    case _ => now
  }

  /** The event that the watch reports when the cache moves from one version to the next. */
  predicate EventAccepted(before: Option<Lease>, after: Option<Lease>, now: int)
  {
    match (before, after)
    case (None, Some(l)) => ShardLeaseAccepts(Create(l), now)
    case (Some(l), Some(l')) => ShardLeaseAccepts(Update(l, l'), now)
    case (Some(l), None) => ShardLeaseAccepts(Delete(l, false), now)
    case (None, None) => false
  }

  datatype Step =
    | Tick(to: int)
    | Write(lease: Option<Lease>)
    | DeliverEvent
    | Fire
    | Begin(writes: seq<Option<Lease>>)
    | Finish

  /** The versions that a reconciliation stores, matching what Act leaves behind. */
  predicate WritesOf(s: State, writes: seq<Option<Lease>>)
    requires s.cached.Some?
  {
    var stored := Stored(Live(s), s.cachedVersion + |s.inflight|);
    var after := Act(stored, CachedLease(s.cached.value, s.cachedVersion), s.now).0;
    && |writes| == after.version - stored.version
    && (writes != [] ==> writes[|writes| - 1] == after.lease)
    && (|writes| == 2 ==> writes[0] == Some(WithStateLabel(s.cached.value, ToState(s.cached.value, s.now))))
  }

  function VerdictOf(s: State): (v: Verdict)
    requires s.cached.Some?
  {
    Act(Stored(Live(s), s.cachedVersion + |s.inflight|), CachedLease(s.cached.value, s.cachedVersion), s.now).1
  }

  function Earlier(timer: Option<int>, t: int): (r: Option<int>)
  {
    if timer.Some? && timer.value <= t then timer else Some(t)
  }

  ghost predicate NextStep(name: string, latency: nat, s: State, step: Step, s': State)
  {
    match step
    case Tick(to) =>
      && to >= s.now
      && (s.busy.Some? ==> to <= s.busy.value.start + latency)
      && s' == s.(now := to)
    case Write(lease) =>
      && SoundOption(name, lease) && Permitted(Live(s), lease)
      && s' == s.(inflight := s.inflight + [lease])
    case DeliverEvent =>
      && s.inflight != []
      && s' == s.(cached := s.inflight[0], cachedVersion := s.cachedVersion + 1, inflight := s.inflight[1..],
                  queued := s.queued || EventAccepted(s.cached, s.inflight[0], s.now))
    case Fire =>
      && s.timer.Some? && s.timer.value <= s.now
      && s' == s.(timer := None, queued := true)
    case Begin(writes) =>
      && s.queued && s.busy.None?
      && if s.cached.None? then s' == s.(queued := false)
         else
           && WritesOf(s, writes)
           && if VerdictOf(s).Failed? then
                // the workqueue retries with a backoff that is not modelled
                s' == s.(inflight := s.inflight + writes)
              else
                var delay := VerdictOf(s).requeueAfter;
                s' == s.(inflight := s.inflight + writes, queued := false,
                         busy := Some(Busy(s.now, if delay == 0 then None else Some(s.now + delay))))
    case Finish =>
      && s.busy.Some?
      && s' == s.(busy := None,
                  timer := if s.busy.value.due.None? then s.timer
                           else Earlier(s.timer, s.now + (s.busy.value.due.value - s.busy.value.start)))
  }

  predicate Init(s: State)
  {
    s.cached.None? && s.inflight == [] && !s.queued && s.timer.None? && s.busy.None?
  }

  ghost predicate Next(name: string, latency: nat, s: State, s': State)
  {
    exists step :: NextStep(name, latency, s, step, s')
  }

  ghost predicate IsRun(name: string, latency: nat, run: seq<State>)
  {
    && run != [] && Init(run[0])
    && forall i :: 0 <= i < |run| - 1 ==> Next(name, latency, run[i], run[i + 1])
  }

  // ------------------------------------------------------------------ invariant

  predicate SameKind(a: Option<Lease>, b: Option<Lease>)
  {
    a.Some? == b.Some? && (a.Some? && b.Some? ==> Held(a.value) == Held(b.value))
  }

  /** A queued reconciliation, a timer or an unseen event will wake the controller in time. */
  ghost predicate Awake(latency: nat, s: State)
  {
    s.cached.Some? && Complete(s.cached.value) ==>
      var next := NextChange(s.cached.value, s.now);
      || s.queued
      || (s.timer.Some? && s.timer.value <= next + latency)
      || (s.busy.Some? && s.busy.value.due.Some? && s.busy.value.due.value <= next)
      || (exists i :: 0 <= i < |s.inflight| && !SameKind(s.cached, s.inflight[i]))
  }

  ghost predicate Chained(name: string, cached: Option<Lease>, inflight: seq<Option<Lease>>)
  {
    && SoundOption(name, cached)
    && (forall i :: 0 <= i < |inflight| ==> SoundOption(name, inflight[i]))
    && (inflight != [] ==> Permitted(cached, inflight[0]))
    && (forall i :: 0 < i < |inflight| ==> Permitted(inflight[i - 1], inflight[i]))
  }

  ghost predicate Invariant(name: string, latency: nat, s: State)
  {
    && Chained(name, s.cached, s.inflight)
    && (s.busy.Some? ==> s.busy.value.start <= s.now <= s.busy.value.start + latency)
    && Awake(latency, s)
  }

  lemma NextChangeLater(l: Lease, now: int, later: int)
    requires Proper(l) && now <= later
    ensures NextChange(l, now) <= NextChange(l, later)
  {
  }

  /** An update that the filter drops does not bring the next state change forward. */
  lemma DroppedUpdate(l: Lease, l': Lease, now: int)
    requires Proper(l) && Proper(l') && Permitted(Some(l), Some(l'))
    requires ToState(l, now) == ToState(l', now)
    ensures Held(l) == Held(l') && NextChange(l, now) <= NextChange(l', now)
  {
  }

  lemma ChainAppend(name: string, cached: Option<Lease>, inflight: seq<Option<Lease>>, l: Option<Lease>)
    requires Chained(name, cached, inflight) && SoundOption(name, l)
    requires Permitted(if inflight == [] then cached else inflight[|inflight| - 1], l)
    ensures Chained(name, cached, inflight + [l])
  {
  }

  lemma DeliverKeeps(name: string, latency: nat, s: State, s': State)
    requires Invariant(name, latency, s) && NextStep(name, latency, s, DeliverEvent, s')
    ensures Invariant(name, latency, s')
  {
    if s'.cached.Some? && !s'.queued {
      assert s.cached.Some?;
      var l, l' := s.cached.value, s'.cached.value;
      assert ToState(l, s.now) == ToState(l', s.now);
      DroppedUpdate(l, l', s.now);
      assert SameKind(s.cached, s.inflight[0]);
      if i :| 0 <= i < |s.inflight| && !SameKind(s.cached, s.inflight[i]) {
        assert s'.inflight[i - 1] == s.inflight[i];
      }
    }
  }

  /** What a reconciliation writes is permitted, and it leaves the controller awake. */
  lemma BeginKeeps(name: string, latency: nat, s: State, writes: seq<Option<Lease>>, s': State)
    requires name != IDENTITY && name != ""
    requires Invariant(name, latency, s) && NextStep(name, latency, s, Begin(writes), s')
    requires s.cached.Some?
    ensures Invariant(name, latency, s')
  {
    var l := s.cached.value;
    StateIntervals(l, s.now);
    BeginWrites(name, s, writes);
    if !s'.queued {
      var state := ToState(l, s.now);
      if state == Uncertain {
        TakenOverLifetime(l, s.now, s.now);
        assert !SameKind(s.cached, s'.inflight[|s'.inflight| - 1]);
      } else if state == Orphaned {
        assert !SameKind(s.cached, s'.inflight[|s'.inflight| - 1]);
      } else {
        assert s'.busy.value.due == Some(NextChange(l, s.now));
      }
    }
  }

  /** An acquired lease is no longer held by its shard, so the acquisition is a permitted write. */
  lemma AcquisitionPermitted(name: string, l: Lease, now: int)
    requires name != IDENTITY && name != "" && Sound(name, l) && ToState(l, now) == Uncertain
    ensures Sound(name, TakeOver(l, now)) && Permitted(Some(l), Some(TakeOver(l, now)))
  {
    StateIntervals(l, now);
    TakenOverLifetime(l, now, now);
    TakeoverDoublesIff(l.durationSeconds.value);
  }

  lemma LabelPermitted(name: string, l: Lease, state: ShardState)
    requires Sound(name, l)
    ensures Sound(name, WithStateLabel(l, state)) && Permitted(Some(l), Some(WithStateLabel(l, state)))
    ensures forall now :: ToState(WithStateLabel(l, state), now) == ToState(l, now)
  {
  }

  /** What a reconciliation writes to the very lease it has seen. */
  lemma CurrentWrites(l: Lease, v: nat, now: int)
    ensures var (after, _) := Act(Stored(Some(l), v), CachedLease(l, v), now);
            var state := ToState(l, now);
            var labelled := if NeedsLabel(l, now) then WithStateLabel(l, state) else l;
            && after.version == v + (if NeedsLabel(l, now) then 1 else 0)
                                 + (if state == Uncertain || state == Orphaned then 1 else 0)
            && after.lease == if state == Uncertain then Some(TakeOver(labelled, now))
                              else if state == Orphaned then None
                              else Some(labelled)
  {
  }

  lemma BeginWrites(name: string, s: State, writes: seq<Option<Lease>>)
    requires name != IDENTITY && name != ""
    requires Chained(name, s.cached, s.inflight) && s.cached.Some? && WritesOf(s, writes)
    ensures Chained(name, s.cached, s.inflight + writes)
  {
    var l, v := s.cached.value, s.cachedVersion;
    if s.inflight == [] {
      CurrentWrites(l, v, s.now);
      ChainCurrent(name, l, s.now, writes);
      assert s.inflight + writes == writes;
    } else {
      OutdatedReconcile(Stored(Live(s), v + |s.inflight|), CachedLease(l, v), s.now);
      if writes == [] {
        assert s.inflight + writes == s.inflight;
      } else {
        assert writes == [None];
        ChainAppend(name, s.cached, s.inflight, None);
      }
    }
  }

  lemma ChainCurrent(name: string, l: Lease, now: int, writes: seq<Option<Lease>>)
    requires name != IDENTITY && name != "" && Sound(name, l)
    requires var labelled := if NeedsLabel(l, now) then WithStateLabel(l, ToState(l, now)) else l;
             var acts := ToState(l, now) == Uncertain || ToState(l, now) == Orphaned;
             && |writes| == (if NeedsLabel(l, now) then 1 else 0) + (if acts then 1 else 0)
             && (NeedsLabel(l, now) ==> writes[0] == Some(labelled))
             && (ToState(l, now) == Uncertain ==> writes[|writes| - 1] == Some(TakeOver(labelled, now)))
             && (ToState(l, now) == Orphaned ==> writes[|writes| - 1] == None)
    ensures Chained(name, Some(l), writes)
  {
    var state := ToState(l, now);
    var labelled := if NeedsLabel(l, now) then WithStateLabel(l, state) else l;
    LabelPermitted(name, l, state);
    if state == Uncertain {
      AcquisitionPermitted(name, labelled, now);
    }
  }

  lemma StepKeeps(name: string, latency: nat, s: State, step: Step, s': State)
    requires name != IDENTITY && name != ""
    requires Invariant(name, latency, s) && NextStep(name, latency, s, step, s')
    ensures Invariant(name, latency, s')
  {
    match step
    case Tick(to) =>
      if s.cached.Some? {
        NextChangeLater(s.cached.value, s.now, to);
      }
    case Write(lease) =>
      ChainAppend(name, s.cached, s.inflight, lease);
      if i :| 0 <= i < |s.inflight| && !SameKind(s.cached, s.inflight[i]) {
        assert s'.inflight[i] == s.inflight[i];
      }
    case DeliverEvent => DeliverKeeps(name, latency, s, s');
    case Fire =>
    case Begin(writes) =>
      if s.cached.Some? {
        BeginKeeps(name, latency, s, writes, s');
      }
    case Finish =>
  }

  lemma {:induction false} RunKeeps(name: string, latency: nat, run: seq<State>, i: nat)
    requires name != IDENTITY && name != ""
    requires IsRun(name, latency, run) && i < |run|
    ensures Invariant(name, latency, run[i])
  {
    if i > 0 {
      RunKeeps(name, latency, run, i - 1);
      assert Next(name, latency, run[i - 1], run[i - 1 + 1]);
      var step :| NextStep(name, latency, run[i - 1], step, run[i]);
      StepKeeps(name, latency, run[i - 1], step, run[i]);
    }
  }

  /**
   In every state of every run, an existing lease is queued, or a timer or the reconciliation
   in progress will look at it no later than its next state change plus the time a
   reconciliation takes, or an event is still under way that passes the filter or ends the lease.
   */
  lemma NeverSleepsThroughChange(name: string, latency: nat, run: seq<State>, i: nat)
    requires name != IDENTITY && name != ""
    requires IsRun(name, latency, run) && i < |run|
    ensures run[i].cached.Some? ==> Proper(run[i].cached.value)
    ensures Awake(latency, run[i])
  {
    RunKeeps(name, latency, run, i);
  }

  /** Once the cache is up to date and the controller idle, a timer is set for the next change, or a retry is queued. */
  lemma IdleMeansTimer(name: string, latency: nat, run: seq<State>, i: nat)
    requires name != IDENTITY && name != ""
    requires IsRun(name, latency, run) && i < |run|
    requires run[i].inflight == [] && run[i].busy.None? && !run[i].queued && run[i].cached.Some?
    ensures Proper(run[i].cached.value) && run[i].timer.Some?
    ensures run[i].timer.value <= NextChange(run[i].cached.value, run[i].now) + latency
  {
    RunKeeps(name, latency, run, i);
  }
}
