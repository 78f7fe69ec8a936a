/**
 The sharder's reconciler for shard leases: it keeps the state label, acquires leases that
 have become uncertain, deletes orphaned ones, and decides when to look again.
 */
module ShardLease {
  import opened Prelude
  import opened Leases
  import opened LeaseArithmetic

  const IDENTITY: string := "shardlease-controller"

  datatype Lookup<+T> = Found(value: T) | NotFound | LookupFailed

  /** The lease as the API server stores it; every write increments the version. */
  datatype Stored = Stored(lease: Option<Lease>, version: nat)

  /** The lease as read from the cache, with the version it was read at. */
  datatype CachedLease = CachedLease(lease: Lease, version: nat)

  /** An error makes the workqueue retry; a delay of zero means the lease is forgotten. */
  datatype Verdict = Failed | Done(requeueAfter: int)

  function TakeOver(lease: Lease, now: int): (l: Lease)
  {
    var transitions := if lease.transitions.Some? then lease.transitions.value else 0;
    lease.(holder := Some(IDENTITY),
           durationSeconds := Some(TakeoverSeconds(ToTimes(lease, now).leaseDuration)),
           acquireTime := Some(now),
           renewTime := Some(now),
           transitions := Some(Wrap32(transitions + 1)))
  }

  function WithStateLabel(lease: Lease, s: ShardState): (l: Lease)
  {
    lease.(stateLabel := s.ToString())
  }

  predicate NeedsLabel(lease: Lease, now: int)
  {
    StateFromString(lease.stateLabel) != ToState(lease, now)
  }

  /** What one reconciliation of a shard lease of an existing ring does. */
  function Act(stored: Stored, cached: CachedLease, now: int): (r: (Stored, Verdict))
  {
    var state, times := ToState(cached.lease, now), ToTimes(cached.lease, now);
    var current := stored.lease.Some? && stored.version == cached.version;
    if NeedsLabel(cached.lease, now) && !current then (stored, Failed)
    else
      var labelled :=
        if NeedsLabel(cached.lease, now)
        then Stored(Some(WithStateLabel(stored.lease.value, state)), stored.version + 1)
        else stored;
      match state
      case Ready => (labelled, Done(times.toExpired))
      case Expired => (labelled, Done(times.toUncertain))
      case Uncertain =>
        if !current then (labelled, Failed)
        else (Stored(Some(TakeOver(labelled.lease.value, now)), labelled.version + 1), Done(times.leaseDuration))
      case Dead => (labelled, Done(times.toOrphaned))
      case Orphaned => if stored.lease.Some? then (Stored(None, labelled.version + 1), Done(0)) else (labelled, Failed)
      case Unknown => (labelled, Done(0))
  }

  /** A cache entry that is not outdated shows what is stored. */
  predicate CacheConsistent(stored: Stored, cached: CachedLease)
  {
    stored.version == cached.version && stored.lease.Some? ==> stored.lease.value == cached.lease
  }

  class LeaseObject {
    var lease: Option<Lease>
    var version: nat

    method Reconcile(cached: Lookup<CachedLease>, ring: Lookup<()>, now: int) returns (v: Verdict)
      requires cached.Found? ==> CacheConsistent(Stored(lease, version), cached.value)
      modifies this
      ensures cached.LookupFailed? ==> v == Failed
      ensures cached.NotFound? ==> v == Done(0)
      ensures cached.Found? && cached.value.lease.ringLabel == "" ==> v == Done(0)
      ensures cached.Found? && cached.value.lease.ringLabel != "" && ring.NotFound? ==> v == Done(0)
      ensures cached.Found? && cached.value.lease.ringLabel != "" && ring.LookupFailed? ==> v == Failed
      ensures cached.Found? && cached.value.lease.ringLabel != "" && ring.Found? ==>
                (Stored(lease, version), v) == Act(old(Stored(lease, version)), cached.value, now)
      ensures !(cached.Found? && cached.value.lease.ringLabel != "" && ring.Found?) ==> unchanged(this)
    {
      if cached.LookupFailed? { return Failed; }
      if cached.NotFound? { return Done(0); }
      var local, localVersion := cached.value.lease, cached.value.version;
      if local.ringLabel == "" { return Done(0); }
      if ring.LookupFailed? { return Failed; }
      if ring.NotFound? { return Done(0); }

      var previousState := StateFromString(local.stateLabel);
      var times := ToTimes(local, now);
      var state := StateFromTimes(local, times);
      if previousState != state {
        // a patch with optimistic lock
        if lease.None? || version != localVersion { return Failed; }
        local := local.(stateLabel := state.ToString());
        lease, version := Some(local), version + 1;
        localVersion := version;
      }

      var requeueAfter := 0;
      match state {
        case Ready => requeueAfter := times.toExpired;
        case Expired => requeueAfter := times.toUncertain;
        case Uncertain =>
          var transitions := 0;
          if local.transitions.Some? {
            transitions := local.transitions.value;
          }
          local := local.(holder := Some(IDENTITY));
          local := local.(durationSeconds := Some(TakeoverSeconds(times.leaseDuration)));
          local := local.(acquireTime := Some(now));
          local := local.(renewTime := Some(now));
          local := local.(transitions := Some(Wrap32(transitions + 1)));
          // an update with optimistic lock
          if lease.None? || version != localVersion { return Failed; }
          lease, version := Some(local), version + 1;
          requeueAfter := times.leaseDuration;
        case Dead => requeueAfter := times.toOrphaned;
        case Orphaned =>
          // a delete without preconditions
          if lease.None? { return Failed; }
          lease, version := None, version + 1;
          return Done(0);
        case Unknown => return Done(0);
      }
      return Done(requeueAfter);
    }
  }

  // ------------------------------------------------------------------ one reconciliation

  /** A reconciliation that reads the stored lease itself. */
  function Fresh(lease: Lease, now: int): (r: (Stored, Verdict))
  {
    Act(Stored(Some(lease), 0), CachedLease(lease, 0), now)
  }

  /** Fields that only the holder of a lease and the sharder's acquisition write. */
  predicate SameSpec(a: Lease, b: Lease)
  {
    a.(stateLabel := b.stateLabel) == b
  }

  /**
   The sharder acquires a lease exactly when it is uncertain and deletes it exactly when it is
   orphaned; in every other state it writes nothing but the label, which it leaves correct.
   */
  lemma ReconcileEffect(lease: Lease, now: int)
    ensures var after := Fresh(lease, now).0.lease;
            && (after.None? <==> ToState(lease, now) == Orphaned)
            && (after.Some? ==> StateFromString(after.value.stateLabel) == ToState(lease, now))
            && (after.Some? && ToState(lease, now) == Uncertain ==> SameSpec(TakeOver(lease, now), after.value))
            && (after.Some? && ToState(lease, now) != Uncertain ==> SameSpec(lease, after.value))
    ensures Fresh(lease, now).1.Done?
  {
  }

  /** How often a reconciliation writes: once for a wrong label, and once more to acquire or delete the lease. */
  lemma WritesIff(lease: Lease, now: int)
    ensures var relabelled := if StateFromString(lease.stateLabel) == ToState(lease, now) then 0 else 1;
            var act := if ToState(lease, now) == Uncertain || ToState(lease, now) == Orphaned then 1 else 0;
            Fresh(lease, now).0.version == relabelled + act
  {
  }

  /**
   A reconciliation that has seen an outdated version, or a lease that is gone, writes nothing,
   except that it deletes the current lease if the outdated one was labelled orphaned and is. It
   reports an error exactly if it tried to write in vain.
   */
  lemma OutdatedReconcile(stored: Stored, cached: CachedLease, now: int)
    requires stored.lease.None? || stored.version != cached.version
    ensures var (after, verdict) := Act(stored, cached, now);
            var state, labelled := ToState(cached.lease, now), StateFromString(cached.lease.stateLabel);
            && (after != stored ==> after == Stored(None, stored.version + 1))
            && (after != stored <==> stored.lease.Some? && labelled == Orphaned == state)
            && (verdict == Failed <==>
                  labelled != state || state == Uncertain || (state == Orphaned && stored.lease.None?))
  {
  }

  /** The next state of a lease that nobody writes to. */
  function NextState(s: ShardState): (n: ShardState)
    requires s == Ready || s == Expired || s == Dead
  {
    match s
    case Ready => Expired
    case Expired => Uncertain
    case Dead => Orphaned
  }

  /**
   The delay asked for is positive and ends at the very instant at which the lease changes
   its state; until then the state stays.
   */
  lemma RequeueHitsNextState(lease: Lease, now: int)
    requires Proper(lease)
    requires ToState(lease, now) == Ready || ToState(lease, now) == Expired || ToState(lease, now) == Dead
    ensures var delay := Fresh(lease, now).1.requeueAfter;
            && Fresh(lease, now).1 == Done(delay) && delay > 0
            && ToState(lease, now + delay) == NextState(ToState(lease, now))
            && forall t :: now <= t < now + delay ==> ToState(lease, t) == ToState(lease, now)
  {
  }

  /**
   An acquired lease is looked at again after the old duration, an orphaned one is forgotten, and
   one that misses a time field is looked at again and again, though its state never changes.
   */
  lemma OtherRequeues(lease: Lease, now: int)
    ensures Proper(lease) && ToState(lease, now) == Uncertain ==> Fresh(lease, now).1 == Done(Duration(lease))
    ensures Proper(lease) && ToState(lease, now) == Orphaned ==> Fresh(lease, now).1 == Done(0)
    ensures !Complete(lease) ==> Fresh(lease, now).1 == Done(if Held(lease) then 15 * SECOND else 60 * SECOND)
  {
  }

  /**
   A lease acquired at time t is dead for twice its duration plus one minute, and orphaned,
   hence deletable, exactly from then on. The one exception is a shard that is named like the
   sharder's own identity: acquiring its lease makes it look available.
   */
  lemma TakenOverLifetime(lease: Lease, t: int, u: int)
    requires Proper(lease) && lease.durationSeconds.value < TWO_31 / 2 && lease.name != ""
    requires ToState(lease, t) == Uncertain && t <= u
    ensures TakeOver(lease, t).durationSeconds == Some(2 * lease.durationSeconds.value)
    ensures lease.transitions.Some? && 0 <= lease.transitions.value < TWO_31 - 1 ==>
              TakeOver(lease, t).transitions == Some(lease.transitions.value + 1)
    ensures lease.transitions.None? ==> TakeOver(lease, t).transitions == Some(1)
    ensures TakeOver(lease, t).acquireTime == TakeOver(lease, t).renewTime == Some(t)
    ensures TakeOver(lease, t).name == lease.name && TakeOver(lease, t).ringLabel == lease.ringLabel
    ensures !Held(TakeOver(lease, t)) <==> lease.name != IDENTITY
    ensures lease.name != IDENTITY ==>
              && (ToState(TakeOver(lease, t), u) == Dead <==> u < t + 2 * Duration(lease) + LEASE_TTL)
              && (ToState(TakeOver(lease, t), u) == Orphaned <==> u >= t + 2 * Duration(lease) + LEASE_TTL)
  {
  }

  // ------------------------------------------------------------------ whole runs

  /** A shard renews its lease, or the sharder reconciles it. */
  datatype LeaseEvent = Renew(time: int) | Reconcile(time: int)

  function Apply(lease: Option<Lease>, e: LeaseEvent): (l: Option<Lease>)
  {
    match (lease, e)
    case (None, _) => None
    // a shard that lost its lease does not come back
    case (Some(l), Renew(t)) => if Held(l) then Some(l.(renewTime := Some(t))) else lease
    case (Some(l), Reconcile(t)) => Fresh(l, t).0.lease
  }

  function ApplyAll(lease: Option<Lease>, run: seq<LeaseEvent>): (l: Option<Lease>)
    decreases run
  {
    if run == [] then lease else ApplyAll(Apply(lease, run[0]), run[1..])
  }

  predicate StillHeld(lease: Option<Lease>)
  {
    lease.Some? && Held(lease.value)
  }

  /** Every reconciliation comes less than two lease durations after the last renewal. */
  predicate RenewedInTime(last: int, duration: int, run: seq<LeaseEvent>)
    decreases run
  {
    if run == [] then true
    else match run[0]
      case Renew(t) => RenewedInTime(t, duration, run[1..])
      case Reconcile(t) => t < last + 2 * duration && RenewedInTime(last, duration, run[1..])
  }

  /**
   Over any run of renewals and reconciliations, the shard keeps its lease exactly if no
   reconciliation comes two lease durations or more after the last renewal.
   */
  lemma {:induction false} KeepsLeaseIff(lease: Lease, run: seq<LeaseEvent>)
    requires Proper(lease) && Held(lease) && lease.name != IDENTITY
    ensures StillHeld(ApplyAll(Some(lease), run)) <==> RenewedInTime(lease.renewTime.value, Duration(lease), run)
    decreases run
  {
    if run != [] {
      var after := Apply(Some(lease), run[0]);
      match run[0]
      case Renew(t) =>
        KeepsLeaseIff(after.value, run[1..]);
      case Reconcile(t) =>
        ReconcileEffect(lease, t);
        if t < lease.renewTime.value + 2 * Duration(lease) {
          KeepsLeaseIff(after.value, run[1..]);
        } else {
          LostForGood(after, run[1..]);
        }
    }
  }

  lemma {:induction false} LostForGood(lease: Option<Lease>, run: seq<LeaseEvent>)
    requires !StillHeld(lease)
    ensures !StillHeld(ApplyAll(lease, run))
    decreases run
  {
    if run != [] {
      if lease.Some? && run[0].Reconcile? {
        AvailableIffHeld(lease.value, run[0].time);
        ReconcileEffect(lease.value, run[0].time);
      }
      LostForGood(Apply(lease, run[0]), run[1..]);
    }
  }
}
