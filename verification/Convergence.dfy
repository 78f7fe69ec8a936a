/**
 With fixed leases and a webhook that answers, resyncs, drain acknowledgements and assignments
 bring every object of the ring to the shard of its key, in a bounded number of steps. If every
 step may read the leases in another order, this holds exactly for objects whose position on the
 ring is not contested.

 The state holds the objects in selected namespaces, main and controlled ones alike, with their
 real labels. Every step may read the clock at another time.
 */
module Convergence {
  import opened Prelude
  import opened HashRing
  import opened Leases
  import opened RingFromLeases
  import opened Keys
  import opened Resources
  import opened JsonPatch
  import opened Webhook
  import opened Resync
  import opened ShardController

  /** The leases do not change; unless `fixedOrder`, every reading may list them in another order. */
  datatype Setup = Setup(hash: HashFunc, ring: ControllerRing, leases: seq<Lease>, fixedOrder: bool)

  ghost predicate Reads(u: Setup, list: seq<Lease>)
  {
    SameLeases(u.leases, list) && (u.fixedOrder ==> list == u.leases)
  }

  ghost predicate Available(leases: seq<Lease>, shard: string)
  {
    exists l :: l in leases && Held(l) && l.name == shard
  }

  datatype Object = Object(visit: Visit, meta: ObjectMeta)

  type State = seq<Object>

  /** The object belongs to a resource that the ring lists one way, and its drain label, if any, is the sharder's. */
  predicate Belongs(u: Setup, o: Object)
  {
    && o.visit in Visits(u.ring) && ListedOneWay(u.ring, o.visit.resource)
    && (HasLabel(o.meta.labels, LabelDrain(u.ring.name)) ==> LabelOf(o.meta.labels, LabelDrain(u.ring.name)) == "true")
  }

  predicate AllBelong(u: Setup, s: State)
  {
    forall i :: 0 <= i < |s| ==> Belongs(u, s[i])
  }

  /**
   All readings of the leases put the object on the same shard: there is one order only, or its
   position is not contested.
   */
  ghost predicate Steady(u: Setup, o: Object)
  {
    u.fixedOrder || UncontestedObject(u.hash, u.leases, KeyFuncOfVisit(o.visit), o.meta)
  }

  ghost predicate AllSteady(u: Setup, s: State)
  {
    forall i :: 0 <= i < |s| ==> Steady(u, s[i])
  }

  /** The shard that the object should be on; empty if it has no key. */
  function Desired(u: Setup, o: Object): (shard: string)
  {
    Choice(u.hash, u.leases, 0, KeyFuncOfVisit(o.visit), o.meta)
  }

  function Current(u: Setup, o: Object): (shard: string)
  {
    LabelOf(o.meta.labels, LabelShard(u.ring.name))
  }

  predicate Draining(u: Setup, o: Object)
  {
    HasLabel(o.meta.labels, LabelDrain(u.ring.name))
  }

  function WithLabels(o: Object, labels: Labels): (r: Object)
  {
    o.(meta := o.meta.(labels := labels))
  }

  // ------------------------------------------------------------------ steps

  /** A write to the object, including its admission with some reading of the leases; it may be rejected. */
  function Written(u: Setup, o: Object, labels: Labels, list: seq<Lease>, t: int): (r: Object)
  {
    match AdmitWrite(u.hash, u.ring, o.meta.(labels := labels), o.visit.resource, Reached(true, Some(list), t))
    case None => o
    case Some(admitted) => WithLabels(o, admitted)
  }

  datatype Step =
    | ResyncObject(list: seq<Lease>, t: int)
    | AcknowledgeDrain
    | UpdateObject

  /** The object after a step; admission reads the leases as `list` at time t. */
  ghost predicate ObjectStep(u: Setup, o: Object, step: Step, list: seq<Lease>, t: int, o': Object)
  {
    && Reads(u, list)
    && match step
       case ResyncObject(known, at) =>
         && Reads(u, known)
         && var r := WorkItemFor(u.hash, u.ring, known, at, o.visit.resource, o.visit.controlled, o.meta);
            && r.Ok? && r.value.Some?
            && var patched := Executed(u.ring, r.value.value, o.meta);
               patched.Some? && o' == Written(u, o, patched.value, list, t)
       // only main objects are drained, and only available shards respond
       case AcknowledgeDrain =>
         && !o.visit.controlled && o.meta.labels.Some? && Available(u.leases, Current(u, o))
         && RespondToLabels(o.meta.labels.value, u.ring.name, Current(u, o)) == Acknowledge
         && var labels := WithoutLabels(o.meta.labels, {LabelShard(u.ring.name), LabelDrain(u.ring.name)});
            o' == Written(u, o, labels, list, t)
       // a write by somebody else that leaves the labels to the webhook
       case UpdateObject =>
         o' == Written(u, o, o.meta.labels, list, t)
  }

  /** Some step changes the object. */
  ghost predicate Changes(u: Setup, o: Object, o': Object)
  {
    o' != o && exists step, list, t :: ObjectStep(u, o, step, list, t, o')
  }

  /** A resync of the object, or its shard's acknowledgement, changes it. */
  ghost predicate Pushes(u: Setup, o: Object, o': Object)
  {
    o' != o && exists step: Step, list, t :: !step.UpdateObject? && ObjectStep(u, o, step, list, t, o')
  }

  /** A step that changes one object. */
  ghost predicate Effective(u: Setup, s: State, s': State)
  {
    exists i: nat, o' :: i < |s| && Changes(u, s[i], o') && s' == s[i := o']
  }

  /** A step by the sharder or by a shard, not by an outsider, that changes one object. */
  ghost predicate Pushed(u: Setup, s: State, s': State)
  {
    exists i: nat, o' :: i < |s| && Pushes(u, s[i], o') && s' == s[i := o']
  }

  lemma PushedEffective(u: Setup, s: State, s': State)
    requires Pushed(u, s, s')
    ensures Effective(u, s, s')
  {
    var i: nat, o' :| i < |s| && Pushes(u, s[i], o') && s' == s[i := o'];
    assert Changes(u, s[i], o');
  }

  // ------------------------------------------------------------------ measure

  /** How many steps an object is away from where it should be, at most. */
  ghost function Weight(u: Setup, o: Object): (w: nat)
    ensures w <= 2
  {
    var desired, current, draining := Desired(u, o), Current(u, o), Draining(u, o);
    if desired == "" then 0
    else if o.visit.controlled then (if current == desired then 0 else 1)
    else if current == desired then (if draining then 1 else 0)
    else if current == "" then (if draining then 2 else 1)
    else if Available(u.leases, current) && !draining then 2
    else 1
  }

  ghost function Measure(u: Setup, s: State): (m: nat)
    ensures m <= 2 * |s|
  {
    if s == [] then 0 else Weight(u, s[0]) + Measure(u, s[1..])
  }

  /** The object is on the shard of its key and, if it is a main object, does not wait to be drained. */
  ghost predicate Settled(u: Setup, o: Object)
  {
    Desired(u, o) != "" ==> Current(u, o) == Desired(u, o) && (o.visit.controlled || !Draining(u, o))
  }

  ghost predicate AllSettled(u: Setup, s: State)
  {
    forall i :: 0 <= i < |s| ==> Settled(u, s[i])
  }

  lemma WeightZeroIff(u: Setup, o: Object)
    ensures Weight(u, o) == 0 <==> Settled(u, o)
  {
  }

  lemma {:induction false} MeasureUpdate(u: Setup, s: State, i: nat, o: Object)
    requires i < |s|
    ensures Measure(u, s[i := o]) == Measure(u, s) - Weight(u, s[i]) + Weight(u, o)
  {
    if i > 0 {
      MeasureUpdate(u, s[1..], i - 1, o);
      assert s[i := o][1..] == s[1..][i - 1 := o];
    }
  }

  lemma {:induction false} MeasureZeroIff(u: Setup, s: State)
    ensures Measure(u, s) == 0 <==> AllSettled(u, s)
  {
    if s != [] {
      MeasureZeroIff(u, s[1..]);
      WeightZeroIff(u, s[0]);
      assert s == [s[0]] + s[1..];
      if AllSettled(u, s) {
        assert Settled(u, s[0]);
        forall i | 0 <= i < |s[1..]| ensures Settled(u, s[1..][i]) {
          assert s[1..][i] == s[i + 1];
        }
      }
    }
  }

  // ------------------------------------------------------------------ one object

  lemma LookupAvailable(u: Setup, list: seq<Lease>, t: int, shard: string)
    requires Reads(u, list)
    ensures ShardByID(ShardsOf(list, t), shard).state.IsAvailable() ==> Available(u.leases, shard)
  {
    LookupLease(list, t, shard);
    if l :| l in list && l.name == shard && ShardByID(ShardsOf(list, t), shard) == ToShard(l, t) {
      AvailableIffHeld(l, t);
    }
  }

  /** The choice does not depend on the labels, on the order of the leases or on the time. */
  lemma DesiredStable(u: Setup, o: Object, labels: Labels, list: seq<Lease>, t: int)
    requires Steady(u, o) && Reads(u, list)
    ensures Choice(u.hash, list, t, KeyFuncOfVisit(o.visit), o.meta.(labels := labels)) == Desired(u, o)
    ensures Desired(u, WithLabels(o, labels)) == Desired(u, o) && Steady(u, WithLabels(o, labels))
  {
    KeyIgnoresLabels(KeyFuncOfVisit(o.visit), o.meta, labels);
    if u.fixedOrder {
      ClockIndependent(u.leases, 0, t);
    } else {
      ReorderedChoice(u.hash, KeyFuncOfVisit(o.visit), o.meta, u.leases, list, 0, t);
    }
  }

  /** What a write does to the labels that matter, if the object has a place on the ring. */
  lemma WrittenLabels(u: Setup, o: Object, labels: Labels, list: seq<Lease>, t: int)
    requires Belongs(u, o) && Steady(u, o) && Reads(u, list) && Desired(u, o) != ""
    ensures var o' := Written(u, o, labels, list, t);
            && o'.visit == o.visit && Steady(u, o') && Desired(u, o') == Desired(u, o)
            && (Draining(u, o') <==> HasLabel(labels, LabelDrain(u.ring.name)))
            && LabelOf(o'.meta.labels, LabelDrain(u.ring.name)) == LabelOf(labels, LabelDrain(u.ring.name))
            && (HasLabel(labels, LabelShard(u.ring.name)) ==> o' == WithLabels(o, labels))
            && (!HasLabel(labels, LabelShard(u.ring.name)) ==> Current(u, o') == Desired(u, o))
  {
    LabelsDistinct(u.ring.name, u.ring.name);
    SameKeyFunc(u.ring, o.visit);
    DesiredStable(u, o, labels, list, t);
    var o' := Written(u, o, labels, list, t);
    DesiredStable(u, o, o'.meta.labels, list, t);
    if SelectedByWebhook(u.ring, labels) {
      AdmissionEffect(u.hash, u.ring, o.meta.(labels := labels), o.visit.resource, list, t);
    }
  }

  /** Nothing happens to an object without a place on the ring; even the acknowledgement of its drain is rejected. */
  lemma NoPlaceNoChange(u: Setup, o: Object, step: Step, list: seq<Lease>, t: int, o': Object)
    requires Belongs(u, o) && Steady(u, o) && Desired(u, o) == "" && ObjectStep(u, o, step, list, t, o')
    ensures o' == o
  {
    SameKeyFunc(u.ring, o.visit);
    match step
    case ResyncObject(known, at) =>
      ResyncDecision(u, o, known, at);
    case AcknowledgeDrain =>
      var labels := WithoutLabels(o.meta.labels, {LabelShard(u.ring.name), LabelDrain(u.ring.name)});
      assert SelectedByWebhook(u.ring, labels);
      KeyIgnoresLabels(KeyFuncOfVisit(o.visit), o.meta, labels);
      UncontrolledIff(o.meta);
      if KeyBy(KeyFuncOfVisit(o.visit), o.meta).Ok? {
        ShardForAvailable(u.hash, u.leases, 0, KeyBy(KeyFuncOfVisit(o.visit), o.meta).value);
      }
    case UpdateObject =>
      DesiredStable(u, o, o.meta.labels, list, t);
      AdmissionEffect(u.hash, u.ring, o.meta, o.visit.resource, list, t);
  }

  /** What a resync decides about an object, in terms of the labels that matter. */
  lemma ResyncDecision(u: Setup, o: Object, list: seq<Lease>, t: int)
    requires Steady(u, o) && Reads(u, list)
    ensures var r := WorkItemFor(u.hash, u.ring, list, t, o.visit.resource, o.visit.controlled, o.meta);
            && (r.Ok? && r.value.Some? <==> Desired(u, o) != "" && Desired(u, o) != Current(u, o))
            && (r.Ok? && r.value.Some? ==>
                  (r.value.value.drain ==>
                    Current(u, o) != "" && !o.visit.controlled && Available(u.leases, Current(u, o))))
  {
    DesiredStable(u, o, o.meta.labels, list, t);
    LookupAvailable(u, list, t, Current(u, o));
  }

  /** Asking for a drain that was asked for already changes nothing. */
  lemma DrainTwice(u: Setup, o: Object)
    requires Belongs(u, o) && Draining(u, o)
    ensures WithLabels(o, PatchedLabels(u.ring, true, o.meta.labels)) == o
  {
    var key := LabelDrain(u.ring.name);
    assert o.meta.labels.value[key := "true"] == o.meta.labels.value;
  }

  lemma ResyncLowers(u: Setup, o: Object, known: seq<Lease>, at: int, list: seq<Lease>, t: int, o': Object)
    requires Desired(u, o) != ""
    requires Belongs(u, o) && Steady(u, o) && ObjectStep(u, o, ResyncObject(known, at), list, t, o') && o' != o
    ensures Belongs(u, o') && Steady(u, o') && Weight(u, o') < Weight(u, o)
  {
    LabelsDistinct(u.ring.name, u.ring.name);
    ResyncDecision(u, o, known, at);
    var drain := WorkItemFor(u.hash, u.ring, known, at, o.visit.resource, o.visit.controlled, o.meta).value.value.drain;
    var labels := PatchedLabels(u.ring, drain, o.meta.labels);
    WrittenLabels(u, o, labels, list, t);
    if drain {
      assert LabelOf(labels, LabelShard(u.ring.name)) == Current(u, o);
      if Draining(u, o) {
        DrainTwice(u, o);
      }
    } else {
      assert !HasLabel(labels, LabelShard(u.ring.name)) && !HasLabel(labels, LabelDrain(u.ring.name));
    }
  }

  lemma AcknowledgeLowers(u: Setup, o: Object, list: seq<Lease>, t: int, o': Object)
    requires Desired(u, o) != ""
    requires Belongs(u, o) && Steady(u, o) && ObjectStep(u, o, AcknowledgeDrain, list, t, o')
    ensures Belongs(u, o') && Steady(u, o') && Weight(u, o') < Weight(u, o)
  {
    var labels := WithoutLabels(o.meta.labels, {LabelShard(u.ring.name), LabelDrain(u.ring.name)});
    WrittenLabels(u, o, labels, list, t);
    assert !HasLabel(labels, LabelShard(u.ring.name)) && !HasLabel(labels, LabelDrain(u.ring.name));
    ResponseIff(o.meta.labels.value, u.ring.name, Current(u, o));
    assert Draining(u, o);
  }

  lemma UpdateLowers(u: Setup, o: Object, list: seq<Lease>, t: int, o': Object)
    requires Desired(u, o) != ""
    requires Belongs(u, o) && Steady(u, o) && ObjectStep(u, o, UpdateObject, list, t, o') && o' != o
    ensures Belongs(u, o') && Steady(u, o') && Weight(u, o') < Weight(u, o)
  {
    WrittenLabels(u, o, o.meta.labels, list, t);
  }

  // ------------------------------------------------------------------ whole states

  lemma ChangeLowers(u: Setup, o: Object, o': Object)
    requires Belongs(u, o) && Steady(u, o) && Changes(u, o, o')
    ensures Belongs(u, o') && Steady(u, o') && Weight(u, o') < Weight(u, o)
  {
    var step, list, t :| ObjectStep(u, o, step, list, t, o');
    if Desired(u, o) == "" {
      NoPlaceNoChange(u, o, step, list, t, o');
    }
    match step
    case ResyncObject(known, at) => ResyncLowers(u, o, known, at, list, t, o');
    case AcknowledgeDrain => AcknowledgeLowers(u, o, list, t, o');
    case UpdateObject => UpdateLowers(u, o, list, t, o');
  }

  /** All labels but the two of the ring are the same. */
  ghost predicate OthersKept(u: Setup, a: Labels, b: Labels)
  {
    forall k :: k != LabelShard(u.ring.name) && k != LabelDrain(u.ring.name) ==>
      HasLabel(a, k) == HasLabel(b, k) && LabelOf(a, k) == LabelOf(b, k)
  }

  lemma WrittenKeepsOthers(u: Setup, o: Object, labels: Labels, list: seq<Lease>, t: int)
    requires Belongs(u, o) && OthersKept(u, o.meta.labels, labels)
    ensures OthersKept(u, o.meta.labels, Written(u, o, labels, list, t).meta.labels)
  {
    SameKeyFunc(u.ring, o.visit);
    AdmissionEffect(u.hash, u.ring, o.meta.(labels := labels), o.visit.resource, list, t);
  }

  /** No step, whether it changes anything or not, touches a label that is not the ring's, or anything but labels. */
  lemma StepKeepsOthers(u: Setup, o: Object, step: Step, list: seq<Lease>, t: int, o': Object)
    requires Belongs(u, o) && ObjectStep(u, o, step, list, t, o')
    ensures OthersKept(u, o.meta.labels, o'.meta.labels) && o' == WithLabels(o, o'.meta.labels)
  {
    match step
    case ResyncObject(known, at) =>
      var item := WorkItemFor(u.hash, u.ring, known, at, o.visit.resource, o.visit.controlled, o.meta).value.value;
      var labels := PatchedLabels(u.ring, item.drain, o.meta.labels);
      forall k ensures k != LabelShard(u.ring.name) && k != LabelDrain(u.ring.name) ==>
                         HasLabel(o.meta.labels, k) == HasLabel(labels, k)
                         && LabelOf(o.meta.labels, k) == LabelOf(labels, k) {
        PatchEffect(u.ring, item.drain, o.meta.labels, k);
      }
      WrittenKeepsOthers(u, o, labels, list, t);
    case AcknowledgeDrain =>
      var labels := WithoutLabels(o.meta.labels, {LabelShard(u.ring.name), LabelDrain(u.ring.name)});
      WrittenKeepsOthers(u, o, labels, list, t);
    case UpdateObject =>
      WrittenKeepsOthers(u, o, o.meta.labels, list, t);
  }

  /** Every effective step strictly lowers the measure. */
  lemma EffectiveLowers(u: Setup, s: State, s': State)
    requires AllBelong(u, s) && AllSteady(u, s) && Effective(u, s, s')
    ensures AllBelong(u, s') && AllSteady(u, s') && Measure(u, s') < Measure(u, s)
  {
    var i: nat, o' :| i < |s| && Changes(u, s[i], o') && s' == s[i := o'];
    ChangeLowers(u, s[i], o');
    MeasureUpdate(u, s, i, o');
  }

  /** An object that is not settled can be brought closer: by a resync, or by its shard's acknowledgement. */
  lemma UnsettledMoves(u: Setup, o: Object) returns (o': Object)
    requires Belongs(u, o) && Steady(u, o) && !Settled(u, o)
    ensures Pushes(u, o, o')
  {
    var step: Step;
    LabelsDistinct(u.ring.name, u.ring.name);
    assert Reads(u, u.leases);
    if Current(u, o) != "" && !o.visit.controlled && Draining(u, o) && Available(u.leases, Current(u, o)) {
      step := AcknowledgeDrain;
      var labels := WithoutLabels(o.meta.labels, {LabelShard(u.ring.name), LabelDrain(u.ring.name)});
      o' := Written(u, o, labels, u.leases, 0);
      WrittenLabels(u, o, labels, u.leases, 0);
      assert !HasLabel(labels, LabelDrain(u.ring.name));
    } else {
      DesiredAvailable(u, o);
      ResyncDecision(u, o, u.leases, 0);
      step := ResyncObject(u.leases, 0);
      var item := WorkItemFor(u.hash, u.ring, u.leases, 0, o.visit.resource, o.visit.controlled, o.meta).value.value;
      var drain := item.drain;
      var labels := PatchedLabels(u.ring, drain, o.meta.labels);
      o' := Written(u, o, labels, u.leases, 0);
      WrittenLabels(u, o, labels, u.leases, 0);
      if drain {
        assert HasLabel(labels, LabelDrain(u.ring.name));
      } else {
        assert !HasLabel(labels, LabelShard(u.ring.name));
      }
    }
    assert ObjectStep(u, o, step, u.leases, 0, o');
  }

  lemma DesiredAvailable(u: Setup, o: Object)
    ensures Desired(u, o) != "" ==> Available(u.leases, Desired(u, o))
    ensures !Available(u.leases, "")
  {
    var f := KeyFuncOfVisit(o.visit);
    if Desired(u, o) != "" {
      ShardForAvailable(u.hash, u.leases, 0, KeyBy(f, o.meta).value);
    }
  }

  /** The sharder or a shard can still change something; writes by others do not count. */
  ghost predicate CanContinue(u: Setup, s: State)
  {
    exists s' :: Pushed(u, s, s')
  }

  /** As long as some object is not settled, a resync or an acknowledgement can change an object. */
  lemma Progress(u: Setup, s: State)
    requires AllBelong(u, s) && AllSteady(u, s) && Measure(u, s) > 0
    ensures CanContinue(u, s)
  {
    MeasureZeroIff(u, s);
    var i :| 0 <= i < |s| && !Settled(u, s[i]);
    var o' := UnsettledMoves(u, s[i]);
    var s' := s[i := o'];
    assert Pushed(u, s, s');
  }

  ghost predicate IsEffectiveRun(u: Setup, run: seq<State>)
  {
    run != [] && forall i :: 0 <= i < |run| - 1 ==> Effective(u, run[i], run[i + 1])
  }

  lemma {:induction false} RunLowers(u: Setup, run: seq<State>, n: nat)
    requires IsEffectiveRun(u, run) && AllBelong(u, run[0]) && AllSteady(u, run[0]) && n < |run|
    ensures AllBelong(u, run[n]) && AllSteady(u, run[n]) && Measure(u, run[n]) + n <= Measure(u, run[0])
  {
    if n > 0 {
      RunLowers(u, run, n - 1);
      assert Effective(u, run[n - 1], run[n - 1 + 1]);
      EffectiveLowers(u, run[n - 1], run[n]);
    }
  }

  /**
   Convergence: a run of effective steps is never longer than twice the number of objects, and
   the sharder or a shard can continue it exactly as long as some object is not settled.
   */
  lemma Converges(u: Setup, run: seq<State>)
    requires IsEffectiveRun(u, run) && AllBelong(u, run[0]) && AllSteady(u, run[0])
    ensures |run| - 1 <= Measure(u, run[0]) <= 2 * |run[0]|
    ensures CanContinue(u, run[|run| - 1]) <==> !AllSettled(u, run[|run| - 1])
  {
    var last := run[|run| - 1];
    RunLowers(u, run, |run| - 1);
    MeasureZeroIff(u, last);
    if Measure(u, last) > 0 {
      Progress(u, last);
    }
    if CanContinue(u, last) {
      var s' :| Pushed(u, last, s');
      PushedEffective(u, last, s');
      EffectiveLowers(u, last, s');
    }
  }

  /** A resync finds no work for a settled object. */
  lemma SettledMeansNoWork(u: Setup, o: Object, list: seq<Lease>, t: int)
    requires Steady(u, o) && Settled(u, o) && Reads(u, list)
    ensures var r := WorkItemFor(u.hash, u.ring, list, t, o.visit.resource, o.visit.controlled, o.meta);
            r.Err? || r == Ok(None)
  {
    ResyncDecision(u, o, list, t);
  }

  // ------------------------------------------------------------------ contested objects

  /** The same ring, with its leases always listed in the given order. */
  function Fixed(u: Setup, list: seq<Lease>): (v: Setup)
  {
    u.(leases := list, fixedOrder := true)
  }

  /** What one order of the leases allows is allowed when the order varies. */
  lemma FixedPushes(u: Setup, list: seq<Lease>, o: Object, o': Object)
    requires !u.fixedOrder && SameLeases(u.leases, list) && Pushes(Fixed(u, list), o, o')
    ensures Pushes(u, o, o')
  {
    var v := Fixed(u, list);
    var step: Step, l, t :| !step.UpdateObject? && ObjectStep(v, o, step, l, t, o');
    assert ObjectStep(u, o, step, l, t, o');
  }

  /** Some order of the leases puts a contested object elsewhere. */
  lemma OtherChoice(u: Setup, o: Object) returns (list: seq<Lease>)
    requires !Steady(u, o)
    ensures SameLeases(u.leases, list)
    ensures Desired(Fixed(u, list), o) != "" && Desired(Fixed(u, list), o) != Current(u, o)
  {
    var f := KeyFuncOfVisit(o.visit);
    var p, q := TwoChoices(u.hash, u.leases, f, o.meta);
    SameMultisetSameLeases(u.leases, p);
    SameMultisetSameLeases(u.leases, q);
    list := if Choice(u.hash, p, 0, f, o.meta) == Current(u, o) then q else p;
  }

  /** A contested object never comes to rest. */
  lemma ContestedMoves(u: Setup, o: Object) returns (o': Object)
    requires Belongs(u, o) && !Steady(u, o)
    ensures Pushes(u, o, o') && Belongs(u, o') && !Steady(u, o')
  {
    var list := OtherChoice(u, o);
    var v := Fixed(u, list);
    o' := UnsettledMoves(v, o);
    ChangeLowers(v, o, o');
    FixedPushes(u, list, o, o');
    KeyIgnoresLabels(KeyFuncOfVisit(o.visit), o.meta, o'.meta.labels);
  }

  /** A run of resyncs and acknowledgements alone. */
  ghost predicate IsPushedRun(u: Setup, run: seq<State>)
  {
    run != [] && forall i :: 0 <= i < |run| - 1 ==> Pushed(u, run[i], run[i + 1])
  }

  lemma PushedRunEffective(u: Setup, run: seq<State>)
    requires IsPushedRun(u, run)
    ensures IsEffectiveRun(u, run)
  {
    forall i | 0 <= i < |run| - 1 ensures Effective(u, run[i], run[i + 1]) {
      PushedEffective(u, run[i], run[i + 1]);
    }
  }

  /** With a contested object the sharder and the shards have runs of every length. */
  lemma {:induction false} EndlessRuns(u: Setup, s: State, i: nat, n: nat) returns (run: seq<State>)
    requires AllBelong(u, s) && i < |s| && !Steady(u, s[i])
    ensures IsPushedRun(u, run) && run[0] == s && |run| == n + 1
    decreases n
  {
    if n == 0 {
      run := [s];
    } else {
      var o' := ContestedMoves(u, s[i]);
      var s' := s[i := o'];
      assert Pushed(u, s, s');
      var rest := EndlessRuns(u, s', i, n - 1);
      run := [s] + rest;
    }
  }

  /** No effective run from the state has more than n steps. */
  ghost predicate BoundedBy(u: Setup, s: State, n: nat)
  {
    forall run :: IsEffectiveRun(u, run) && run[0] == s ==> |run| - 1 <= n
  }

  /** No run of resyncs and acknowledgements from the state has more than n steps. */
  ghost predicate PushesBoundedBy(u: Setup, s: State, n: nat)
  {
    forall run :: IsPushedRun(u, run) && run[0] == s ==> |run| - 1 <= n
  }

  /**
   The effective runs from a state are bounded exactly if the order of the leases is fixed or no
   object of the state has a contested position on the ring. If one has, the sharder and the
   shards can go on without end all by themselves.
   */
  lemma ConvergesIff(u: Setup, s: State)
    requires AllBelong(u, s)
    ensures (exists n: nat :: BoundedBy(u, s, n)) <==> AllSteady(u, s)
    ensures (exists n: nat :: PushesBoundedBy(u, s, n)) <==> AllSteady(u, s)
  {
    if AllSteady(u, s) {
      SteadyBounded(u, s);
    } else {
      var i :| 0 <= i < |s| && !Steady(u, s[i]);
      forall n: nat ensures !BoundedBy(u, s, n) && !PushesBoundedBy(u, s, n) {
        var run := EndlessRuns(u, s, i, n + 1);
        PushedRunEffective(u, run);
      }
    }
  }

  lemma SteadyBounded(u: Setup, s: State)
    requires AllBelong(u, s) && AllSteady(u, s)
    ensures BoundedBy(u, s, 2 * |s|) && PushesBoundedBy(u, s, 2 * |s|)
  {
    forall run | IsEffectiveRun(u, run) && run[0] == s ensures |run| - 1 <= 2 * |s| {
      Converges(u, run);
    }
    forall run | IsPushedRun(u, run) && run[0] == s ensures |run| - 1 <= 2 * |s| {
      PushedRunEffective(u, run);
      Converges(u, run);
    }
  }
}
