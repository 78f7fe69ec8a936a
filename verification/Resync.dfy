/** What a resync does with one listed object, and the patches by which it drains and moves objects. */
module Resync {
  import opened Prelude
  import opened HashRing
  import opened Leases
  import opened RingFromLeases
  import opened Keys
  import opened Resources
  import opened JsonPatch
  import opened Webhook

  datatype WorkItem = WorkItem(
    drain: bool,
    gr: GroupResource,
    group: string,
    version: string,
    kind: string,
    namespace: string,
    name: string,
    resourceVersion: nat,
    currentShard: string)

  datatype Decision = Nothing | Drain | Move

  /** Drain a main object from an available shard; move any other object that is not where it should be. */
  function Decide(shards: seq<Shard>, desired: string, current: string, controlled: bool): (d: Decision)
  {
    if desired == "" || desired == current then Nothing
    else if current != "" && ShardByID(shards, current).state.IsAvailable() && !controlled then Drain
    else Move
  }

  function WorkItemFor(hash: HashFunc, ring: ControllerRing, leases: seq<Lease>, now: int,
                       gr: GroupResource, controlled: bool, obj: ObjectMeta): (r: Result<Option<WorkItem>, KeyError>)
  {
    match KeyBy(if controlled then ByController else ByObject, obj)
    case Err(e) => Err(e)
    case Ok(key) =>
      if key == "" then Ok(None)
      else
        var current := LabelOf(obj.labels, LabelShard(ring.name));
        match Decide(ShardsOf(leases, now), ShardFor(hash, leases, now, key), current, controlled)
        case Nothing => Ok(None)
        case d => Ok(Some(WorkItem(d.Drain?, gr, obj.group, obj.version, obj.kind, obj.namespace, obj.name,
                                   obj.resourceVersion, current)))
  }

  // ------------------------------------------------------------------ patches

  function WithLabel(labels: Labels, key: string, value: string): (r: Labels)
  {
    Some((if labels.Some? then labels.value else map[])[key := value])
  }

  function WithoutLabels(labels: Labels, keys: set<string>): (r: Labels)
  {
    if labels.Some? then Some(labels.value - keys) else None
  }

  /** The merge patch of a drain or a movement. */
  function PatchedLabels(ring: ControllerRing, drain: bool, labels: Labels): (r: Labels)
  {
    if drain then WithLabel(labels, LabelDrain(ring.name), "true")
    else WithoutLabels(labels, {LabelShard(ring.name), LabelDrain(ring.name)})
  }

  /**
   Executing a work item against a stored object: the patch addresses the object by kind,
   namespace and name, and carries the resource version of the listed object. None means that
   the object is another one or has changed in the meantime.
   */
  function Executed(ring: ControllerRing, item: WorkItem, stored: ObjectMeta): (labels: Option<Labels>)
  {
    if item.group == stored.group && item.version == stored.version && item.kind == stored.kind
       && item.namespace == stored.namespace && item.name == stored.name
       && item.resourceVersion == stored.resourceVersion
    then Some(PatchedLabels(ring, item.drain, stored.labels))
    else None
  }

  /** What a listed object and a stored one have in common if they are the same object, whatever its version. */
  predicate SameObject(a: ObjectMeta, b: ObjectMeta)
  {
    a.group == b.group && a.version == b.version && a.kind == b.kind && a.namespace == b.namespace && a.name == b.name
  }

  /**
   A work item is executed against the very object that it was decided on, and only if that
   object was not written since it was listed.
   */
  lemma ExecutedIff(hash: HashFunc, ring: ControllerRing, leases: seq<Lease>, now: int, gr: GroupResource,
                    controlled: bool, listed: ObjectMeta, stored: ObjectMeta)
    requires WorkItemFor(hash, ring, leases, now, gr, controlled, listed).Ok?
    requires WorkItemFor(hash, ring, leases, now, gr, controlled, listed).value.Some?
    ensures var item := WorkItemFor(hash, ring, leases, now, gr, controlled, listed).value.value;
            && (Executed(ring, item, stored).Some? <==>
                  SameObject(listed, stored) && listed.resourceVersion == stored.resourceVersion)
            && item.currentShard == LabelOf(listed.labels, LabelShard(ring.name)) && item.gr == gr
  {
  }

  /** A drain sets the drain label of the ring and a movement removes its two labels; all other labels stay. */
  lemma PatchEffect(ring: ControllerRing, drain: bool, labels: Labels, k: string)
    ensures var after := PatchedLabels(ring, drain, labels);
            && (drain ==> HasLabel(after, LabelDrain(ring.name)) && LabelOf(after, LabelDrain(ring.name)) == "true")
            && (!drain ==> !HasLabel(after, LabelShard(ring.name)) && !HasLabel(after, LabelDrain(ring.name)))
            && (k != LabelDrain(ring.name) && (drain || k != LabelShard(ring.name)) ==>
                  HasLabel(after, k) == HasLabel(labels, k) && LabelOf(after, k) == LabelOf(labels, k))
  {
    LabelsDistinct(ring.name, ring.name);
  }

  /** The first lease of the list with the shard's name is held by the shard. */
  predicate FirstIsHeld(leases: seq<Lease>, shard: string)
  {
    exists i :: 0 <= i < |leases| && leases[i].name == shard && Held(leases[i])
                && forall j :: 0 <= j < i ==> leases[j].name != shard
  }

  lemma {:induction false} FirstIsHeldIff(leases: seq<Lease>, now: int, shard: string)
    ensures ShardByID(ShardsOf(leases, now), shard).state.IsAvailable() <==> FirstIsHeld(leases, shard)
  {
    if leases != [] {
      FirstIsHeldIff(leases[1..], now, shard);
      AvailableIffHeld(leases[0], now);
      assert ShardsOf(leases, now)[1..] == ShardsOf(leases[1..], now);
      assert forall i :: 0 < i < |leases| ==> leases[i] == leases[1..][i - 1];
      if leases[0].name != shard && FirstIsHeld(leases[1..], shard) {
        var i :| 0 <= i < |leases[1..]| && leases[1..][i].name == shard && Held(leases[1..][i])
              && forall j :: 0 <= j < i ==> leases[1..][j].name != shard;
        assert leases[i + 1].name == shard && Held(leases[i + 1]);
      }
    }
  }

  /**
   A resync drains exactly the main objects that belong elsewhere and whose current shard holds
   its lease; it moves the other ones that belong elsewhere at once, and controlled objects always.
   */
  lemma DecisionIff(leases: seq<Lease>, now: int, desired: string, current: string, controlled: bool)
    ensures Decide(ShardsOf(leases, now), desired, current, controlled) == Nothing
       <==> desired == "" || desired == current
    ensures Decide(ShardsOf(leases, now), desired, current, controlled) == Drain
       <==> desired != "" && desired != current && FirstIsHeld(leases, current) && !controlled
  {
    FirstIsHeldIff(leases, now, current);
  }

  // ------------------------------------------------------------------ agreement

  /** The object as the webhook lets it pass when it knows the given leases. */
  function AfterAdmission(hash: HashFunc, ring: ControllerRing, v: Visit, obj: ObjectMeta,
                          known: seq<Lease>, t: int): (o: ObjectMeta)
  {
    obj.(labels := Admitted(Handle(hash, Some(ring), Some(obj), v.resource, Some(known), t), obj.labels))
  }

  /** A resync that knows other leases than the webhook did leaves the admitted object alone. */
  predicate LeavesAlone(hash: HashFunc, ring: ControllerRing, v: Visit, obj: ObjectMeta,
                        known: seq<Lease>, t1: int, other: seq<Lease>, t2: int)
  {
    var after := AfterAdmission(hash, ring, v, obj, known, t1);
    WorkItemFor(hash, ring, other, t2, v.resource, v.controlled, after) == Ok(None)
  }

  /** The object has no key, or its key belongs to a position of the ring that only one available shard owns. */
  ghost predicate UncontestedObject(hash: HashFunc, leases: seq<Lease>, f: KeyFunc, obj: ObjectMeta)
  {
    KeyBy(f, obj).Ok? && KeyBy(f, obj).value != "" ==> UncontestedAmong(hash, leases, KeyBy(f, obj).value)
  }

  /**
   Whatever the webhook has just assigned is left alone by a resync that knows the same leases,
   in any order and at any two readings of the clock, provided that the two use the same key
   function and the object's position on the ring is not contested.
   */
  lemma WebhookAndResyncAgree(hash: HashFunc, ring: ControllerRing, v: Visit, obj: ObjectMeta,
                              known: seq<Lease>, reordered: seq<Lease>, t1: int, t2: int)
    requires v in Visits(ring) && (ListedOneWay(ring, v.resource) || !v.controlled)
    requires SameLeases(known, reordered) && UncontestedObject(hash, known, KeyFuncOfVisit(v), obj)
    requires LabelOf(obj.labels, LabelShard(ring.name)) == "" && KeyBy(KeyFuncOfVisit(v), obj).Ok?
    ensures LeavesAlone(hash, ring, v, obj, known, t1, reordered, t2)
  {
    SameKeyFunc(ring, v);
    ReorderedChoice(hash, KeyFuncOfVisit(v), obj, known, reordered, t1, t2);
    IdleAfterAdmissionIff(hash, ring, v, obj, known, reordered, t1, t2);
  }

  /**
   A resync leaves an object that was just admitted alone exactly if it would choose what the
   webhook chose. For a resource that is both main and controlled, the two may hash different keys.
   */
  lemma IdleAfterAdmissionIff(hash: HashFunc, ring: ControllerRing, v: Visit, obj: ObjectMeta,
                              known: seq<Lease>, other: seq<Lease>, t1: int, t2: int)
    requires v in Visits(ring)
    requires LabelOf(obj.labels, LabelShard(ring.name)) == "" && KeyBy(KeyFuncOfVisit(v), obj).Ok?
    ensures KeyFuncFor(ring, v.resource).Some?
    ensures LeavesAlone(hash, ring, v, obj, known, t1, other, t2)
       <==> (var choice := Choice(hash, other, t2, KeyFuncOfVisit(v), obj);
             choice == "" || choice == Choice(hash, known, t1, KeyFuncFor(ring, v.resource).value, obj))
  {
    ResourceCoverage(ring, v.resource);
    AdmissionEffect(hash, ring, obj, v.resource, known, t1);
    var after := AfterAdmission(hash, ring, v, obj, known, t1);
    KeyIgnoresLabels(KeyFuncOfVisit(v), obj, after.labels);
    ResyncIdleIff(hash, ring, other, t2, v.resource, v.controlled, after);
  }

  /** The shard owns the position on the ring that the object's key belongs to. */
  ghost predicate OwnsObject(hash: HashFunc, leases: seq<Lease>, f: KeyFunc, obj: ObjectMeta, shard: string)
  {
    && KeyBy(f, obj).Ok? && KeyBy(f, obj).value != ""
    && OwnsSuccessor(hash, DEFAULT_TOKENS_PER_NODE, AvailableIDs(leases, 0), KeyBy(f, obj).value, shard)
  }

  /** No other shard owns the position of the object. */
  ghost predicate OwnsAlone(hash: HashFunc, leases: seq<Lease>, f: KeyFunc, obj: ObjectMeta, shard: string)
  {
    && OwnsObject(hash, leases, f, obj, shard)
    && forall other :: OwnsObject(hash, leases, f, obj, other) ==> other == shard
  }

  /** Only owners are chosen, whatever the order of the leases. */
  lemma ChoiceOwns(hash: HashFunc, leases: seq<Lease>, p: seq<Lease>, t: int, f: KeyFunc, obj: ObjectMeta)
    requires SameLeases(leases, p) && Choice(hash, p, t, f, obj) != ""
    ensures OwnsObject(hash, leases, f, obj, Choice(hash, p, t, f, obj))
  {
    var n, key := DEFAULT_TOKENS_PER_NODE, KeyBy(f, obj).value;
    ClockIndependent(p, 0, t);
    PlaceOwns(hash, n, AvailableIDs(p, t), key);
    SameLeasesSameNodes(p, leases);
    SameOwners(hash, n, AvailableIDs(p, 0), AvailableIDs(leases, 0), key, Choice(hash, p, t, f, obj));
  }

  /** Every owner is chosen for some order of the leases. */
  lemma OwnerChosen(hash: HashFunc, leases: seq<Lease>, f: KeyFunc, obj: ObjectMeta, a: string) returns (p: seq<Lease>)
    requires OwnsObject(hash, leases, f, obj, a)
    ensures multiset(p) == multiset(leases) && Choice(hash, p, 0, f, obj) == a && a != ""
  {
    p := OwnerCanBeChosen(hash, leases, 0, KeyBy(f, obj).value, a);
  }

  /** In whatever orders the webhook and the resync list the leases, the resync leaves the admitted object alone. */
  ghost predicate AlwaysAgree(hash: HashFunc, ring: ControllerRing, v: Visit, obj: ObjectMeta, leases: seq<Lease>)
  {
    forall p, q, t1, t2 :: multiset(p) == multiset(leases) && multiset(q) == multiset(leases)
                           ==> LeavesAlone(hash, ring, v, obj, p, t1, q, t2)
  }

  /**
   Webhook and resync always agree on an object exactly if every shard that owns the object's
   position by the resync's key function is the only owner of its position by the webhook's.
   */
  lemma AlwaysAgreeIff(hash: HashFunc, ring: ControllerRing, v: Visit, obj: ObjectMeta, leases: seq<Lease>)
    requires v in Visits(ring)
    requires LabelOf(obj.labels, LabelShard(ring.name)) == "" && KeyBy(KeyFuncOfVisit(v), obj).Ok?
    ensures KeyFuncFor(ring, v.resource).Some?
    ensures AlwaysAgree(hash, ring, v, obj, leases)
       <==> forall a :: OwnsObject(hash, leases, KeyFuncOfVisit(v), obj, a)
                        ==> OwnsAlone(hash, leases, KeyFuncFor(ring, v.resource).value, obj, a)
  {
    ResourceCoverage(ring, v.resource);
    if AlwaysAgree(hash, ring, v, obj, leases) {
      forall a | OwnsObject(hash, leases, KeyFuncOfVisit(v), obj, a)
        ensures OwnsAlone(hash, leases, KeyFuncFor(ring, v.resource).value, obj, a)
      {
        AgreementForces(hash, ring, v, obj, leases, a);
      }
    } else {
      var p, q, t1, t2 :| multiset(p) == multiset(leases) && multiset(q) == multiset(leases)
                       && !LeavesAlone(hash, ring, v, obj, p, t1, q, t2);
      DisagreementShows(hash, ring, v, obj, leases, p, q, t1, t2);
    }
  }

  lemma AgreementForces(hash: HashFunc, ring: ControllerRing, v: Visit, obj: ObjectMeta, leases: seq<Lease>, a: string)
    requires v in Visits(ring) && KeyFuncFor(ring, v.resource).Some?
    requires LabelOf(obj.labels, LabelShard(ring.name)) == "" && KeyBy(KeyFuncOfVisit(v), obj).Ok?
    requires AlwaysAgree(hash, ring, v, obj, leases) && OwnsObject(hash, leases, KeyFuncOfVisit(v), obj, a)
    ensures OwnsAlone(hash, leases, KeyFuncFor(ring, v.resource).value, obj, a)
  {
    var f := KeyFuncFor(ring, v.resource).value;
    var q := OwnerChosen(hash, leases, KeyFuncOfVisit(v), obj, a);
    IdleAfterAdmissionIff(hash, ring, v, obj, leases, q, 0, 0);
    assert LeavesAlone(hash, ring, v, obj, leases, 0, q, 0);
    ChoiceOwns(hash, leases, leases, 0, f, obj);
    forall b | OwnsObject(hash, leases, f, obj, b) ensures b == a {
      var p := OwnerChosen(hash, leases, f, obj, b);
      IdleAfterAdmissionIff(hash, ring, v, obj, p, q, 0, 0);
      assert LeavesAlone(hash, ring, v, obj, p, 0, q, 0);
    }
  }

  lemma DisagreementShows(hash: HashFunc, ring: ControllerRing, v: Visit, obj: ObjectMeta, leases: seq<Lease>,
                          p: seq<Lease>, q: seq<Lease>, t1: int, t2: int)
    requires v in Visits(ring) && KeyFuncFor(ring, v.resource).Some?
    requires LabelOf(obj.labels, LabelShard(ring.name)) == "" && KeyBy(KeyFuncOfVisit(v), obj).Ok?
    requires multiset(p) == multiset(leases) && multiset(q) == multiset(leases)
    requires !LeavesAlone(hash, ring, v, obj, p, t1, q, t2)
    ensures var a := Choice(hash, q, t2, KeyFuncOfVisit(v), obj);
            && OwnsObject(hash, leases, KeyFuncOfVisit(v), obj, a)
            && !OwnsAlone(hash, leases, KeyFuncFor(ring, v.resource).value, obj, a)
  {
    var f, a := KeyFuncFor(ring, v.resource).value, Choice(hash, q, t2, KeyFuncOfVisit(v), obj);
    IdleAfterAdmissionIff(hash, ring, v, obj, p, q, t1, t2);
    SameMultisetSameLeases(leases, q);
    SameMultisetSameLeases(leases, p);
    ChoiceOwns(hash, leases, q, t2, KeyFuncOfVisit(v), obj);
    if OwnsObject(hash, leases, f, obj, a) {
      ChosenIfOwned(hash, leases, p, t1, f, obj, a);
      ChoiceOwns(hash, leases, p, t1, f, obj);
    }
  }

  /** An object with an owner is put on some shard. */
  lemma ChosenIfOwned(hash: HashFunc, leases: seq<Lease>, p: seq<Lease>, t: int, f: KeyFunc, obj: ObjectMeta, a: string)
    requires SameLeases(leases, p) && OwnsObject(hash, leases, f, obj, a)
    ensures Choice(hash, p, t, f, obj) != ""
  {
    var q := OwnerChosen(hash, leases, f, obj, a);
    SameMultisetSameLeases(leases, q);
    ShardForAvailable(hash, q, 0, KeyBy(f, obj).value);
    ShardForAvailable(hash, p, t, KeyBy(f, obj).value);
  }

  /** With one key function, they always agree exactly if the object's position is not contested. */
  lemma AlwaysAgreeUncontested(hash: HashFunc, ring: ControllerRing, v: Visit, obj: ObjectMeta, leases: seq<Lease>)
    requires v in Visits(ring) && (ListedOneWay(ring, v.resource) || !v.controlled)
    requires LabelOf(obj.labels, LabelShard(ring.name)) == "" && KeyBy(KeyFuncOfVisit(v), obj).Ok?
    ensures AlwaysAgree(hash, ring, v, obj, leases) <==> UncontestedObject(hash, leases, KeyFuncOfVisit(v), obj)
  {
    SameKeyFunc(ring, v);
    AlwaysAgreeIff(hash, ring, v, obj, leases);
    var f := KeyFuncOfVisit(v);
    if UncontestedObject(hash, leases, f, obj) {
      forall a | OwnsObject(hash, leases, f, obj, a) ensures OwnsAlone(hash, leases, f, obj, a) {
      }
    } else {
      var key, nodes := KeyBy(f, obj).value, AvailableIDs(leases, 0);
      var a, b :| OwnsSuccessor(hash, DEFAULT_TOKENS_PER_NODE, nodes, key, a)
               && OwnsSuccessor(hash, DEFAULT_TOKENS_PER_NODE, nodes, key, b) && a != b;
      assert OwnsObject(hash, leases, f, obj, a) && OwnsObject(hash, leases, f, obj, b);
    }
  }

  /** A contested object is put on two different shards by two orders of the leases. */
  lemma TwoChoices(hash: HashFunc, leases: seq<Lease>, f: KeyFunc, obj: ObjectMeta)
    returns (p: seq<Lease>, q: seq<Lease>)
    requires !UncontestedObject(hash, leases, f, obj)
    ensures multiset(p) == multiset(leases) && multiset(q) == multiset(leases)
    ensures Choice(hash, p, 0, f, obj) != Choice(hash, q, 0, f, obj)
    ensures Choice(hash, p, 0, f, obj) != "" && Choice(hash, q, 0, f, obj) != ""
  {
    var key, nodes := KeyBy(f, obj).value, AvailableIDs(leases, 0);
    var a, b :| OwnsSuccessor(hash, DEFAULT_TOKENS_PER_NODE, nodes, key, a)
             && OwnsSuccessor(hash, DEFAULT_TOKENS_PER_NODE, nodes, key, b) && a != b;
    p := OwnerChosen(hash, leases, f, obj, a);
    q := OwnerChosen(hash, leases, f, obj, b);
  }

  lemma KeyIgnoresLabels(f: KeyFunc, obj: ObjectMeta, labels: Labels)
    ensures KeyBy(f, obj.(labels := labels)) == KeyBy(f, obj)
  {
  }

  lemma ReorderedChoice(hash: HashFunc, f: KeyFunc, obj: ObjectMeta,
                        known: seq<Lease>, reordered: seq<Lease>, t1: int, t2: int)
    requires SameLeases(known, reordered) && UncontestedObject(hash, known, f, obj)
    ensures Choice(hash, known, t1, f, obj) == Choice(hash, reordered, t2, f, obj)
  {
    if Choice(hash, known, t1, f, obj) != "" || Choice(hash, reordered, t2, f, obj) != "" {
      ReorderedLeases(hash, known, reordered, t1, t2, KeyBy(f, obj).value);
    }
  }

  /**
   Conversely, a resync leaves an object with a key alone exactly if the webhook would not have
   put it elsewhere: no shard is available, or its label is the choice already.
   */
  lemma ResyncIdleIff(hash: HashFunc, ring: ControllerRing, leases: seq<Lease>, now: int,
                      gr: GroupResource, controlled: bool, obj: ObjectMeta)
    requires KeyBy(if controlled then ByController else ByObject, obj).Ok?
    ensures WorkItemFor(hash, ring, leases, now, gr, controlled, obj) == Ok(None)
       <==> (var choice := Choice(hash, leases, now, if controlled then ByController else ByObject, obj);
             choice == "" || choice == LabelOf(obj.labels, LabelShard(ring.name)))
  {
  }
}
