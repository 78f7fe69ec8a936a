/** The sharder's admission webhook: it assigns unlabelled objects to the shard of their key. */
module Webhook {
  import opened Prelude
  import opened HashRing
  import opened Leases
  import opened RingFromLeases
  import opened Keys
  import opened Resources
  import opened JsonPatch

  datatype Response =
    | Errored(code: int)
    | Allowed(reason: string)
    | Patched(ops: seq<Add>)

  const INTERNAL_ERROR: int := 500
  const BAD_REQUEST: int := 400

  function LabelOf(labels: Labels, key: string): (v: string)
  {
    if labels.Some? && key in labels.value then labels.value[key] else ""
  }

  predicate HasLabel(labels: Labels, key: string)
  {
    labels.Some? && key in labels.value
  }

  function KeyBy(f: KeyFunc, obj: ObjectMeta): (r: Result<string, KeyError>)
  {
    match f
    case ByObject => ForObject(obj)
    case ByController => ForController(obj)
  }

  /** A request for an object of some resource; None stands for what could not be read or decoded. */
  function Handle(hash: HashFunc, ring: Option<ControllerRing>, obj: Option<ObjectMeta>, gr: GroupResource,
                  leases: Option<seq<Lease>>, now: int): (r: Response)
  {
    if ring.None? then Errored(INTERNAL_ERROR)
    else if obj.None? then Errored(INTERNAL_ERROR)
    else if LabelOf(obj.value.labels, LabelShard(ring.value.name)) != "" then Allowed("object is already assigned")
    else match KeyFuncFor(ring.value, gr)
      case None => Errored(BAD_REQUEST)
      case Some(f) =>
        match KeyBy(f, obj.value)
        case Err(_) => Errored(BAD_REQUEST)
        case Ok(key) =>
          if key == "" then Allowed("object should not be assigned")
          else if leases.None? then Errored(INTERNAL_ERROR)
          else
            var shard := ShardFor(hash, leases.value, now, key);
            if shard == "" then Allowed("there is no available shard")
            else Patched(SetLabelOps(obj.value.labels, LabelShard(ring.value.name), shard))
  }

  /** The labels after admission; a response without a valid patch leaves them alone. */
  function Admitted(r: Response, labels: Labels): (after: Labels)
  {
    if r.Patched? && ApplyPatch(labels, r.ops).Some? then ApplyPatch(labels, r.ops).value else labels
  }

  /** The webhook's object selector: it is called only if the shard label is absent. */
  predicate SelectedByWebhook(ring: ControllerRing, labels: Labels)
  {
    !HasLabel(labels, LabelShard(ring.name))
  }

  /** What the webhook gets to see when it is called, unless it cannot be reached. */
  datatype Call = Unreachable | Reached(ringFound: bool, leases: Option<seq<Lease>>, now: int)

  /**
   The labels with which the API server stores a written object; None if the write is rejected.
   A webhook that cannot be reached is ignored.
   */
  function AdmitWrite(hash: HashFunc, ring: ControllerRing, obj: ObjectMeta, gr: GroupResource, call: Call):
    (labels: Option<Labels>)
  {
    if !SelectedByWebhook(ring, obj.labels) || call.Unreachable? then Some(obj.labels)
    else
      var r := Handle(hash, if call.ringFound then Some(ring) else None, Some(obj), gr, call.leases, call.now);
      if r.Errored? then None else Some(Admitted(r, obj.labels))
  }

  /** The shard an object of a listed resource should be on: the empty string for errors and for no shard. */
  function Choice(hash: HashFunc, leases: seq<Lease>, now: int, f: KeyFunc, obj: ObjectMeta): (shard: string)
  {
    match KeyBy(f, obj)
    case Err(_) => ""
    case Ok(key) => if key == "" then "" else ShardFor(hash, leases, now, key)
  }

  /**
   What admission does to the labels of an object of the ring: an object with a shard label
   keeps all its labels; any other object gets the label of the shard that its key is placed on
   if there is one, and keeps all other labels.
   */
  lemma AdmissionEffect(hash: HashFunc, ring: ControllerRing, obj: ObjectMeta, gr: GroupResource,
                        leases: seq<Lease>, now: int)
    requires KeyFuncFor(ring, gr).Some?
    ensures var before, key := obj.labels, LabelShard(ring.name);
            var after := Admitted(Handle(hash, Some(ring), Some(obj), gr, Some(leases), now), before);
            var choice := Choice(hash, leases, now, KeyFuncFor(ring, gr).value, obj);
            && (LabelOf(before, key) != "" ==> after == before)
            && (LabelOf(before, key) == "" && choice == "" ==> after == before)
            && (LabelOf(before, key) == "" && choice != "" ==>
                  && LabelOf(after, key) == choice
                  && HasLabel(after, key)
                  && forall k :: k != key ==>
                       HasLabel(after, k) == HasLabel(before, k) && LabelOf(after, k) == LabelOf(before, k))
  {
    SetLabelMeaning(obj.labels, LabelShard(ring.name), Choice(hash, leases, now, KeyFuncFor(ring, gr).value, obj));
  }

  /** The shard that the webhook assigns a written object to; empty if it is not called or leaves the object alone. */
  function Assignment(hash: HashFunc, ring: ControllerRing, obj: ObjectMeta, gr: GroupResource, call: Call):
    (shard: string)
    requires KeyFuncFor(ring, gr).Some?
  {
    if SelectedByWebhook(ring, obj.labels) && call.Reached? && call.leases.Some?
    then Choice(hash, call.leases.value, call.now, KeyFuncFor(ring, gr).value, obj)
    else ""
  }

  /** A write that is not rejected is stored as it is, or with the shard label that the webhook added. */
  lemma AdmitWriteEffect(hash: HashFunc, ring: ControllerRing, obj: ObjectMeta, gr: GroupResource, call: Call)
    requires KeyFuncFor(ring, gr).Some? && AdmitWrite(hash, ring, obj, gr, call).Some?
    ensures var shard := Assignment(hash, ring, obj, gr, call);
            AdmitWrite(hash, ring, obj, gr, call).value ==
            if shard == "" then obj.labels
            else Some((if obj.labels.Some? then obj.labels.value else map[])[LabelShard(ring.name) := shard])
  {
    SetLabelMeaning(obj.labels, LabelShard(ring.name), Assignment(hash, ring, obj, gr, call));
  }

  // ------------------------------------------------------------------ responses

  predicate Assigned(ring: ControllerRing, obj: ObjectMeta)
  {
    LabelOf(obj.labels, LabelShard(ring.name)) != ""
  }

  /** The object lacks what the key of its resource is made of. */
  ghost predicate LacksKey(ring: ControllerRing, gr: GroupResource, obj: ObjectMeta)
  {
    if IsMain(ring, gr) then obj.name == "" || (obj.group == "" && obj.version == "" && obj.kind == "")
    else exists i :: ControllerAt(obj.ownerReferences, i) && !UsableReference(obj.ownerReferences[i])
  }

  /** An object of a controlled resource that nothing controls. */
  predicate Uncontrolled(ring: ControllerRing, gr: GroupResource, obj: ObjectMeta)
  {
    !IsMain(ring, gr) && forall i :: 0 <= i < |obj.ownerReferences| ==> !IsController(obj.ownerReferences[i])
  }

  /** When a request is rejected because of the object: it is not assigned, and it is not of the ring or lacks a key. */
  lemma BadRequestIff(hash: HashFunc, ring: Option<ControllerRing>, obj: Option<ObjectMeta>, gr: GroupResource,
                      leases: Option<seq<Lease>>, now: int)
    ensures Handle(hash, ring, obj, gr, leases, now) == Errored(400)
       <==> && ring.Some? && obj.Some? && !Assigned(ring.value, obj.value)
            && (!Visited(ring.value, gr) || LacksKey(ring.value, gr, obj.value))
  {
    HandleKey(ring, obj, gr);
  }

  /** When a request fails because something cannot be read. */
  lemma InternalErrorIff(hash: HashFunc, ring: Option<ControllerRing>, obj: Option<ObjectMeta>, gr: GroupResource,
                         leases: Option<seq<Lease>>, now: int)
    ensures Handle(hash, ring, obj, gr, leases, now) == Errored(500)
       <==> || ring.None? || obj.None?
            || (leases.None? && !Assigned(ring.value, obj.value) && Visited(ring.value, gr)
                && !LacksKey(ring.value, gr, obj.value) && !Uncontrolled(ring.value, gr, obj.value))
    ensures Handle(hash, ring, obj, gr, leases, now).Errored? ==>
              Handle(hash, ring, obj, gr, leases, now).code in {400, 500}
  {
    HandleKey(ring, obj, gr);
  }

  /** When a request passes unchanged, and why. */
  lemma AllowedIff(hash: HashFunc, ring: ControllerRing, obj: ObjectMeta, gr: GroupResource,
                   leases: Option<seq<Lease>>, now: int)
    ensures var r := Handle(hash, Some(ring), Some(obj), gr, leases, now);
            var open := !Assigned(ring, obj) && Visited(ring, gr) && !LacksKey(ring, gr, obj);
            && (r == Allowed("object is already assigned") <==> Assigned(ring, obj))
            && (r == Allowed("object should not be assigned") <==> open && Uncontrolled(ring, gr, obj))
            && (r == Allowed("there is no available shard") <==>
                  open && !Uncontrolled(ring, gr, obj) && leases.Some? && forall l :: l in leases.value ==> !Held(l))
            && (r.Patched? <==>
                  open && !Uncontrolled(ring, gr, obj) && leases.Some? && exists l :: l in leases.value && Held(l))
  {
    HandleKey(Some(ring), Some(obj), gr);
    if KeyFuncFor(ring, gr).Some? && leases.Some? && KeyBy(KeyFuncFor(ring, gr).value, obj).Ok? {
      ShardForAvailable(hash, leases.value, now, KeyBy(KeyFuncFor(ring, gr).value, obj).value);
    }
  }

  lemma HandleKey(ring: Option<ControllerRing>, obj: Option<ObjectMeta>, gr: GroupResource)
    ensures ring.Some? ==> (KeyFuncFor(ring.value, gr).Some? <==> Visited(ring.value, gr))
    ensures ring.Some? && obj.Some? && KeyFuncFor(ring.value, gr).Some? ==>
              var r := KeyBy(KeyFuncFor(ring.value, gr).value, obj.value);
              && (r.Err? <==> LacksKey(ring.value, gr, obj.value))
              && (r == Ok("") <==> Uncontrolled(ring.value, gr, obj.value))
  {
    if ring.Some? && obj.Some? {
      ResourceCoverage(ring.value, gr);
      KeyErrorIff(obj.value);
      UncontrolledIff(obj.value);
    } else if ring.Some? {
      ResourceCoverage(ring.value, gr);
    }
  }

  /**
   A write is rejected exactly if the webhook is called for it, can be reached, and cannot find the
   ring, cannot read leases that it needs, or gets an object without a valid key.
   */
  lemma RejectedIff(hash: HashFunc, ring: ControllerRing, obj: ObjectMeta, gr: GroupResource, call: Call)
    requires Visited(ring, gr)
    ensures AdmitWrite(hash, ring, obj, gr, call) == None
       <==> && !HasLabel(obj.labels, LabelShard(ring.name)) && call.Reached?
            && (!call.ringFound || LacksKey(ring, gr, obj) || (call.leases.None? && !Uncontrolled(ring, gr, obj)))
  {
    if call.Reached? {
      var found := if call.ringFound then Some(ring) else None;
      BadRequestIff(hash, found, Some(obj), gr, call.leases, call.now);
      InternalErrorIff(hash, found, Some(obj), gr, call.leases, call.now);
    }
  }
}
