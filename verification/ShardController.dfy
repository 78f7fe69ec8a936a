/** The wrapper around a sharded controller's reconciler: responsibility check and drain acknowledgement. */
module ShardController {
  import opened Prelude
  import opened Resources
  import opened ShardLease

  datatype Action = Forget | Acknowledge | DelegateReconcile

  /** How the shard `me` responds to an object with the given shard label and drain label. */
  function Respond(shard: Option<string>, drain: bool, me: string): (a: Action)
  {
    if shard != Some(me) then Forget
    else if drain then Acknowledge
    else DelegateReconcile
  }

  function Lookup(labels: map<string, string>, key: string): (v: Option<string>)
  {
    if key in labels then Some(labels[key]) else None
  }

  function RespondToLabels(labels: map<string, string>, ring: string, me: string): (a: Action)
  {
    Respond(Lookup(labels, LabelShard(ring)), LabelDrain(ring) in labels, me)
  }

  /** The labels say that the shard `me` is responsible for the object. */
  predicate AssignedTo(labels: map<string, string>, ring: string, me: string)
  {
    LabelShard(ring) in labels && labels[LabelShard(ring)] == me
  }

  /**
   A shard works on an object exactly if the object carries its shard label and no drain label,
   it acknowledges a drain exactly if the object carries both, and it ignores every other object.
   */
  lemma ResponseIff(labels: map<string, string>, ring: string, me: string)
    ensures RespondToLabels(labels, ring, me) == DelegateReconcile
       <==> AssignedTo(labels, ring, me) && LabelDrain(ring) !in labels
    ensures RespondToLabels(labels, ring, me) == Acknowledge
       <==> AssignedTo(labels, ring, me) && LabelDrain(ring) in labels
    ensures RespondToLabels(labels, ring, me) == Forget <==> !AssignedTo(labels, ring, me)
  {
  }

  /** At most one shard responds to an object at all. */
  lemma OneResponds(labels: map<string, string>, ring: string, me: string, other: string)
    requires RespondToLabels(labels, ring, me) != Forget && RespondToLabels(labels, ring, other) != Forget
    ensures me == other
  {
    ResponseIff(labels, ring, me);
    ResponseIff(labels, ring, other);
  }

  datatype CachedObject = CachedObject(labels: map<string, string>, version: nat)

  datatype Outcome = ReadError | Conflict | Rejected | Forgotten | Acknowledged | Delegated

  /** An object as the API server stores it. */
  class StoredObject {
    var labels: map<string, string>
    var version: nat

    /**
     One reconciliation based on a cached copy. `admit` is what admission does to the labels
     of a written object; it may reject the write.
     */
    method Reconcile(cached: ShardLease.Lookup<CachedObject>, ring: string, me: string,
                     admit: map<string, string> -> Option<map<string, string>>) returns (o: Outcome)
      requires cached.Found? && cached.value.version == version ==> cached.value.labels == labels
      modifies this
      ensures o == ReadError <==> cached.LookupFailed?
      ensures o == Forgotten <==>
                cached.NotFound? || (cached.Found? && !AssignedTo(cached.value.labels, ring, me))
      ensures o == Delegated <==>
                cached.Found? && AssignedTo(cached.value.labels, ring, me) && LabelDrain(ring) !in cached.value.labels
      ensures o == Conflict <==>
                && cached.Found? && AssignedTo(cached.value.labels, ring, me)
                && LabelDrain(ring) in cached.value.labels && cached.value.version != old(version)
      ensures o == Acknowledged || o == Rejected <==>
                && cached.Found? && AssignedTo(cached.value.labels, ring, me)
                && LabelDrain(ring) in cached.value.labels && cached.value.version == old(version)
      ensures o == Acknowledged ==>
                && admit(old(labels) - {LabelShard(ring), LabelDrain(ring)}) == Some(labels)
                && version == old(version) + 1
      ensures o == Rejected ==> admit(old(labels) - {LabelShard(ring), LabelDrain(ring)}) == None
      ensures o != Acknowledged ==> unchanged(this)
      // the outcome is the response that the lemmas about the protocol speak of
      ensures cached.Found? ==>
                (o == Delegated <==> RespondToLabels(cached.value.labels, ring, me) == DelegateReconcile)
                && (o == Forgotten <==> RespondToLabels(cached.value.labels, ring, me) == Forget)
    {
      if cached.LookupFailed? { return ReadError; }
      if cached.NotFound? { return Forgotten; }
      var local := cached.value.labels;
      if LabelShard(ring) !in local || local[LabelShard(ring)] != me {
        return Forgotten;
      }
      if LabelDrain(ring) in local {
        local := local - {LabelShard(ring)};
        local := local - {LabelDrain(ring)};
        // a patch with optimistic lock
        if version != cached.value.version { return Conflict; }
        assert local == labels - {LabelShard(ring), LabelDrain(ring)};
        var admitted := admit(local);
        if admitted.None? { return Rejected; }
        labels, version := admitted.value, version + 1;
        return Acknowledged;
      }
      return Delegated;
    }
  }
}
