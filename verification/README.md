# Verified model of controller sharding

The sharder distributes the objects of Kubernetes controllers over several instances, the
shards. It hashes each object onto a ring of the shards that hold their lease, writes the
result into a shard label, and drains or moves objects when the ring changes. The promise is
that only a single shard acts on an object at any time, and that all objects end up where the
ring wants them.

This project models the decisions, data structures and interleavings behind that promise and
proves what they guarantee. `dafny verify dfyconfig.toml` checks all of it.

## Files

| file | content |
|---|---|
| HashRing.dfy | meaning of the consistent hash ring: clockwise nearest token, last writer wins; minimal disruption, order |
| ConsistentHash.dfy | the stored ring (class): sorted tokens, token-to-node map, bisection |
| Leases.dfy, LeaseArithmetic.dfy | lease times, states, shard lists; 64-bit and 32-bit arithmetic |
| RingFromLeases.dfy | the ring of the available shards |
| ShardLease.dfy, WakeUp.dfy | the lease reconciler (class), lease lifecycles, timers and filtered events |
| LeaseEvents.dfy | the event filters on leases |
| Keys.dfy, Resources.dfy | hash keys; key functions, webhook rules and resync visits of a ring |
| WebhookConfig.dfy | the webhook of a ring and the request path that names the ring |
| JsonPatch.dfy, Webhook.dfy | JSON pointers and patches on labels; the admission webhook |
| Resync.dfy, Pipeline.dfy, Pager.dfy | the resync decision; the concurrent resync; the concurrent list pager |
| ShardController.dfy | the shard-side reconciler wrapper (class) |
| Protocol.dfy, MutualExclusion.dfy, ProtocolWitness.dfy | the assignment protocol, its safety, and the exact conditions of it |
| Implementation.dfy | the functions of webhook, resync and shard controller on whole objects refine the protocol |
| Convergence.dfy | every object reaches its shard, and when it does not |

## Hypotheses

- Mutual exclusion assumes three things. The snapshot of a resync is not older than the first
  lease of the shard that an object it handles is labelled with. A shard that lost its lease
  (released, acquired by the sharder or deleted) does not come back under its name; a restart
  under a lease that was held all the time is fine. A shard stops its controllers before its
  lease becomes uncertain. `AlwaysExclusiveIff` shows that these are exactly what is needed,
  whatever the hash function: without any one of them there is a run that ends with two shards
  working on one object.
- A shard handles an object at most once at a time, and its cache only moves forward, also across
  a restart. These are guards of the protocol's steps.
- Convergence assumes that the resources of the objects are not listed both as main and as
  controlled. If leases may be listed in varying order, it holds for an object exactly if its
  position on the ring is not contested, that is, if no two available shards own the token that
  its key belongs to (`ConvergesIff`, by `PerKeyIff` and `ChosenAlikeIff`). With a fixed order it
  needs nothing of the hash function.
- Agreement of webhook and resync has its exact condition for all rings in `AlwaysAgreeIff`; if
  both use the same key function, it is again that the position is not contested
  (`AlwaysAgreeUncontested`).
- The wake-up results assume that held leases last less than 2^30 seconds and that the shard is
  not named like the sharder's lease identity.

## Where the program differs from what one might expect

- The doc comment on lease states calls a lease unknown if it misses a required field. The code
  never yields unknown for an existing lease: such a lease is expired or dead for ever (`Aging`).
- The doc comment calls a lease orphaned after it has been dead for a minute. The code counts the
  minute from the expiry, so an acquired lease is dead for twice its duration plus a minute
  (`TakenOverLifetime`).
- A comment on hash keys mentions the API version; the code leaves it out, which is what makes
  `OwnerColocation` hold across API versions.
- A shard that is named like the sharder's lease identity looks available after its lease was
  acquired (`TakenOverLifetime`).
- Acquiring a lease with a duration of 2^30 seconds or more writes a negative duration
  (`TakeoverDoublesIff`); a time to expiry close to 2^63 nanoseconds is read as long past
  (`StateExactIff`).
- With a concurrency of zero a resync with work never returns (`NoWorkersStuck`); a resync gets
  stuck in no other case (`NeverStuckIff`).
- A ring may list the wildcard "*". The webhook is then called for resources for which the ring has
  no key function, and rejects every creation and update of them (`MatchedHaveKeysIff`,
  `BadRequestIff`).
- An object of a main resource that has no name yet, only a name to be generated, is rejected
  (`KeyErrorIff`, `BadRequestIff`).
- A ring name with an element "." or ".." would not be read back from its webhook's path, although
  the two functions are documented as each other's reverse (`PathRoundTripIff`, `DotsShareThePath`). Kubernetes does
  not admit such names.
- Two shards can own the same token, for example those named "s-1" and "s-11"
  (`SharedTokenNames`). Which of them gets the keys before that token depends on the order of the
  lease list, so an object with such a key can be moved back and forth without end if the order
  varies (`ConvergesIff`).

## Model

| member | source | states |
|---|---|---|
| MutualExclusion.AtMostOneShardWorks | pkg/shard/controller/reconciler.go:53-98 | in every state of every run of the protocol, under the hypotheses, at most one shard works on an object; it runs, holds its lease, which is not uncertain yet, and the object's current label names it |
| Implementation.OneShardWorks | pkg/shard/controller/reconciler.go:53-98 | under the hypotheses, in every run of the program's own functions on whole objects (admission, work items and their execution, the shard's reconciler), at most one shard works on an object, and the shard label of the stored object names it |
| Implementation.StepRefines | pkg/controller/sharder/reconciler.go:313-407 | with or without the hypotheses, every creation, update, decision, drain, movement and acknowledgement on whole objects is a step of the protocol on the two labels of the ring, or leaves them as they are |
| Implementation.ExecuteRefines | pkg/controller/sharder/reconciler.go:360-407 | executing a work item and admitting the result is the protocol's execution of its item, with the same conflicts, and a patch that changes no label is no write |
| Implementation.LockIff | pkg/controller/sharder/reconciler.go:366-373 | an item of an object is executed exactly if the object was not written since it was listed |
| Implementation.WorkIsDecision | pkg/controller/sharder/reconciler.go:269-323 | the work item of a main object, if any, is what the protocol decides on the object's labels |
| Implementation.ResponseSeen | pkg/shard/controller/reconciler.go:64-97 | the shard's response to cached labels is the protocol's response to the cached version |
| MutualExclusion.NoForcedRemoval | pkg/controller/sharder/reconciler.go:313-407 | in every run, with or without the hypotheses, a set shard label goes away or changes only by its own running shard acknowledging a version with the drain label, or by a movement whose snapshot had that shard not available |
| MutualExclusion.CachedLabelIsCurrent | pkg/shard/controller/reconciler.go:71-97 | a shard whose possibly outdated cache shows its own label without the drain label still has the label, because labels leave a running shard only at a drained version its cache has reached |
| MutualExclusion.MovedShardLost | pkg/controller/sharder/reconciler.go:313-322 | the shard that a pending movement takes an object from has lost its lease, whether the snapshot shows the lease as not held or not at all, and however old the snapshot is |
| MutualExclusion.LeaseStepKeeps | pkg/controller/shardlease/reconciler.go:89-134 | acquisitions, deletions (even on outdated caches), renewals and releases never leave a running shard without its lease, which may be expired but not uncertain |
| ProtocolWitness.AlwaysExclusiveIff | README.md:45 | for every hash function, all object keys and any selection of the three hypotheses: all states of all runs have at most one shard working on an object if and only if all three are assumed |
| ProtocolWitness.SnapshotFreshNeeded | pkg/sharding/leases/shards.go:41-49 | a shard that started after the snapshot reads as unavailable, so for every hash function there is a run after which two shards work on one object |
| ProtocolWitness.NoReturnNeeded | pkg/controller/sharder/reconciler.go:384-407 | for every hash function, a shard that comes back under its name after it gave up its lease, while its objects are being moved, leads to two shards working on one object |
| ProtocolWitness.StoppingInTimeNeeded | pkg/sharding/leases/state.go:103-107 | for every hash function, a shard that works at the first instant at which its lease is uncertain is overtaken by the sharder, which leads to two shards working on one object |
| Convergence.Converges | pkg/controller/sharder/reconciler.go:219-323 | with fixed leases, an answering webhook, and objects whose position on the ring is not contested if the order of the leases varies, runs of effective resync, acknowledge and assign steps are at most twice as long as there are objects, and can go on exactly until every object with a place on the ring carries the ring's choice and no such main object has a drain label; writes by others do not count as going on |
| Convergence.StepKeepsOthers | pkg/controller/sharder/reconciler.go:366-398 | no step changes a label other than the two of the ring, or anything but labels |
| Convergence.NoPlaceNoChange | pkg/webhook/sharder/handler.go:79-98 | an object without a valid key, or while no shard is available, is not changed by any step; the write that would take its labels away is rejected |
| Convergence.ConvergesIff | pkg/sharding/ring/ring.go:35-44 | the runs of effective steps from a state are bounded if and only if the leases are always listed in one order or no object of the state has a key whose position on the ring two available shards own; otherwise resyncs and acknowledgements alone go on without end |
| Convergence.EffectiveLowers | pkg/controller/sharder/reconciler.go:360-407 | every drain, movement, acknowledgement or assignment that changes anything strictly lowers the global measure, for any order of the leases and any clock readings |
| Convergence.Progress | pkg/shard/controller/reconciler.go:80-94 | while an object is not settled, a resync of some object or its shard's acknowledgement changes it; a write by somebody else does not count |
| Convergence.SettledMeansNoWork | pkg/controller/sharder/reconciler.go:290-303 | a resync yields no work item for a settled object |
| Pipeline.ResyncCompletes | pkg/controller/sharder/reconciler.go:171-206 | with at least one worker or no work, and no cancellation, every schedule is bounded, never deadlocks before the collector returns, handles each sent item exactly once, and returns exactly the non-nil errors sent |
| Pipeline.NoDeadlock | pkg/controller/sharder/reconciler.go:325-358 | with at least one worker or no work left, some goroutine can go on exactly until the collector has returned |
| Pipeline.NoWorkersStuck | pkg/controller/sharder/reconciler.go:185-191 | with a concurrency of zero and at least one work item, no schedule ever returns |
| Pipeline.NeverStuckIff | pkg/controller/sharder/reconciler.go:171-206 | every schedule can go on until the collector returns if and only if the concurrency is positive or no work item is sent |
| WakeUp.NeverSleepsThroughChange | pkg/controller/shardlease/reconciler.go:89-136 | in every run of writes, filtered events, timers and reconciliations of bounded length, an existing lease is queued, will be looked at no later than its next state change plus that length, or an event is under way that passes the filter or ends the lease |
| WakeUp.IdleMeansTimer | pkg/controller/shardlease/add.go:50-79 | when the controller is idle and its cache up to date, a timer is set no later than the next state change plus the reconciliation time |
| WakeUp.DroppedUpdate | pkg/sharding/predicate/lease.go:43-60 | an update that the state filter drops never brings the next state change forward |
| ShardLease.RequeueHitsNextState | pkg/controller/shardlease/reconciler.go:91-127 | for ready, expired and dead leases the requested delay is positive, the state stays until it is over, and changes to the next state exactly then |
| ShardLease.OtherRequeues | pkg/controller/shardlease/reconciler.go:100-131 | an acquired lease is looked at again after its old duration, an orphaned one is forgotten, an incomplete one is looked at every 15 or 60 seconds |
| ShardLease.KeepsLeaseIff | pkg/controller/shardlease/reconciler.go:100-120 | over any run of renewals and reconciliations, a shard keeps its lease exactly if no reconciliation comes two lease durations or more after the last renewal |
| ShardLease.TakenOverLifetime | pkg/controller/shardlease/reconciler.go:103-120 | an acquired lease has twice the duration and one more transition; it is dead for twice the duration plus a minute and orphaned exactly from then on, unless the shard is named like the sharder's identity |
| ShardLease.ReconcileEffect | pkg/controller/shardlease/reconciler.go:80-134 | a lease is acquired exactly when uncertain, deleted exactly when orphaned, and otherwise only gets a correct state label |
| ShardLease.OutdatedReconcile | pkg/controller/shardlease/reconciler.go:81-134 | an outdated copy leads to no write except the deletion of an orphaned lease, and to an error exactly if a write was tried in vain |
| ShardLease.WritesIff | pkg/controller/shardlease/reconciler.go:80-134 | one write for a wrong label and one for an acquisition or deletion, and no other |
| ShardLease.LeaseObject.Reconcile | pkg/controller/shardlease/reconciler.go:46-137 | the imperative reconciler with its lookups, optimistic locks and unconditional delete does what the specification function says, and nothing for leases without ring |
| Leases.Aging | pkg/sharding/leases/state.go:94-111 | without a write, a lease only goes from ready over expired to uncertain or from dead to orphaned; with a missing time field it never changes state |
| Leases.StateIntervals | pkg/sharding/leases/times.go:47-69 | which instants belong to which state |
| Leases.AvailableIffHeld | pkg/sharding/leases/state.go:85-111 | availability holds exactly if the holder is non-empty and equals the lease name, whatever the time; no lease is unknown |
| Leases.StateRoundTrip | pkg/sharding/leases/state.go:49-82 | the state label reads back as the state it was written for, and nothing else reads as it |
| Leases.StateNames | pkg/sharding/leases/state.go:49-82 | the labels that stand for the six states |
| Leases.ByID | pkg/sharding/leases/shards.go:41-49 | the first shard with the ID, or the zero shard |
| Leases.AvailableShards | pkg/sharding/leases/shards.go:52-61 | the loop keeps exactly the available shards in order |
| Leases.IDs | pkg/sharding/leases/shards.go:64-71 | the loop yields the IDs in order |
| Leases.ToShards | pkg/sharding/leases/shards.go:74-80 | the loop converts every lease in order |
| Leases.AvailableIDsMember | pkg/sharding/ring/ring.go:37-38 | the nodes of the ring are exactly the names of the leases held by their own shard, at any time |
| Leases.LookupLease | pkg/sharding/leases/shards.go:41-49 | a name without a lease reads as not available; any other name reads as one of its leases |
| LeaseArithmetic.StateExactIff | pkg/sharding/leases/times.go:55-66 | saturating and wrapping arithmetic decides the same state as unbounded integers exactly if the time to expiry plus the grace period fits into 63 bits |
| LeaseArithmetic.StateExactIncomplete | pkg/sharding/leases/times.go:55-57 | for a lease that misses a time field the machine arithmetic is exact |
| LeaseArithmetic.TakeoverDoublesIff | pkg/controller/shardlease/reconciler.go:110 | the acquired lease gets exactly twice the duration if and only if the duration is below 2^30 seconds |
| LeaseEvents.FilterComplete | pkg/sharding/predicate/lease.go:63-105 | over every run of lease events of a ring, the shards available at the last accepted event are those available now |
| LeaseEvents.FilterExact | pkg/sharding/predicate/lease.go:63-105 | an event passes if it changes which shards are available, and only then, except for deletes of unknown state |
| LeaseEvents.RenewalSeenIff | pkg/controller/shardlease/add.go:70-79 | the lease controller sees a renewal exactly if the lease had expired |
| LeaseEvents.LeaseFilterIff | pkg/controller/shardlease/add.go:70-79 | of the events of a ring, the lease controller sees creations and changes of state only |
| LeaseEvents.OtherLeasesDropped | pkg/sharding/predicate/lease.go:30-39 | neither filter lets an event of a lease without ring pass |
| LeaseEvents.FilteredRingIsCurrent | pkg/controller/sharder/add.go:72-77 | the ring computed at the last accepted event still places every key right whose position is not contested, for any list order and clock |
| HashRing.PlaceIsSuccessor | pkg/sharding/consistenthash/ring.go:90-105 | a key goes to the last-added owner of the least token that is at least its hash, or of the least token if there is none; it goes nowhere exactly if the ring is empty, for non-empty names |
| HashRing.MinimalDisruption | pkg/sharding/consistenthash/ring.go:76-105 | for every hash function, inserting a node anywhere leaves each key or moves it to that node; removing a node moves only its own keys |
| HashRing.PerKeyIff | pkg/sharding/consistenthash/ring.go:76-105 | all permutations of the node list place a key alike if and only if no two different nodes own the token that is nearest to the key's hash |
| HashRing.OrderIrrelevantIff | pkg/sharding/consistenthash/ring.go:76-87 | all permutations of the node list place all keys alike exactly if no two different nodes share a token |
| HashRing.OrderIndependence | pkg/sharding/consistenthash/ring.go:76-105 | a key whose nearest token only one node owns is placed alike by all lists of the same nodes, duplicates or not |
| HashRing.SharedTokenNames | pkg/sharding/consistenthash/ring.go:78-80 | with 100 tokens and no accidental collision, two names share a token exactly if one is the other plus one non-zero digit |
| HashRing.DecimalMeaning | pkg/sharding/consistenthash/ring.go:79 | the number appended to a node's name consists of digits, stands for the token's index and has no leading zero |
| ConsistentHash.Ring.constructor | pkg/sharding/consistenthash/ring.go:39-57 | defaults for the hash and the token count; the ring stores the initial nodes |
| ConsistentHash.Ring.AddNodes | pkg/sharding/consistenthash/ring.go:76-87 | after the loops and the sort, the tokens are a sorted permutation of all generated tokens and each token maps to its last owner |
| ConsistentHash.Ring.Hash | pkg/sharding/consistenthash/ring.go:90-105 | bisection with wrap-around finds the node of the clockwise nearest token |
| ConsistentHash.Ring.IsEmpty | pkg/sharding/consistenthash/ring.go:71-73 | no tokens means that no node was ever added |
| ConsistentHash.OwnersKeys | pkg/sharding/consistenthash/ring.go:80-81 | the map's keys are exactly the tokens |
| ConsistentHash.SearchHitsWinner | pkg/sharding/consistenthash/ring.go:95-104 | the searched position, wrapped around, carries the token of minimal clockwise distance |
| RingFromLeases.FromLeases | pkg/sharding/ring/ring.go:35-44 | the ring holds exactly the available shards in list order |
| RingFromLeases.LookUp | pkg/webhook/sharder/handler.go:92-98 | building the ring from the leases and looking a key up yields the shard that all other results speak of |
| RingFromLeases.HolderChange | pkg/sharding/ring/ring.go:35-44 | when one lease changes holder, a key stays, moves to that shard because it became available, or leaves it because it became unavailable |
| RingFromLeases.ShardForAvailable | pkg/sharding/ring/ring.go:35-44 | a key gets a shard exactly if one is available, and then an available one |
| RingFromLeases.ReorderedLeases | pkg/sharding/ring/ring.go:35-44 | list order and clock do not matter for a key whose position only one available shard owns |
| RingFromLeases.ChosenAlikeIff | pkg/sharding/ring/ring.go:35-44 | all orders of the leases and all clock readings choose the same shard for a key if and only if no two available shards own its position |
| Resync.WebhookAndResyncAgree | pkg/webhook/sharder/handler.go:71-113 | an object without shard label that just passed the webhook yields no work item, for a visit that hashes like the webhook, reordered leases, an uncontested position and any two clock readings |
| Resync.ExecutedIff | pkg/controller/sharder/reconciler.go:340-407 | a work item is executed exactly on the object it was decided on, and only if that object was not written since |
| Resync.PatchEffect | pkg/controller/sharder/reconciler.go:366-398 | a drain sets the ring's drain label, a movement removes the ring's two labels, and all other labels stay |
| Resync.DecisionIff | pkg/controller/sharder/reconciler.go:290-323 | exactly the main objects that belong elsewhere and whose current shard's first lease is held are drained, and nothing is done exactly for objects that belong where they are or nowhere |
| Resync.IdleAfterAdmissionIff | pkg/controller/sharder/reconciler.go:276-303 | for every ring, a resync leaves the just admitted object alone if and only if its choice is empty or the webhook's choice, which a resource listed both ways hashes by another key |
| Resync.AlwaysAgreeIff | pkg/webhook/sharder/handler.go:71-113 | for every ring, a resync leaves the just admitted object alone for all orders in which both list the leases if and only if every owner of the object's position by the resync's key function is the only owner by the webhook's |
| Resync.AlwaysAgreeUncontested | pkg/sharding/key/key.go:44-49 | where webhook and resync use one key function, they agree for all orders of the leases if and only if the object's position is not contested |
| Resync.ResyncIdleIff | pkg/controller/sharder/reconciler.go:276-303 | a resync leaves an object alone exactly if the webhook would choose no other shard than its label |
| Webhook.AdmissionEffect | pkg/webhook/sharder/handler.go:63-113 | a labelled object keeps all labels; any other gets the label of its key's shard if there is one, and no other label changes |
| Webhook.BadRequestIff | pkg/webhook/sharder/handler.go:71-82 | a request is rejected with 400 exactly if the object is not assigned and its resource is not the ring's or what its key is made of is missing |
| Webhook.InternalErrorIff | pkg/webhook/sharder/handler.go:46-90 | a request fails with 500 exactly if ring or object cannot be read, or the leases cannot and are needed; there is no other error code |
| Webhook.AllowedIff | pkg/webhook/sharder/handler.go:63-110 | when a request passes unchanged, for each of the three reasons, and when it is patched |
| Webhook.RejectedIff | pkg/controller/controllerring/reconciler.go:182-196 | a write to an object of the ring's resources is rejected exactly if the webhook is called and reached, and misses the ring, leases that it needs, or a valid key |
| Webhook.AdmitWriteEffect | pkg/controller/controllerring/reconciler.go:182-196 | a write that is not rejected is stored as it is or with the shard label that the webhook added |
| JsonPatch.SetLabelMeaning | pkg/webhook/sharder/handler.go:102-107 | for every label map or none and every key, the operations set that label and change no other, by section 4.1 of RFC 6902 |
| JsonPatch.ParentNeeded | pkg/webhook/sharder/handler.go:102-107 | for an object without labels, adding a label is not a valid operation by section 4.1 of RFC 6902 unless the labels are added first |
| JsonPatch.DecodeEncode | pkg/webhook/sharder/handler.go:135-136 | the escaping is undone by the two-pass decoding of section 4 of RFC 6901 |
| JsonPatch.EncodeSlashFree | pkg/webhook/sharder/handler.go:135-136 | escaped keys contain no slash, hence are one reference token |
| ShardController.StoredObject.Reconcile | pkg/shard/controller/reconciler.go:53-98 | each outcome by its exact condition on the labels of the copy: delegated for own objects without drain label, forgotten for missing and other objects, conflict for outdated copies of own drained objects, and for current ones both labels are removed and the result admitted or rejected; nothing else is written |
| ShardController.ResponseIff | pkg/shard/controller/reconciler.go:75-97 | reconcile, acknowledge and ignore, each by its exact condition on the shard and drain label |
| ShardController.OneResponds | pkg/shard/controller/reconciler.go:75-78 | at most one shard responds to an object with given labels at all |
| Pager.PagerSafe | pkg/utils/pager/pager.go:106-203 | in every schedule the items passed on are a prefix of the pages in order, all of them if the result is nil; calls exceed finished pages by at most the buffer plus two, ask for page after page with the given limit or else the page size, and only the first one sends a resource version |
| Pager.PagerTerminates | pkg/utils/pager/pager.go:106-151 | every schedule is bounded, and its two goroutines can go on, without counting a cancellation by the caller, exactly until the caller has its result and the background goroutine has ended |
| Pager.PagerDelivers | pkg/utils/pager/pager.go:65-67 | if no list call and no callback fails and the caller does not cancel, the pager only comes to rest after it has passed on all items of all pages in order, and returns no error |
| Pager.CallbackErrorReturned | pkg/utils/pager/pager.go:144-147 | an error of the callback is the pager's result from then on |
| Pager.ListErrorReturned | pkg/utils/pager/pager.go:66-67 | if a list call fails and nothing else disturbs the pager, it passes on all pages listed before and returns that error |
| Pager.CancelStops | pkg/utils/pager/pager.go:139-143 | a cancelled pager makes no further list call and passes on no item beyond the page in progress |
| Pager.BadConfigReported | pkg/utils/pager/pager.go:107-109 | a negative buffer or page size is returned as its error without any list call |
| Keys.OwnerColocation | pkg/sharding/key/key.go:61-125 | an object whose first reference marked as controller names an owner in its namespace has the owner's key, group/kind/namespace/name, across API versions, hence the same shard on every ring |
| Keys.UncontrolledIff | pkg/sharding/key/key.go:96-103 | an object has the empty key of its controller exactly if no owner reference is marked as the controller; no object has an empty key of its own |
| Keys.KeyErrorIff | pkg/sharding/key/key.go:73-121 | an object has no key of its own exactly if it has no name or no type, and none of its controller exactly if the first marked reference has an empty field or an API version with two slashes |
| Keys.KeyInjective | pkg/sharding/key/key.go:123-125 | keys of slash-free group, kind and namespace determine all four parts |
| Keys.ParseAPIVersion | pkg/sharding/key/key.go:115-120 | the group of a controller reference is recovered from its API version |
| Resources.ResourceCoverage | pkg/sharding/key/key.go:32-52 | a resource has a key function exactly if a resync visits it |
| Resources.MatchIff | pkg/controller/controllerring/reconciler.go:218-244 | some rule of the ring matches a request, of any version and scope, exactly if it creates or updates an object of a resource that the ring lists or covers by a wildcard |
| Resources.MatchVisited | pkg/controller/controllerring/reconciler.go:231-244 | without wildcards, the webhook's rules match exactly the creations and updates of the resources that a resync visits |
| Resources.MatchedHaveKeysIff | pkg/controller/controllerring/reconciler.go:218-244 | every request that the rules match is of a resource with a key function if and only if the ring lists no wildcard |
| Resources.SameKeyFuncIff | pkg/sharding/key/key.go:44-49 | webhook and resync use the same key function for all visited resources exactly if main and controlled resources are disjoint |
| Resources.FuncForResource | pkg/sharding/key/key.go:32-52 | the loops over the spec find the key function, main resources first |
| Resources.SameKeyFunc | pkg/sharding/key/key.go:44-49 | webhook and resync use the same key function for a visit if and only if the ring lists the resource one way or the visit is as main |
| Resources.RulesForRing | pkg/controller/controllerring/reconciler.go:218-226 | the nested loops yield one rule per visited resource, in the order of the visits |
| WebhookConfig.WebhookForControllerRing | pkg/controller/controllerring/reconciler.go:178-228 | the webhook is called for exactly the creations and updates of visited resources (without wildcards) whose objects lack the shard label, in the ring's namespaces before the default ones; failures are ignored, and the ring's path is put at the service and behind the URL without doubled slash |
| WebhookConfig.PathRoundTripIff | pkg/webhook/sharder/add.go:56-80 | the path made for a ring reads back as that ring if and only if the name is not empty and none of its elements between slashes is empty, "." or ".." |
| WebhookConfig.PathsDistinct | pkg/webhook/sharder/add.go:58-60 | different rings with such names have different paths |
| WebhookConfig.DotsShareThePath | pkg/webhook/sharder/add.go:58-60 | a ring named "x/../y" has the path of the ring "y" |
| WebhookConfig.RingForPathIff | pkg/webhook/sharder/add.go:64-80 | a path is read as a ring if and only if it is the prefix followed by that non-empty name |
| Resources.VisitsMember | pkg/controller/sharder/reconciler.go:208-217 | a resync visits a resource as main or controlled exactly if the ring lists it so |
| Resources.LabelsDistinct | pkg/apis/sharding/v1alpha1/constants.go:38-59 | shard and drain labels never clash, nor do those of different rings |

## Left out

- WebhookConfig.WebhookForControllerRing: the webhook's name, timeout, side effects and review versions are constants and not stated; the path.Join of Go's standard library is modelled for rooted paths.
- MutualExclusion.AtMostOneShardWorks: speaks of main objects only, because controlled objects are moved without a drain; deleting an object and creating it again under the same name, and manual edits of the labels, are not steps; two leases of one name in different namespaces are one lease here.
- Pipeline.ResyncCompletes: the context is never cancelled, because the producer's send has no case for cancellation; the producer's list of sends is arbitrary instead of computed from listed objects.
- WakeUp.NeverSleepsThroughChange: the backoff after a failed reconciliation is not counted, a retry counts as queued.
- Convergence.Converges: speaks of objects in selected namespaces whose drain label, if any, was written by the sharder.
- Resources.MatchIff: requests for subresources, and rules with a slash in the resource, are not matched.
- Implementation.OneShardWorks: owner references and generated names play no part for main objects; a write by a user that changes nothing counts as a new version.
- ShardLease.TakenOverLifetime: stored times are not truncated to microseconds.
- The Kubernetes client, API server, RESTMapper and controller-runtime: only optimistic locks, forward-only caches, one reconciliation per key and lease writes appear, as steps.
- xxhash: an arbitrary function to 64-bit values stands for it, so nothing is said about how evenly keys are distributed.
- The sort and the binary search of Go's slices package are modelled by an insertion sort and a bisection with the same contract.
- The shard controller's watch predicate and the mapping of leases to rings: they would only add easy members.
- A shard label that is present but empty: the protocol treats it as absent; the webhook, resync and convergence models keep the difference.
- Names, labels and annotations of the webhook configuration, metrics, events, conditions, configuration defaults and command-line setup.
- The example controllers and the evaluation tooling.
