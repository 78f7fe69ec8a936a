/**
 The protocol as the program carries it out: objects with all their metadata, and the real
 functions of webhook, resync and shard controller deciding and writing. Every step of it is a
 step of the abstract protocol on the labels that matter, or invisible there, so that mutual
 exclusion holds of the program's own functions.
 */
module Implementation {
  import opened Prelude
  import opened HashRing
  import opened RingFromLeases
  import opened Keys
  import opened Resources
  import opened JsonPatch
  import opened Webhook
  import opened Resync
  import opened ShardController
  import opened Protocol
  import opened MutualExclusion

  /** What identifies a main object, and the resource it belongs to. */
  datatype Identity = Identity(
    gr: GroupResource,
    group: string,
    version: string,
    kind: string,
    namespace: string,
    name: string)

  /** The objects are named by their hash keys. */
  datatype System = System(hash: HashFunc, ring: ControllerRing, identity: string -> Identity)

  function ConfigOf(y: System): (c: Config)
  {
    Config(y.hash, id => id)
  }

  /** The object is of a main resource, and `id` is its key. */
  predicate Names(y: System, id: string)
  {
    var i := y.identity(id);
    && i.name != "" && i.kind != "" && id == ForMetadata(i.group, i.kind, i.namespace, i.name)
    && IsMain(y.ring, i.gr)
  }

  predicate Fits(i: Identity, m: ObjectMeta)
  {
    && m.group == i.group && m.version == i.version && m.kind == i.kind
    && m.namespace == i.namespace && m.name == i.name
  }

  predicate ItemFits(i: Identity, w: WorkItem)
  {
    && w.gr == i.gr && w.group == i.group && w.version == i.version && w.kind == i.kind
    && w.namespace == i.namespace && w.name == i.name
  }

  function IdOf(w: WorkItem): (id: string)
  {
    ForMetadata(w.group, w.kind, w.namespace, w.name)
  }

  datatype Pending = Pending(op: Op, item: WorkItem)

  type Metas = map<string, seq<ObjectMeta>>

  datatype Concrete = Concrete(
    now: int,
    leaseLog: seq<LeaseMap>,
    known: set<string>,
    running: set<string>,
    objs: Metas,                    // all stored versions of each object
    cache: map<Task, nat>,
    working: set<Task>,
    ops: set<Op>,
    pending: set<Pending>)

  // ------------------------------------------------------------------ abstraction

  /** The labels that the protocol is about. */
  function VersionOf(ring: ControllerRing, labels: Labels): (v: Version)
  {
    Version(LabelOf(labels, LabelShard(ring.name)), HasLabel(labels, LabelDrain(ring.name)))
  }

  function HistoryOf(ring: ControllerRing, ms: seq<ObjectMeta>): (vs: seq<Version>)
    ensures |vs| == |ms|
  {
    seq(|ms|, i requires 0 <= i < |ms| => VersionOf(ring, ms[i].labels))
  }

  function ObjectsOf(ring: ControllerRing, objs: Metas): (r: Objects)
  {
    map id | id in objs :: HistoryOf(ring, objs[id])
  }

  function ItemOf(p: Pending): (i: Item)
  {
    Item(p.op, IdOf(p.item), p.item.resourceVersion, p.item.drain, p.item.currentShard)
  }

  function ItemsOf(pending: set<Pending>): (r: set<Item>)
  {
    set p | p in pending :: ItemOf(p)
  }

  function Abstract(y: System, s: Concrete): (a: State)
  {
    State(s.now, s.leaseLog, s.known, s.running, ObjectsOf(y.ring, s.objs), s.cache, s.working, s.ops,
          ItemsOf(s.pending))
  }

  // ------------------------------------------------------------------ steps

  /** The webhook reads the leases from a cache, if it can read them at all. */
  ghost predicate CallAllowed(log: seq<LeaseMap>, call: Call)
  {
    call.Reached? && call.leases.Some? ==> exists i :: 0 <= i < |log| && Listing(call.leases.value, log[i])
  }

  /** A written object as it is stored; None if admission rejects the write. */
  function Store(y: System, id: string, m: ObjectMeta, call: Call): (r: Option<ObjectMeta>)
  {
    match AdmitWrite(y.hash, y.ring, m, y.identity(id).gr, call)
    case None => None
    case Some(labels) => Some(m.(labels := labels))
  }

  function Appended(s: Concrete, id: string, m: ObjectMeta): (s': Concrete)
    requires id in s.objs
  {
    s.(objs := s.objs[id := s.objs[id] + [m]])
  }

  function LatestMeta(s: Concrete, id: string): (m: ObjectMeta)
    requires id in s.objs && s.objs[id] != []
  {
    s.objs[id][|s.objs[id]| - 1]
  }

  function LabelMap(labels: Labels): (m: map<string, string>)
  {
    if labels.Some? then labels.value else map[]
  }

  datatype Deed =
    | Leases(step: Step)
    | CreateMeta(id: string, meta: ObjectMeta, call: Call)
    | UpdateMeta(id: string, meta: ObjectMeta, call: Call)
    | Begin(op: Op)
    | DecideMeta(op: Op, id: string, resourceVersion: nat)
    | Execute(p: Pending, call: Call)
    | See(task: Task, version: nat)
    | Work(task: Task)
    | Finish(task: Task)
    | Yield(task: Task, call: Call)

  /** What a resync makes of the listed version of an object. */
  function WorkFor(y: System, op: Op, id: string, listed: ObjectMeta): (r: Option<WorkItem>)
  {
    var r := WorkItemFor(y.hash, y.ring, op.leases, op.at, y.identity(id).gr, false, listed);
    if r.Ok? then r.value else None
  }

  ghost predicate WriterStep(y: System, s: Concrete, a: Deed, s': Concrete)
  {
    match a
    // a new object without labels of the ring
    case CreateMeta(id, m, call) =>
      && id !in s.objs && Names(y, id) && Fits(y.identity(id), m) && m.resourceVersion == 0
      && !HasLabel(m.labels, LabelShard(y.ring.name)) && !HasLabel(m.labels, LabelDrain(y.ring.name))
      && CallAllowed(s.leaseLog, call)
      && (match Store(y, id, m, call)
          case None => s' == s
          case Some(stored) => s' == s.(objs := s.objs[id := [stored]]))
    // an update by a user that leaves the labels of the ring alone
    case UpdateMeta(id, m, call) =>
      && id in s.objs && s.objs[id] != [] && Fits(y.identity(id), m) && m.resourceVersion == |s.objs[id]|
      && KeepsRingLabels(y.ring, LatestMeta(s, id).labels, m.labels)
      && CallAllowed(s.leaseLog, call)
      && (match Store(y, id, m, call)
          case None => s' == s
          case Some(stored) => s' == Appended(s, id, stored))
    case Execute(p, call) =>
      && p in s.pending && IdOf(p.item) in s.objs && s.objs[IdOf(p.item)] != [] && CallAllowed(s.leaseLog, call)
      && s' == AfterExecution(y, s, p, call)
    case _ => false
  }

  predicate KeepsRingLabels(ring: ControllerRing, a: Labels, b: Labels)
  {
    && HasLabel(a, LabelShard(ring.name)) == HasLabel(b, LabelShard(ring.name))
    && HasLabel(a, LabelDrain(ring.name)) == HasLabel(b, LabelDrain(ring.name))
    && LabelOf(a, LabelShard(ring.name)) == LabelOf(b, LabelShard(ring.name))
    && LabelOf(a, LabelDrain(ring.name)) == LabelOf(b, LabelDrain(ring.name))
  }

  /** A conflict and a rejection leave the object alone, and a patch that changes no label is no write. */
  function AfterExecution(y: System, s: Concrete, p: Pending, call: Call): (s': Concrete)
    requires IdOf(p.item) in s.objs && s.objs[IdOf(p.item)] != []
  {
    var id, done := IdOf(p.item), s.(pending := s.pending - {p});
    var stored := LatestMeta(s, id);
    match Executed(y.ring, p.item, stored)
    case None => done
    case Some(labels) =>
      match Store(y, id, stored.(labels := labels, resourceVersion := |s.objs[id]|), call)
      case None => done
      case Some(m) => if m.labels == stored.labels then done else Appended(done, id, m)
  }

  ghost predicate ResyncStep(y: System, h: Hypotheses, s: Concrete, a: Deed, s': Concrete)
  {
    match a
    case Begin(op) =>
      && op.seen < |s.leaseLog| && Listing(op.leases, s.leaseLog[op.seen])
      && s' == s.(ops := s.ops + {op})
    case DecideMeta(op, id, rv) =>
      && op in s.ops && id in s.objs && rv < |s.objs[id]|
      && var current := LabelOf(s.objs[id][rv].labels, LabelShard(y.ring.name));
         && (h.snapshotFresh && current != "" ==> Started(s.leaseLog, op, current))
         && (match WorkFor(y, op, id, s.objs[id][rv])
             case None => s' == s
             case Some(item) => s' == s.(pending := s.pending + {Pending(op, item)}))
    case _ => false
  }

  predicate MayReconcile(s: Concrete, t: Task)
  {
    t.shard in s.running && t !in s.working && t.id in s.objs && t in s.cache && s.cache[t] < |s.objs[t.id]|
  }

  /** What the shard's reconciler does with the cached copy. */
  function Response(y: System, s: Concrete, t: Task): (a: Action)
    requires t.id in s.objs && t in s.cache && s.cache[t] < |s.objs[t.id]|
  {
    RespondToLabels(LabelMap(s.objs[t.id][s.cache[t]].labels), y.ring.name, t.shard)
  }

  ghost predicate ReconcilerStep(y: System, s: Concrete, a: Deed, s': Concrete)
  {
    match a
    case See(t, v) =>
      && t.shard in s.running && t.id in s.objs && v < |s.objs[t.id]| && (t in s.cache ==> s.cache[t] <= v)
      && s' == s.(cache := s.cache[t := v])
    case Work(t) =>
      MayReconcile(s, t) && Response(y, s, t) == DelegateReconcile && s' == s.(working := s.working + {t})
    case Finish(t) =>
      s' == s.(working := s.working - {t})
    case Yield(t, call) =>
      && MayReconcile(s, t) && Response(y, s, t) == Acknowledge && CallAllowed(s.leaseLog, call)
      && s' == AfterAcknowledgement(y, s, t, call)
    case _ => false
  }

  /** The patch carries the version of the cached copy. */
  function AfterAcknowledgement(y: System, s: Concrete, t: Task, call: Call): (s': Concrete)
    requires MayReconcile(s, t)
  {
    var last, keys := LatestMeta(s, t.id), {LabelShard(y.ring.name), LabelDrain(y.ring.name)};
    if s.cache[t] != |s.objs[t.id]| - 1 then s
    else
      var patched := last.(labels := WithoutLabels(last.labels, keys), resourceVersion := |s.objs[t.id]|);
      match Store(y, t.id, patched, call)
      case None => s
      case Some(m) => Appended(s, t.id, m)
  }

  ghost predicate ConcreteStep(y: System, h: Hypotheses, s: Concrete, a: Deed, s': Concrete)
  {
    || (a.Leases? && WellFormed(Abstract(y, s)) && LeaseStep(h, Abstract(y, s), a.step, Abstract(y, s'))
        && s'.objs == s.objs && s'.pending == s.pending)
    || WriterStep(y, s, a, s')
    || ResyncStep(y, h, s, a, s')
    || ReconcilerStep(y, s, a, s')
  }

  ghost predicate ConcreteNext(y: System, h: Hypotheses, s: Concrete, s': Concrete)
  {
    exists a :: ConcreteStep(y, h, s, a, s')
  }

  predicate ConcreteInit(s: Concrete)
  {
    && s.leaseLog == [map[]] && s.known == {} && s.running == {} && s.objs == map[]
    && s.cache == map[] && s.working == {} && s.ops == {} && s.pending == {}
  }

  ghost predicate IsConcreteRun(y: System, h: Hypotheses, run: seq<Concrete>)
  {
    && run != [] && ConcreteInit(run[0])
    && forall i :: 0 <= i < |run| - 1 ==> ConcreteNext(y, h, run[i], run[i + 1])
  }

  // ------------------------------------------------------------------ what is stored

  /** A shard label that is present names a shard, and a drain label that is present is the sharder's. */
  predicate Tidy(ring: ControllerRing, labels: Labels)
  {
    && (HasLabel(labels, LabelShard(ring.name)) ==> LabelOf(labels, LabelShard(ring.name)) != "")
    && (HasLabel(labels, LabelDrain(ring.name)) ==> LabelOf(labels, LabelDrain(ring.name)) == "true")
  }

  predicate StoredAs(y: System, id: string, m: ObjectMeta, rv: nat)
  {
    Fits(y.identity(id), m) && m.resourceVersion == rv && Tidy(y.ring, m.labels)
  }

  ghost predicate ObjectsSound(y: System, objs: Metas)
  {
    forall id :: id in objs ==>
      Names(y, id) && objs[id] != [] && forall i :: 0 <= i < |objs[id]| ==> StoredAs(y, id, objs[id][i], i)
  }

  /** The item addresses its object, and it only drains a version that has a shard. */
  ghost predicate ItemSound(y: System, objs: Metas, w: WorkItem)
  {
    var id := IdOf(w);
    && ItemFits(y.identity(id), w) && id in objs && w.resourceVersion < |objs[id]|
    && (w.drain ==> LabelOf(objs[id][w.resourceVersion].labels, LabelShard(y.ring.name)) != "")
  }

  ghost predicate PendingSound(y: System, objs: Metas, pending: set<Pending>)
  {
    forall p :: p in pending ==> ItemSound(y, objs, p.item)
  }

  ghost predicate Sound(y: System, s: Concrete)
  {
    s.leaseLog != [] && "" !in s.running && ObjectsSound(y, s.objs) && PendingSound(y, s.objs, s.pending)
  }

  /** A main object that can be stored has its identity as its key. */
  lemma KeyIsId(y: System, id: string, m: ObjectMeta)
    requires Names(y, id) && Fits(y.identity(id), m)
    ensures ForObject(m) == Ok(id) && id != ""
    ensures KeyFuncFor(y.ring, y.identity(id).gr) == Some(ByObject)
  {
  }

  /** The shard that admission assigns the object to; empty if it does not. */
  function ChoiceOf(y: System, id: string, m: ObjectMeta, call: Call): (choice: string)
    requires KeyFuncFor(y.ring, y.identity(id).gr).Some?
  {
    Assignment(y.hash, y.ring, m, y.identity(id).gr, call)
  }

  /** What admission chooses for a main object is what the webhook may choose in the protocol. */
  lemma ChoiceAllowed(y: System, s: Concrete, id: string, m: ObjectMeta, call: Call)
    requires Names(y, id) && Fits(y.identity(id), m) && CallAllowed(s.leaseLog, call)
    ensures KeyFuncFor(y.ring, y.identity(id).gr).Some?
    ensures WebhookMayChoose(ConfigOf(y), Abstract(y, s), id, ChoiceOf(y, id, m, call))
  {
    KeyIsId(y, id, m);
    var choice := ChoiceOf(y, id, m, call);
    if choice != "" {
      var c, list := ConfigOf(y), call.leases.value;
      assert CachedListing(Abstract(y, s), list);
      assert c.key(id) == id;
      assert choice == ShardFor(c.hash, list, call.now, c.key(id));
    }
  }

  /** A shard label is added only if there is none, which in the protocol is what admission may do. */
  lemma LabelAdmitted(ring: ControllerRing, labels: Labels, choice: string)
    requires Tidy(ring, labels) && (choice != "" ==> !HasLabel(labels, LabelShard(ring.name)))
    ensures var after := if choice == "" then labels else WithLabel(labels, LabelShard(ring.name), choice);
            Tidy(ring, after) && VersionOf(ring, after) == Admit(VersionOf(ring, labels), choice)
  {
    LabelsDistinct(ring.name, ring.name);
  }

  lemma StoreEffect(y: System, id: string, m: ObjectMeta, call: Call)
    requires Names(y, id) && Fits(y.identity(id), m) && Tidy(y.ring, m.labels) && Store(y, id, m, call).Some?
    ensures KeyFuncFor(y.ring, y.identity(id).gr).Some?
    ensures var stored, choice := Store(y, id, m, call).value, ChoiceOf(y, id, m, call);
            var key := LabelShard(y.ring.name);
            && (choice != "" ==> !HasLabel(m.labels, key))
            && stored == m.(labels := stored.labels) && Tidy(y.ring, stored.labels)
            && stored.labels == (if choice == "" then m.labels else WithLabel(m.labels, key, choice))
            && VersionOf(y.ring, stored.labels) == Admit(VersionOf(y.ring, m.labels), choice)
  {
    KeyIsId(y, id, m);
    AdmitWriteEffect(y.hash, y.ring, m, y.identity(id).gr, call);
    LabelAdmitted(y.ring, m.labels, ChoiceOf(y, id, m, call));
  }

  // ------------------------------------------------------------------ refinement of single steps

  /** The step is a step of the protocol, or the protocol does not see it. */
  ghost predicate Refines(y: System, h: Hypotheses, s: Concrete, s': Concrete)
  {
    Abstract(y, s') == Abstract(y, s) || Next(ConfigOf(y), h, Abstract(y, s), Abstract(y, s'))
  }

  lemma SoundWellFormed(y: System, s: Concrete)
    requires Sound(y, s)
    ensures WellFormed(Abstract(y, s))
  {
    forall id | id in Abstract(y, s).objs ensures Abstract(y, s).objs[id] != [] {
      assert s.objs[id] != [];
    }
  }

  /** Both sides agree on the latest version of an object. */
  lemma AbstractLatest(y: System, s: Concrete, id: string)
    requires Sound(y, s) && id in s.objs
    ensures s.objs[id] != [] && id in Abstract(y, s).objs && |Abstract(y, s).objs[id]| == |s.objs[id]|
    ensures LatestVersion(Abstract(y, s), id) == VersionOf(y.ring, LatestMeta(s, id).labels)
    ensures StoredAs(y, id, LatestMeta(s, id), |s.objs[id]| - 1)
  {
  }

  lemma AbstractAt(y: System, s: Concrete, id: string, rv: nat)
    requires Sound(y, s) && id in s.objs && rv < |s.objs[id]|
    ensures id in Abstract(y, s).objs && |Abstract(y, s).objs[id]| == |s.objs[id]|
    ensures Abstract(y, s).objs[id][rv] == VersionOf(y.ring, s.objs[id][rv].labels)
    ensures Names(y, id) && StoredAs(y, id, s.objs[id][rv], rv)
  {
  }

  lemma HistoryAppend(ring: ControllerRing, ms: seq<ObjectMeta>, m: ObjectMeta)
    ensures HistoryOf(ring, ms + [m]) == HistoryOf(ring, ms) + [VersionOf(ring, m.labels)]
  {
  }

  /** Appending a version appends what the protocol sees of it. */
  lemma AbstractAppend(y: System, s: Concrete, id: string, m: ObjectMeta)
    requires id in s.objs
    ensures id in Abstract(y, s).objs
    ensures Abstract(y, Appended(s, id, m)) == WithVersion(Abstract(y, s), id, VersionOf(y.ring, m.labels))
  {
    HistoryAppend(y.ring, s.objs[id], m);
    assert ObjectsOf(y.ring, s.objs[id := s.objs[id] + [m]])
        == ObjectsOf(y.ring, s.objs)[id := HistoryOf(y.ring, s.objs[id]) + [VersionOf(y.ring, m.labels)]];
  }

  lemma AppendSeen(y: System, s: Concrete, id: string, m: ObjectMeta)
    requires Sound(y, s) && id in s.objs && StoredAs(y, id, m, |s.objs[id]|)
    ensures Sound(y, Appended(s, id, m)) && id in Abstract(y, s).objs
    ensures Abstract(y, Appended(s, id, m)) == WithVersion(Abstract(y, s), id, VersionOf(y.ring, m.labels))
  {
    AbstractAppend(y, s, id, m);
    AppendSound(y, s.objs, id, m);
    PendingAppend(y, s.objs, s.pending, id, m);
  }

  lemma AppendSound(y: System, objs: Metas, id: string, m: ObjectMeta)
    requires ObjectsSound(y, objs) && id in objs && StoredAs(y, id, m, |objs[id]|)
    ensures ObjectsSound(y, objs[id := objs[id] + [m]])
  {
  }

  lemma PendingAppend(y: System, objs: Metas, pending: set<Pending>, id: string, m: ObjectMeta)
    requires PendingSound(y, objs, pending) && id in objs
    ensures PendingSound(y, objs[id := objs[id] + [m]], pending)
  {
  }

  // the steps of the protocol that the steps below amount to

  lemma CreateNext(c: Config, h: Hypotheses, a: State, id: string, choice: string)
    requires WellFormed(a) && id !in a.objs && WebhookMayChoose(c, a, id, choice)
    ensures Next(c, h, a, a.(objs := a.objs[id := [Admit(UNASSIGNED, choice)]]))
  {
    assert NextStep(c, h, a, CreateObject(id, choice), a.(objs := a.objs[id := [Admit(UNASSIGNED, choice)]]));
  }

  lemma UpdateNext(c: Config, h: Hypotheses, a: State, id: string, choice: string)
    requires WellFormed(a) && id in a.objs && WebhookMayChoose(c, a, id, choice)
    ensures Next(c, h, a, WithVersion(a, id, Admit(LatestVersion(a, id), choice)))
  {
    assert NextStep(c, h, a, UpdateObject(id, choice), WithVersion(a, id, Admit(LatestVersion(a, id), choice)));
  }

  lemma AbstractCreate(y: System, s: Concrete, id: string, m: ObjectMeta)
    requires id !in s.objs
    ensures ObjectsOf(y.ring, s.objs[id := [m]]) == ObjectsOf(y.ring, s.objs)[id := [VersionOf(y.ring, m.labels)]]
  {
    assert HistoryOf(y.ring, [m]) == [VersionOf(y.ring, m.labels)];
  }

  lemma CreateSound(y: System, s: Concrete, id: string, m: ObjectMeta)
    requires Sound(y, s) && id !in s.objs && Names(y, id) && StoredAs(y, id, m, 0)
    ensures Sound(y, s.(objs := s.objs[id := [m]]))
  {
  }

  lemma CreateRefines(y: System, h: Hypotheses, s: Concrete, id: string, m: ObjectMeta, call: Call, s': Concrete)
    requires Sound(y, s) && WriterStep(y, s, CreateMeta(id, m, call), s')
    ensures Sound(y, s') && Refines(y, h, s, s')
  {
    if Store(y, id, m, call).Some? {
      StoreEffect(y, id, m, call);
      ChoiceAllowed(y, s, id, m, call);
      SoundWellFormed(y, s);
      AbstractCreate(y, s, id, Store(y, id, m, call).value);
      CreateSound(y, s, id, Store(y, id, m, call).value);
      CreateNext(ConfigOf(y), h, Abstract(y, s), id, ChoiceOf(y, id, m, call));
    }
  }

  /** A user's update changes what the protocol sees only by way of admission. */
  lemma UpdatedVersion(y: System, id: string, last: Labels, m: ObjectMeta, call: Call)
    requires Names(y, id) && Fits(y.identity(id), m) && Tidy(y.ring, last) && KeepsRingLabels(y.ring, last, m.labels)
    requires Store(y, id, m, call).Some?
    ensures KeyFuncFor(y.ring, y.identity(id).gr).Some?
    ensures var stored := Store(y, id, m, call).value;
            && StoredAs(y, id, stored, m.resourceVersion)
            && VersionOf(y.ring, stored.labels) == Admit(VersionOf(y.ring, last), ChoiceOf(y, id, m, call))
  {
    StoreEffect(y, id, m, call);
  }

  lemma UpdateRefines(y: System, h: Hypotheses, s: Concrete, id: string, m: ObjectMeta, call: Call, s': Concrete)
    requires Sound(y, s) && WriterStep(y, s, UpdateMeta(id, m, call), s')
    ensures Sound(y, s') && Refines(y, h, s, s')
  {
    AbstractLatest(y, s, id);
    if Store(y, id, m, call).Some? {
      UpdatedVersion(y, id, LatestMeta(s, id).labels, m, call);
      ChoiceAllowed(y, s, id, m, call);
      SoundWellFormed(y, s);
      AppendSeen(y, s, id, Store(y, id, m, call).value);
      UpdateNext(ConfigOf(y), h, Abstract(y, s), id, ChoiceOf(y, id, m, call));
    }
  }

  // ------------------------------------------------------------------ executing work items

  lemma DropNext(c: Config, h: Hypotheses, a: State, item: Item)
    requires WellFormed(a) && item in a.pending && item.id in a.objs
    ensures Next(c, h, a, a.(pending := a.pending - {item}))
  {
    assert WebhookMayChoose(c, a, item.id, "");
    assert NextStep(c, h, a, ExecuteItem(item, ""), a.(pending := a.pending - {item}));
  }

  lemma PatchNext(c: Config, h: Hypotheses, a: State, item: Item, choice: string, v: Version)
    requires WellFormed(a) && item in a.pending && item.id in a.objs && WebhookMayChoose(c, a, item.id, choice)
    requires item.resourceVersion == Latest(a, item.id) && v != LatestVersion(a, item.id)
    requires v == if item.drain then LatestVersion(a, item.id).(drain := true) else Admit(UNASSIGNED, choice)
    ensures Next(c, h, a, WithVersion(a.(pending := a.pending - {item}), item.id, v))
  {
    var a' := WithVersion(a.(pending := a.pending - {item}), item.id, v);
    assert NextStep(c, h, a, ExecuteItem(item, choice), a');
  }

  /** Items of one object that look alike in the protocol are the same. */
  lemma ItemsRemoved(y: System, objs: Metas, pending: set<Pending>, p: Pending)
    requires PendingSound(y, objs, pending) && p in pending
    ensures ItemsOf(pending - {p}) == ItemsOf(pending) - {ItemOf(p)} && ItemOf(p) in ItemsOf(pending)
  {
    forall q | q in pending && ItemOf(q) == ItemOf(p) ensures q == p {
      assert ItemSound(y, objs, q.item) && ItemSound(y, objs, p.item);
      assert IdOf(q.item) == ItemOf(q).id && IdOf(p.item) == ItemOf(p).id;
    }
  }

  /** The lock of a work item: it is executed exactly if its object was not written since it was listed. */
  lemma LockIff(y: System, id: string, w: WorkItem, stored: ObjectMeta, rv: nat)
    requires ItemFits(y.identity(id), w) && StoredAs(y, id, stored, rv)
    ensures Executed(y.ring, w, stored).Some? <==> w.resourceVersion == rv
    ensures Executed(y.ring, w, stored).Some? ==>
              Executed(y.ring, w, stored).value == PatchedLabels(y.ring, w.drain, stored.labels)
  {
  }

  /** What the protocol sees of a drain or a movement, and that it sees every change. */
  lemma PatchSeen(ring: ControllerRing, drain: bool, labels: Labels, choice: string)
    requires Tidy(ring, labels) && (drain ==> LabelOf(labels, LabelShard(ring.name)) != "" && choice == "")
    ensures var patched := PatchedLabels(ring, drain, labels);
            var after := if choice == "" then patched else WithLabel(patched, LabelShard(ring.name), choice);
            && Tidy(ring, patched)
            && (drain ==> HasLabel(patched, LabelShard(ring.name)))
            && (!drain ==> !HasLabel(patched, LabelShard(ring.name)))
            && VersionOf(ring, after) ==
                 (if drain then VersionOf(ring, labels).(drain := true) else Admit(UNASSIGNED, choice))
            && (VersionOf(ring, after) == VersionOf(ring, labels) ==> after == labels)
  {
    LabelsDistinct(ring.name, ring.name);
    var patched := PatchedLabels(ring, drain, labels);
    var after := if choice == "" then patched else WithLabel(patched, LabelShard(ring.name), choice);
    if VersionOf(ring, after) == VersionOf(ring, labels) && labels.Some? {
      forall k ensures k in after.value <==> k in labels.value {}
      forall k | k in after.value ensures after.value[k] == labels.value[k] {}
      assert after.value == labels.value;
    }
  }

  /** The object as the patch of a drain or a movement makes it. */
  function Patched(ring: ControllerRing, drain: bool, m: ObjectMeta, rv: nat): (p: ObjectMeta)
  {
    m.(labels := PatchedLabels(ring, drain, m.labels), resourceVersion := rv)
  }

  /** The version that the execution of a work item stores. */
  lemma ExecutedVersion(y: System, id: string, stored: ObjectMeta, drain: bool, rv: nat, call: Call)
    requires Names(y, id) && Fits(y.identity(id), stored) && Tidy(y.ring, stored.labels)
    requires drain ==> LabelOf(stored.labels, LabelShard(y.ring.name)) != ""
    requires Store(y, id, Patched(y.ring, drain, stored, rv), call).Some?
    ensures KeyFuncFor(y.ring, y.identity(id).gr).Some?
    ensures var patched := Patched(y.ring, drain, stored, rv);
            var m, choice := Store(y, id, patched, call).value, ChoiceOf(y, id, patched, call);
            && StoredAs(y, id, m, rv)
            && VersionOf(y.ring, m.labels) ==
                 (if drain then VersionOf(y.ring, stored.labels).(drain := true) else Admit(UNASSIGNED, choice))
            && (VersionOf(y.ring, m.labels) == VersionOf(y.ring, stored.labels) ==> m.labels == stored.labels)
  {
    KeyIsId(y, id, stored);
    var patched := Patched(y.ring, drain, stored, rv);
    PatchSeen(y.ring, drain, stored.labels, "");
    StoreEffect(y, id, patched, call);
    PatchSeen(y.ring, drain, stored.labels, ChoiceOf(y, id, patched, call));
  }

  lemma DropSeen(y: System, h: Hypotheses, s: Concrete, p: Pending)
    requires Sound(y, s) && p in s.pending
    ensures var done := s.(pending := s.pending - {p});
            && Sound(y, done) && Refines(y, h, s, done)
            && Abstract(y, done) == Abstract(y, s).(pending := Abstract(y, s).pending - {ItemOf(p)})
            && ItemOf(p) in Abstract(y, s).pending
  {
    assert ItemSound(y, s.objs, p.item);
    ItemsRemoved(y, s.objs, s.pending, p);
    SoundWellFormed(y, s);
    DropNext(ConfigOf(y), h, Abstract(y, s), ItemOf(p));
  }

  /** What the protocol sees of a patched object is what it would write itself. */
  lemma WrittenSeen(y: System, s: Concrete, id: string, drain: bool, call: Call, m: ObjectMeta)
    requires Sound(y, s) && CallAllowed(s.leaseLog, call) && id in s.objs && s.objs[id] != []
    requires drain ==> LabelOf(LatestMeta(s, id).labels, LabelShard(y.ring.name)) != ""
    requires Store(y, id, Patched(y.ring, drain, LatestMeta(s, id), |s.objs[id]|), call) == Some(m)
    ensures id in Abstract(y, s).objs && Abstract(y, s).objs[id] != [] && StoredAs(y, id, m, |s.objs[id]|)
    ensures KeyFuncFor(y.ring, y.identity(id).gr).Some?
    ensures var last, v := LatestVersion(Abstract(y, s), id), VersionOf(y.ring, m.labels);
            var choice := ChoiceOf(y, id, Patched(y.ring, drain, LatestMeta(s, id), |s.objs[id]|), call);
            && (m.labels != LatestMeta(s, id).labels ==> v != last)
            && v == (if drain then last.(drain := true) else Admit(UNASSIGNED, choice))
            && WebhookMayChoose(ConfigOf(y), Abstract(y, s), id, choice)
  {
    var last := LatestMeta(s, id);
    assert Names(y, id) && StoredAs(y, id, last, |s.objs[id]| - 1);
    AbstractLatest(y, s, id);
    ExecutedVersion(y, id, last, drain, |s.objs[id]|, call);
    ChoiceAllowed(y, s, id, Patched(y.ring, drain, last, |s.objs[id]|), call);
  }

  /** An item for the latest version is that in the protocol, too. */
  lemma ItemLatest(y: System, s: Concrete, p: Pending)
    requires Sound(y, s) && p in s.pending
    requires IdOf(p.item) in s.objs && p.item.resourceVersion == |s.objs[IdOf(p.item)]| - 1
    ensures var id := IdOf(p.item);
            && WellFormed(Abstract(y, s)) && id in Abstract(y, s).objs
            && Latest(Abstract(y, s), id) == p.item.resourceVersion
            && (p.item.drain ==> LabelOf(LatestMeta(s, id).labels, LabelShard(y.ring.name)) != "")
  {
    assert ItemSound(y, s.objs, p.item);
    SoundWellFormed(y, s);
    AbstractLatest(y, s, IdOf(p.item));
  }

  /** A drain or a movement that changes a label of the latest version is the protocol's. */
  lemma ExecuteSeen(y: System, h: Hypotheses, s: Concrete, p: Pending, patched: ObjectMeta, call: Call, m: ObjectMeta)
    requires Sound(y, s) && p in s.pending && CallAllowed(s.leaseLog, call)
    requires IdOf(p.item) in s.objs && p.item.resourceVersion == |s.objs[IdOf(p.item)]| - 1
    requires patched == Patched(y.ring, p.item.drain, LatestMeta(s, IdOf(p.item)), |s.objs[IdOf(p.item)]|)
    requires Store(y, IdOf(p.item), patched, call) == Some(m) && m.labels != LatestMeta(s, IdOf(p.item)).labels
    ensures var s' := Appended(s.(pending := s.pending - {p}), IdOf(p.item), m);
            Sound(y, s') && Refines(y, h, s, s')
  {
    var id, a, item, v := IdOf(p.item), Abstract(y, s), ItemOf(p), VersionOf(y.ring, m.labels);
    ItemLatest(y, s, p);
    WrittenSeen(y, s, id, p.item.drain, call, m);
    DropSeen(y, h, s, p);
    AppendSeen(y, s.(pending := s.pending - {p}), id, m);
    PatchNext(ConfigOf(y), h, a, item, ChoiceOf(y, id, patched, call), v);
  }

  lemma ExecuteRefines(y: System, h: Hypotheses, s: Concrete, p: Pending, call: Call, s': Concrete)
    requires Sound(y, s) && WriterStep(y, s, Execute(p, call), s')
    ensures Sound(y, s') && Refines(y, h, s, s')
  {
    var id, stored := IdOf(p.item), LatestMeta(s, IdOf(p.item));
    var patched := Patched(y.ring, p.item.drain, stored, |s.objs[id]|);
    assert ItemSound(y, s.objs, p.item);
    assert StoredAs(y, id, stored, |s.objs[id]| - 1);
    LockIff(y, id, p.item, stored, |s.objs[id]| - 1);
    if s' == s.(pending := s.pending - {p}) {
      DropSeen(y, h, s, p);
    } else {
      ExecuteSeen(y, h, s, p, patched, call, Store(y, id, patched, call).value);
    }
  }

  // ------------------------------------------------------------------ resyncs

  lemma BeginNext(c: Config, h: Hypotheses, a: State, op: Op)
    requires WellFormed(a) && op.seen < |a.leaseLog| && Listing(op.leases, a.leaseLog[op.seen])
    ensures Next(c, h, a, a.(ops := a.ops + {op}))
  {
    assert NextStep(c, h, a, BeginResync(op), a.(ops := a.ops + {op}));
  }

  lemma DecideNext(c: Config, h: Hypotheses, a: State, op: Op, id: string, rv: nat, d: Decision)
    requires WellFormed(a) && op in a.ops && id in a.objs && rv < |a.objs[id]|
    requires d == DecisionFor(c, op, id, a.objs[id][rv].shard)
    requires h.snapshotFresh && a.objs[id][rv].shard != "" ==> Started(a.leaseLog, op, a.objs[id][rv].shard)
    ensures var item := Item(op, id, rv, d == Drain, a.objs[id][rv].shard);
            Next(c, h, a, if d == Nothing then a else a.(pending := a.pending + {item}))
  {
    var item := Item(op, id, rv, d == Drain, a.objs[id][rv].shard);
    assert NextStep(c, h, a, DecideItem(op, id, rv), if d == Nothing then a else a.(pending := a.pending + {item}));
  }

  /** The work item for a main object is what the protocol decides on its version. */
  lemma WorkIsDecision(y: System, op: Op, id: string, listed: ObjectMeta, rv: nat)
    requires Names(y, id) && StoredAs(y, id, listed, rv)
    ensures var current := LabelOf(listed.labels, LabelShard(y.ring.name));
            var d, r := DecisionFor(ConfigOf(y), op, id, current), WorkFor(y, op, id, listed);
            && (r.None? <==> d == Nothing)
            && (r.Some? ==>
                  && ItemOf(Pending(op, r.value)) == Item(op, id, rv, d == Drain, current)
                  && ItemFits(y.identity(id), r.value) && (r.value.drain ==> current != ""))
  {
    KeyIsId(y, id, listed);
    assert ConfigOf(y).key(id) == id;
  }

  lemma DecideSound(y: System, s: Concrete, op: Op, id: string, rv: nat, w: WorkItem)
    requires Sound(y, s) && id in s.objs && rv < |s.objs[id]| && WorkFor(y, op, id, s.objs[id][rv]) == Some(w)
    ensures Sound(y, s.(pending := s.pending + {Pending(op, w)}))
    ensures ItemsOf(s.pending + {Pending(op, w)}) == ItemsOf(s.pending) + {ItemOf(Pending(op, w))}
  {
    AbstractAt(y, s, id, rv);
    WorkIsDecision(y, op, id, s.objs[id][rv], rv);
    ItemAdded(s.pending, Pending(op, w));
    assert ItemSound(y, s.objs, w);
  }

  lemma DecideRefines(y: System, h: Hypotheses, s: Concrete, op: Op, id: string, rv: nat, s': Concrete)
    requires Sound(y, s) && ResyncStep(y, h, s, DecideMeta(op, id, rv), s')
    ensures Sound(y, s') && Refines(y, h, s, s')
  {
    var listed := s.objs[id][rv];
    var r := WorkFor(y, op, id, listed);
    if r.Some? {
      DecideSound(y, s, op, id, rv, r.value);
      SoundWellFormed(y, s);
      AbstractAt(y, s, id, rv);
      WorkIsDecision(y, op, id, listed, rv);
      var current := LabelOf(listed.labels, LabelShard(y.ring.name));
      DecideNext(ConfigOf(y), h, Abstract(y, s), op, id, rv, DecisionFor(ConfigOf(y), op, id, current));
    }
  }

  lemma ResyncRefines(y: System, h: Hypotheses, s: Concrete, a: Deed, s': Concrete)
    requires Sound(y, s) && ResyncStep(y, h, s, a, s')
    ensures Sound(y, s') && Refines(y, h, s, s')
  {
    match a
    case Begin(op) =>
      SoundWellFormed(y, s);
      BeginNext(ConfigOf(y), h, Abstract(y, s), op);
    case DecideMeta(op, id, rv) =>
      DecideRefines(y, h, s, op, id, rv, s');
  }

  lemma ItemAdded(pending: set<Pending>, p: Pending)
    ensures ItemsOf(pending + {p}) == ItemsOf(pending) + {ItemOf(p)}
  {
  }

  // ------------------------------------------------------------------ shards

  lemma ShardNext(c: Config, h: Hypotheses, a: State, step: Step, a': State)
    requires WellFormed(a) && ShardStep(c, a, step, a')
    ensures Next(c, h, a, a')
  {
    assert NextStep(c, h, a, step, a');
  }

  /** The reconciler's response to the cached labels is the protocol's response to the cached version. */
  lemma ResponseSeen(y: System, s: Concrete, t: Task)
    requires Sound(y, s) && MayReconcile(s, t)
    ensures CanReconcile(Abstract(y, s), t) && CachedResponse(Abstract(y, s), t) == Response(y, s, t)
  {
    ResponseIff(LabelMap(s.objs[t.id][s.cache[t]].labels), y.ring.name, t.shard);
  }

  lemma ReconcilerRefines(y: System, h: Hypotheses, s: Concrete, a: Deed, s': Concrete)
    requires Sound(y, s) && ReconcilerStep(y, s, a, s')
    ensures Sound(y, s') && Refines(y, h, s, s')
  {
    SoundWellFormed(y, s);
    var c, b, b' := ConfigOf(y), Abstract(y, s), Abstract(y, s');
    match a
    case See(t, v) => ShardNext(c, h, b, Observe(t, v), b');
    case Work(t) =>
      ResponseSeen(y, s, t);
      ShardNext(c, h, b, StartWork(t), b');
    case Finish(t) => ShardNext(c, h, b, FinishWork(t), b');
    case Yield(t, call) => YieldRefines(y, h, s, t, call, s');
  }

  lemma AcknowledgeNext(c: Config, h: Hypotheses, a: State, t: Task, choice: string)
    requires WellFormed(a) && CanReconcile(a, t) && CachedResponse(a, t) == Acknowledge
    requires WebhookMayChoose(c, a, t.id, choice) && a.cache[t] == Latest(a, t.id)
    ensures Next(c, h, a, WithVersion(a, t.id, Admit(UNASSIGNED, choice)))
  {
    ShardNext(c, h, a, AcknowledgeDrain(t, choice), WithVersion(a, t.id, Admit(UNASSIGNED, choice)));
  }

  lemma YieldRefines(y: System, h: Hypotheses, s: Concrete, t: Task, call: Call, s': Concrete)
    requires Sound(y, s) && ReconcilerStep(y, s, Yield(t, call), s')
    ensures Sound(y, s') && Refines(y, h, s, s')
  {
    var patched := Patched(y.ring, false, LatestMeta(s, t.id), |s.objs[t.id]|);
    if s.cache[t] == |s.objs[t.id]| - 1 && Store(y, t.id, patched, call).Some? {
      YieldSeen(y, h, s, t, patched, call);
    }
  }

  lemma YieldSeen(y: System, h: Hypotheses, s: Concrete, t: Task, patched: ObjectMeta, call: Call)
    requires Sound(y, s) && MayReconcile(s, t) && Response(y, s, t) == Acknowledge && CallAllowed(s.leaseLog, call)
    requires s.cache[t] == |s.objs[t.id]| - 1 && patched == Patched(y.ring, false, LatestMeta(s, t.id), |s.objs[t.id]|)
    requires Store(y, t.id, patched, call).Some?
    ensures var s' := Appended(s, t.id, Store(y, t.id, patched, call).value);
            Sound(y, s') && Refines(y, h, s, s')
  {
    SoundWellFormed(y, s);
    ResponseSeen(y, s, t);
    AbstractLatest(y, s, t.id);
    WrittenSeen(y, s, t.id, false, call, Store(y, t.id, patched, call).value);
    AppendSeen(y, s, t.id, Store(y, t.id, patched, call).value);
    AcknowledgeNext(ConfigOf(y), h, Abstract(y, s), t, ChoiceOf(y, t.id, patched, call));
  }

  // ------------------------------------------------------------------ whole runs

  lemma LeasesRefine(y: System, h: Hypotheses, s: Concrete, step: Step, s': Concrete)
    requires Sound(y, s) && WellFormed(Abstract(y, s)) && LeaseStep(h, Abstract(y, s), step, Abstract(y, s'))
    requires s'.objs == s.objs && s'.pending == s.pending
    ensures Sound(y, s') && Refines(y, h, s, s')
  {
    assert NextStep(ConfigOf(y), h, Abstract(y, s), step, Abstract(y, s'));
  }

  /** Every step of the program is a step of the protocol, or the protocol does not see it. */
  lemma StepRefines(y: System, h: Hypotheses, s: Concrete, s': Concrete)
    requires Sound(y, s) && ConcreteNext(y, h, s, s')
    ensures Sound(y, s') && Refines(y, h, s, s')
  {
    var a :| ConcreteStep(y, h, s, a, s');
    if WriterStep(y, s, a, s') {
      match a
      case CreateMeta(id, m, call) => CreateRefines(y, h, s, id, m, call, s');
      case UpdateMeta(id, m, call) => UpdateRefines(y, h, s, id, m, call, s');
      case Execute(p, call) => ExecuteRefines(y, h, s, p, call, s');
    } else if ResyncStep(y, h, s, a, s') {
      ResyncRefines(y, h, s, a, s');
    } else if ReconcilerStep(y, s, a, s') {
      ReconcilerRefines(y, h, s, a, s');
    } else {
      LeasesRefine(y, h, s, a.step, s');
    }
  }

  lemma {:induction false} RunRefines(y: System, run: seq<Concrete>, i: nat)
    requires IsConcreteRun(y, ASSUMED, run) && i < |run|
    ensures Sound(y, run[i]) && Invariant(ConfigOf(y), Abstract(y, run[i]))
  {
    if i == 0 {
      InitSound(y, run[0]);
    } else {
      RunRefines(y, run, i - 1);
      assert ConcreteNext(y, ASSUMED, run[i - 1], run[i - 1 + 1]);
      StepRefines(y, ASSUMED, run[i - 1], run[i]);
      if Abstract(y, run[i]) != Abstract(y, run[i - 1]) {
        StepKeeps(ConfigOf(y), Abstract(y, run[i - 1]), Abstract(y, run[i]));
      }
    }
  }

  lemma InitSound(y: System, s: Concrete)
    requires ConcreteInit(s)
    ensures Sound(y, s) && Invariant(ConfigOf(y), Abstract(y, s))
  {
    assert Abstract(y, s).objs == map[] && Abstract(y, s).pending == {};
  }

  /**
   Mutual exclusion for the program's own functions: in every run under the hypotheses, at most
   one shard works on an object, and it is the one that the stored object's shard label names.
   */
  lemma OneShardWorks(y: System, run: seq<Concrete>, i: nat, t: Task, u: Task)
    requires IsConcreteRun(y, ASSUMED, run) && i < |run|
    requires t in run[i].working && u in run[i].working && t.id == u.id
    ensures t.shard == u.shard && t.shard in run[i].running && t.id in run[i].objs && run[i].objs[t.id] != []
    ensures AssignedTo(LabelMap(LatestMeta(run[i], t.id).labels), y.ring.name, t.shard)
  {
    var s := run[i];
    RunRefines(y, run, i);
    assert CarriesLabel(Abstract(y, s).objs, s.running, t) && CarriesLabel(Abstract(y, s).objs, s.running, u);
    AbstractLatest(y, s, t.id);
  }
}
