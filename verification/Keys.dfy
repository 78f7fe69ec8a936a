/** Hash keys of objects: an object's own key, and the key of the object that controls it. */
module Keys {
  import opened Prelude
  import opened HashRing

  datatype OwnerReference = OwnerReference(apiVersion: string, kind: string, name: string, controller: Option<bool>)

  datatype ObjectMeta = ObjectMeta(
    group: string,
    version: string,
    kind: string,
    namespace: string,
    name: string,
    generateName: string,
    ownerReferences: seq<OwnerReference>,
    labels: Option<map<string, string>>,
    resourceVersion: nat)

  datatype KeyError =
    | EmptyKind
    | GenerateNameUnsupported
    | EmptyName
    | EmptyControllerAPIVersion
    | EmptyControllerKind
    | EmptyControllerName
    | InvalidControllerAPIVersion

  function ForMetadata(group: string, kind: string, namespace: string, name: string): (key: string)
  {
    group + "/" + kind + "/" + namespace + "/" + name
  }

  function ForObject(obj: ObjectMeta): (r: Result<string, KeyError>)
  {
    if obj.group == "" && obj.version == "" && obj.kind == "" then Err(EmptyKind)
    else if obj.name == "" then
      if obj.generateName != "" then Err(GenerateNameUnsupported) else Err(EmptyName)
    else Ok(ForMetadata(obj.group, obj.kind, obj.namespace, obj.name))
  }

  /** The first owner reference that is marked as the controller. */
  function ControllerOf(refs: seq<OwnerReference>): (r: Option<OwnerReference>)
  {
    if refs == [] then None
    else if refs[0].controller == Some(true) then Some(refs[0])
    else ControllerOf(refs[1..])
  }

  function SlashCount(s: string): (n: nat)
  {
    if s == [] then 0 else (if s[0] == '/' then 1 else 0) + SlashCount(s[1..])
  }

  /** The part before the first slash; everything if there is none. */
  function BeforeSlash(s: string): (r: string)
  {
    if s == [] || s[0] == '/' then [] else [s[0]] + BeforeSlash(s[1..])
  }

  function AfterSlash(s: string): (r: string)
  {
    if s == [] then [] else if s[0] == '/' then s[1..] else AfterSlash(s[1..])
  }

  datatype GroupVersion = GroupVersion(group: string, version: string)

  /** "group/version", or only "version" for the core group. */
  function ParseGroupVersion(s: string): (r: Option<GroupVersion>)
  {
    if s == "" || s == "/" then Some(GroupVersion("", ""))
    else if SlashCount(s) == 0 then Some(GroupVersion("", s))
    else if SlashCount(s) == 1 then Some(GroupVersion(BeforeSlash(s), AfterSlash(s)))
    else None
  }

  /** The empty key means that the object has no controller and is not assigned. */
  function ForController(obj: ObjectMeta): (r: Result<string, KeyError>)
  {
    match ControllerOf(obj.ownerReferences)
    case None => Ok("")
    case Some(ref) =>
      if ref.apiVersion == "" then Err(EmptyControllerAPIVersion)
      else if ref.kind == "" then Err(EmptyControllerKind)
      else if ref.name == "" then Err(EmptyControllerName)
      else match ParseGroupVersion(ref.apiVersion)
        case None => Err(InvalidControllerAPIVersion)
        case Some(gv) => Ok(ForMetadata(gv.group, ref.kind, obj.namespace, ref.name))
  }

  // ------------------------------------------------------------------ injectivity

  predicate SlashFree(s: string)
  {
    '/' !in s
  }

  /** A slash-free head can be told from what follows the slash. */
  lemma SplitUnique(a: string, x: string, b: string, y: string)
    requires SlashFree(a) && SlashFree(b)
    requires a + "/" + x == b + "/" + y
    ensures a == b && x == y
  {
    var s := a + "/" + x;
    assert s[|a|] == '/' && s[|b|] == '/';
    assert forall i :: 0 <= i < |b| ==> b[i] == s[i] && b[i] != '/';
    assert forall i :: 0 <= i < |a| ==> a[i] == s[i] && a[i] != '/';
    assert a == s[..|a|] && b == s[..|b|];
    assert x == s[|a| + 1..] && y == s[|b| + 1..];
  }

  /** Group, kind and namespace without slashes can be read off a key, hence so can the name. */
  lemma KeyInjective(g: string, k: string, ns: string, n: string, g': string, k': string, ns': string, n': string)
    requires SlashFree(g) && SlashFree(k) && SlashFree(ns) && SlashFree(g') && SlashFree(k') && SlashFree(ns')
    requires ForMetadata(g, k, ns, n) == ForMetadata(g', k', ns', n')
    ensures g == g' && k == k' && ns == ns' && n == n'
  {
    var x, x' := k + "/" + ns + "/" + n, k' + "/" + ns' + "/" + n';
    assert ForMetadata(g, k, ns, n) == g + "/" + x;
    assert ForMetadata(g', k', ns', n') == g' + "/" + x';
    SplitUnique(g, x, g', x');
    assert x == k + "/" + (ns + "/" + n) && x' == k' + "/" + (ns' + "/" + n');
    SplitUnique(k, ns + "/" + n, k', ns' + "/" + n');
    SplitUnique(ns, n, ns', n');
  }

  // ------------------------------------------------------------------ co-location

  lemma {:induction false} SlashFreeCount(s: string)
    ensures SlashFree(s) <==> SlashCount(s) == 0
  {
    if s != [] {
      SlashFreeCount(s[1..]);
      assert s == [s[0]] + s[1..];
    }
  }

  lemma {:induction false} SplitAtSlash(a: string, b: string)
    requires SlashFree(a) && SlashFree(b)
    ensures SlashCount(a + "/" + b) == 1
    ensures BeforeSlash(a + "/" + b) == a && AfterSlash(a + "/" + b) == b
  {
    var s := a + "/" + b;
    if a == [] {
      assert s[0] == '/' && s[1..] == b;
      SlashFreeCount(b);
    } else {
      assert s[0] == a[0] && s[1..] == a[1..] + "/" + b;
      SplitAtSlash(a[1..], b);
    }
  }

  /** How an owner reference names an API version of a group. */
  function APIVersion(group: string, version: string): (s: string)
  {
    if group == "" then version else group + "/" + version
  }

  lemma ParseAPIVersion(group: string, version: string)
    requires SlashFree(group) && SlashFree(version) && version != ""
    ensures ParseGroupVersion(APIVersion(group, version)) == Some(GroupVersion(group, version))
  {
    SlashFreeCount(version);
    if group != "" {
      SplitAtSlash(group, version);
    } else {
      var slash := "/";
      assert slash[0] == '/';
    }
  }

  predicate RefersTo(ref: OwnerReference, owner: ObjectMeta, version: string)
  {
    ref.apiVersion == APIVersion(owner.group, version) && ref.kind == owner.kind && ref.name == owner.name
  }

  // ------------------------------------------------------------------ which objects have which key

  predicate IsController(ref: OwnerReference)
  {
    ref.controller == Some(true)
  }

  /** The i-th reference is the controller: it is marked, and none before it is. */
  predicate ControllerAt(refs: seq<OwnerReference>, i: int)
  {
    0 <= i < |refs| && IsController(refs[i]) && forall j :: 0 <= j < i ==> !IsController(refs[j])
  }

  lemma {:induction false} ControllerOfAt(refs: seq<OwnerReference>, i: int)
    requires ControllerAt(refs, i)
    ensures ControllerOf(refs) == Some(refs[i])
    decreases i
  {
    if i > 0 {
      ControllerOfAt(refs[1..], i - 1);
    }
  }

  lemma {:induction false} ControllerOfNone(refs: seq<OwnerReference>)
    ensures ControllerOf(refs) == None <==> forall j :: 0 <= j < |refs| ==> !IsController(refs[j])
    ensures ControllerOf(refs).Some? ==> exists i :: ControllerAt(refs, i)
  {
    if refs != [] {
      ControllerOfNone(refs[1..]);
      if IsController(refs[0]) {
        assert ControllerAt(refs, 0);
      } else {
        assert forall j :: 0 < j < |refs| ==> refs[j] == refs[1..][j - 1];
        if i :| ControllerAt(refs[1..], i) {
          assert forall j :: 0 < j <= i + 1 ==> refs[j] == refs[1..][j - 1];
          assert ControllerAt(refs, i + 1);
        }
      }
    }
  }

  /** An object is not to be assigned, without this being an error, exactly if none of its references is marked. */
  lemma UncontrolledIff(obj: ObjectMeta)
    ensures ForController(obj) == Ok("") <==>
            forall j :: 0 <= j < |obj.ownerReferences| ==> !IsController(obj.ownerReferences[j])
    ensures ForObject(obj) != Ok("")
  {
    ControllerOfNone(obj.ownerReferences);
  }

  /** A reference whose API version has at most one slash and no empty field can be turned into a key. */
  predicate UsableReference(ref: OwnerReference)
  {
    && ref.apiVersion != "" && ref.kind != "" && ref.name != ""
    && forall i, j :: 0 <= i < j < |ref.apiVersion| ==> ref.apiVersion[i] != '/' || ref.apiVersion[j] != '/'
  }

  lemma {:induction false} SlashesIff(s: string)
    ensures SlashCount(s) <= 1 <==> forall i, j :: 0 <= i < j < |s| ==> s[i] != '/' || s[j] != '/'
  {
    if s != [] {
      SlashesIff(s[1..]);
      SlashFreeCount(s[1..]);
      assert forall i :: 0 < i < |s| ==> s[i] == s[1..][i - 1];
      if i, j :| 0 <= i < j < |s[1..]| && s[1..][i] == '/' && s[1..][j] == '/' {
        assert s[i + 1] == '/' && s[j + 1] == '/';
      }
      if s[0] == '/' && '/' in s[1..] {
        var j :| 0 <= j < |s[1..]| && s[1..][j] == '/';
        assert s[0] == '/' && s[j + 1] == '/';
      }
    }
  }

  /** Which objects have no valid key of their own, and which have no valid key of their controller. */
  lemma KeyErrorIff(obj: ObjectMeta)
    ensures ForObject(obj).Err? <==> obj.name == "" || (obj.group == "" && obj.version == "" && obj.kind == "")
    ensures ForController(obj).Err? <==>
            exists i :: ControllerAt(obj.ownerReferences, i) && !UsableReference(obj.ownerReferences[i])
  {
    var refs := obj.ownerReferences;
    ControllerOfNone(refs);
    if ControllerOf(refs).Some? {
      var i :| ControllerAt(refs, i);
      ControllerOfAt(refs, i);
      SlashesIff(refs[i].apiVersion);
      assert forall k :: ControllerAt(refs, k) ==> k == i;
    }
  }

  // ------------------------------------------------------------------ owners

  /**
   An object whose controller reference names an owner in its own namespace has the owner's
   key, even if the reference uses another API version of the owner's group. So every ring
   puts both on the same shard.
   */
  lemma OwnerColocation(hash: HashFunc, count: nat, nodes: seq<string>,
                        obj: ObjectMeta, i: int, owner: ObjectMeta, version: string)
    requires ControllerAt(obj.ownerReferences, i) && RefersTo(obj.ownerReferences[i], owner, version)
    requires obj.namespace == owner.namespace
    requires SlashFree(owner.group) && SlashFree(version) && version != ""
    requires owner.kind != "" && owner.name != ""
    ensures ForObject(owner).Ok? && ForController(obj) == ForObject(owner)
    ensures ForObject(owner).value == owner.group + "/" + owner.kind + "/" + owner.namespace + "/" + owner.name
    ensures ForController(obj).Ok?
            && Place(hash, count, nodes, ForController(obj).value) == Place(hash, count, nodes, ForObject(owner).value)
  {
    ControllerOfAt(obj.ownerReferences, i);
    ParseAPIVersion(owner.group, version);
  }
}
