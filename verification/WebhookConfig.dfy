/**
 The webhook configuration of a ring. Its request path names the ring, and the sharder reads the
 ring's name back from the path of each request.
 */
module WebhookConfig {
  import opened Prelude
  import opened Resources
  import opened JsonPatch
  import opened Webhook

  // ------------------------------------------------------------------ request paths

  /** The elements of the request path before the name of the ring. */
  const ROOT: string := "webhooks"
  const HANDLER: string := "sharder"
  const RINGS: string := "controllerring"

  /** What comes before the name: "/webhooks/sharder/controllerring/". */
  const PATH_PREFIX: string := "/" + Below("")

  function Below(name: string): (path: string)
  {
    ROOT + "/" + (HANDLER + "/" + (RINGS + "/" + name))
  }

  /** The opposite of splitting at slashes. */
  function Unsplit(es: seq<string>): (s: string)
    requires es != []
  {
    if |es| == 1 then es[0] else es[0] + "/" + Unsplit(es[1..])
  }

  /** An element of a path that stands for itself. */
  predicate IsPlain(e: string)
  {
    e != "" && e != "." && e != ".."
  }

  /** The elements of a rooted path after "." and ".." are resolved; ".." at the root stays there. */
  function Resolve(es: seq<string>): (r: seq<string>)
    ensures forall e :: e in r ==> e in es && IsPlain(e)
  {
    if es == [] then []
    else
      SnocSplit(es);
      var before, e := Resolve(es[..|es| - 1]), es[|es| - 1];
      if IsPlain(e) then before + [e]
      else if e == ".." && before != [] then before[..|before| - 1]
      else before
  }

  /** The rooted path with the given elements. */
  function Rooted(es: seq<string>): (path: string)
  {
    if es == [] then "/" else "/" + Unsplit(es)
  }

  /** The shortest equivalent of a rooted path. */
  function Clean(path: string): (r: string)
    requires path != "" && path[0] == '/'
  {
    Rooted(Resolve(Split(path[1..])))
  }

  /** Empty elements are not joined. */
  function JoinPath(prefix: string, name: string): (r: string)
    requires prefix != "" && prefix[0] == '/'
  {
    Clean(if name == "" then prefix else prefix + "/" + name)
  }

  function WebhookPath(ring: string): (path: string)
  {
    JoinPath(PATH_PREFIX, ring)
  }

  function RingForPath(path: string): (r: Result<string, string>)
  {
    if !(PATH_PREFIX <= path) then Err("unexpected request path: " + path)
    else if path[|PATH_PREFIX|..] == "" then Err("unexpected request path: " + path)
    else Ok(path[|PATH_PREFIX|..])
  }

  lemma RingForPathIff(path: string, name: string)
    ensures RingForPath(path) == Ok(name) <==> path == PATH_PREFIX + name && name != ""
  {
    if PATH_PREFIX <= path {
      assert path == PATH_PREFIX + path[|PATH_PREFIX|..];
    }
    if path == PATH_PREFIX + name {
      assert path[|PATH_PREFIX|..] == name;
    }
  }

  lemma {:induction false} SplitParts(s: string)
    ensures forall e :: e in Split(s) ==> '/' !in e
  {
    if s != "" {
      SplitParts(s[1..]);
    }
  }

  lemma {:induction false} UnsplitSplit(s: string)
    ensures Unsplit(Split(s)) == s
  {
    if s != "" {
      UnsplitSplit(s[1..]);
      var rest := Split(s[1..]);
      assert Split(s)[1..] == if s[0] == '/' then rest else rest[1..];
      if s[0] != '/' && |rest| > 1 {
        assert [s[0]] + (rest[0] + "/" + Unsplit(rest[1..])) == [s[0]] + rest[0] + "/" + Unsplit(rest[1..]);
      }
      assert s == [s[0]] + s[1..];
    }
  }

  lemma {:induction false} SplitUnsplit(es: seq<string>)
    requires es != [] && forall e :: e in es ==> '/' !in e
    ensures Split(Unsplit(es)) == es
  {
    SplitSlashFree(es[0]);
    if |es| > 1 {
      SplitUnsplit(es[1..]);
      SplitAt(es[0], Unsplit(es[1..]));
    }
  }

  /** Elements that stand for themselves stay. */
  lemma {:induction false} ResolvePlain(pre: seq<string>, es: seq<string>)
    requires forall e :: e in es ==> IsPlain(e)
    ensures Resolve(pre + es) == Resolve(pre) + es
  {
    if es == [] {
      assert pre + es == pre;
    } else {
      var init, last := es[..|es| - 1], es[|es| - 1];
      assert (pre + es)[..|pre + es| - 1] == pre + init;
      ResolvePlain(pre, init);
      ConcatAssoc(Resolve(pre), init, [last]);
      SnocSplit(es);
    }
  }

  lemma SplitBelow(name: string)
    ensures PATH_PREFIX + name == "/" + Below(name)
    ensures Split(Below(name)) == [ROOT, HANDLER, RINGS] + Split(name)
  {
    SplitThree(ROOT, HANDLER, RINGS, name);
  }

  lemma SplitThree(a: string, b: string, c: string, name: string)
    requires '/' !in a && '/' !in b && '/' !in c
    ensures Split(a + "/" + (b + "/" + (c + "/" + name))) == [a, b, c] + Split(name)
  {
    SplitAt(c, name);
    SplitAt(b, c + "/" + name);
    SplitAt(a, b + "/" + (c + "/" + name));
  }

  /** All elements of the name stand for themselves. */
  predicate IsPlainName(name: string)
  {
    forall e :: e in Split(name) ==> IsPlain(e)
  }

  lemma UnsplitIff(es: seq<string>, s: string)
    requires es != [] && forall e :: e in es ==> '/' !in e
    ensures Unsplit(es) == s <==> es == Split(s)
  {
    SplitUnsplit(es);
    UnsplitSplit(s);
  }

  /** Below a directory, exactly the plain names are left as they are. */
  lemma ResolveIff(dir: seq<string>, name: string)
    requires forall e :: e in dir ==> IsPlain(e)
    ensures Resolve(dir + ([""] + Split(name))) == dir + Split(name) <==> IsPlainName(name)
  {
    ConcatAssoc(dir, [""], Split(name));
    if IsPlainName(name) {
      ResolvePlain([], dir);
      assert [] + dir == dir && (dir + [""])[..|dir|] == dir;
      ResolvePlain(dir + [""], Split(name));
    }
  }

  lemma JoinedPath(ring: string)
    requires ring != ""
    ensures WebhookPath(ring) == Rooted(Resolve([ROOT, HANDLER, RINGS] + ([""] + Split(ring))))
  {
    SplitBelow("/" + ring);
    ConcatAssoc(PATH_PREFIX, "/", ring);
    assert (PATH_PREFIX + "/" + ring)[1..] == Below("/" + ring);
    assert Split("/" + ring) == [""] + Split(ring);
  }

  lemma WebhookPathIff(ring: string)
    requires ring != ""
    ensures WebhookPath(ring) == PATH_PREFIX + ring <==> IsPlainName(ring)
  {
    var dir := [ROOT, HANDLER, RINGS];
    SplitBelow(ring);
    SplitBelow("/" + ring);
    JoinedPath(ring);
    ResolveIff(dir, ring);
    SplitParts(Below("/" + ring));
    PathIs(Resolve(dir + ([""] + Split(ring))), Below(ring));
  }

  lemma PathIs(es: seq<string>, s: string)
    requires s != "" && forall e :: e in es ==> '/' !in e
    ensures Rooted(es) == "/" + s <==> es == Split(s)
  {
    if es != [] {
      UnsplitIff(es, s);
      assert ("/" + Unsplit(es))[1..] == Unsplit(es) && ("/" + s)[1..] == s;
    } else {
      assert |"/" + s| > 1;
    }
  }

  /**
   The sharder reads back the ring's name from the webhook's path exactly if the name stands for
   itself: it is not empty, and none of its elements is empty, "." or "..".
   */
  lemma PathRoundTripIff(ring: string)
    ensures RingForPath(WebhookPath(ring)) == Ok(ring) <==> IsPlainName(ring)
  {
    RingForPathIff(WebhookPath(ring), ring);
    if ring != "" {
      WebhookPathIff(ring);
    } else {
      assert "" in Split(ring) && !IsPlain("");
    }
  }

  /** Different rings have different paths. */
  lemma PathsDistinct(r1: string, r2: string)
    requires IsPlainName(r1) && IsPlainName(r2)
    ensures WebhookPath(r1) == WebhookPath(r2) <==> r1 == r2
  {
    PathRoundTripIff(r1);
    PathRoundTripIff(r2);
  }

  /** What comes before in a path matters only as far as it is resolved. */
  lemma {:induction false} ResolveSuffix(a: seq<string>, b: seq<string>, es: seq<string>)
    requires Resolve(a) == Resolve(b)
    ensures Resolve(a + es) == Resolve(b + es)
  {
    if es == [] {
      assert a + es == a && b + es == b;
    } else {
      var init := es[..|es| - 1];
      assert (a + es)[..|a + es| - 1] == a + init && (b + es)[..|b + es| - 1] == b + init;
      ResolveSuffix(a, b, init);
    }
  }

  /** An element is undone by "..", and "." does nothing. */
  lemma ResolveDots(es: seq<string>, e: string)
    requires IsPlain(e)
    ensures Resolve(es + [e, ".."]) == Resolve(es) && Resolve(es + ["."]) == Resolve(es)
  {
    var up := es + [e, ".."];
    assert up[..|up| - 1] == es + [e] && (es + [e])[..|es|] == es && (es + ["."])[..|es|] == es;
    assert Resolve(es + [e]) == Resolve(es) + [e];
  }

  /** For example, a ring named "x/../y" shares its path with a ring named "y". */
  lemma DotsShareThePath(x: string, y: string)
    requires '/' !in x && IsPlain(x) && y != ""
    ensures WebhookPath(x + "/../" + y) == WebhookPath(y)
  {
    var name := x + "/../" + y;
    JoinedPath(name);
    JoinedPath(y);
    SplitDots(x, y);
    DotsResolved([ROOT, HANDLER, RINGS], x, Split(y));
  }

  lemma SplitDots(x: string, y: string)
    requires '/' !in x
    ensures Split(x + "/../" + y) == [x, ".."] + Split(y)
  {
    SplitAt(x, ".." + "/" + y);
    SplitAt("..", y);
    assert x + "/../" + y == x + "/" + (".." + "/" + y);
  }

  lemma DotsResolved(dir: seq<string>, x: string, es: seq<string>)
    requires IsPlain(x)
    ensures Resolve(dir + ([""] + ([x, ".."] + es))) == Resolve(dir + ([""] + es))
  {
    var base := dir + [""];
    ResolveDots(base, x);
    ResolveSuffix(base + [x, ".."], base, es);
    assert dir + ([""] + ([x, ".."] + es)) == (base + [x, ".."]) + es;
    assert dir + ([""] + es) == base + es;
  }

  // ------------------------------------------------------------------ the webhook

  datatype Service = Service(namespace: string, name: string, path: Option<string>)

  datatype ClientConfig = ClientConfig(service: Option<Service>, url: Option<string>)

  /** The sharder's configuration for all rings. */
  datatype Defaults = Defaults(client: ClientConfig, namespaceSelector: Option<LabelSelector>)

  datatype FailurePolicy = Ignore | Fail

  datatype MutatingWebhook = MutatingWebhook(
    client: ClientConfig,
    namespaceSelector: Option<LabelSelector>,
    objectSelector: LabelSelector,
    failurePolicy: FailurePolicy,
    rules: seq<Rule>)

  /** The path follows the URL, of which a slash at the end is dropped. */
  ghost predicate WithoutSlash(url: string, joined: string, path: string)
  {
    exists base :: joined == base + path
                   && (base + "/" == url || (base == url && (base == "" || base[|base| - 1] != '/')))
  }

  lemma TrimSlashMeaning(url: string, path: string)
    ensures WithoutSlash(url, TrimSlash(url) + path, path)
  {
    var base := TrimSlash(url);
    if base != url {
      SnocSplit(url);
    }
  }

  function TrimSlash(url: string): (r: string)
  {
    if url != "" && url[|url| - 1] == '/' then url[..|url| - 1] else url
  }

  predicate Meets(labels: map<string, string>, r: Requirement)
  {
    match r.operator
    case In => r.key in labels && labels[r.key] in r.values
    case NotIn => r.key !in labels || labels[r.key] !in r.values
    case Exists => r.key in labels
    case DoesNotExist => r.key !in labels
  }

  /** How the API server applies a label selector. */
  predicate Selects(s: LabelSelector, labels: Labels)
  {
    var m := if labels.Some? then labels.value else map[];
    && (forall k :: k in s.matchLabels ==> k in m && m[k] == s.matchLabels[k])
    && forall r :: r in s.matchExpressions ==> Meets(m, r)
  }

  function ObjectSelector(ring: ControllerRing): (s: LabelSelector)
  {
    LabelSelector(map[], [Requirement(LabelShard(ring.name), DoesNotExist, {})])
  }

  /** The API server calls the webhook for exactly the objects without the shard label. */
  lemma SelectorIff(ring: ControllerRing, labels: Labels)
    ensures Selects(ObjectSelector(ring), labels) <==> !HasLabel(labels, LabelShard(ring.name))
  {
    var s := ObjectSelector(ring);
    var r := s.matchExpressions[0];
    assert r in s.matchExpressions;
    if !HasLabel(labels, LabelShard(ring.name)) {
      assert forall q :: q in s.matchExpressions ==> q == r;
    }
  }

  /** The API server calls the webhook for objects without the shard label, and for no others. */
  ghost predicate SelectsUnassigned(ring: ControllerRing, s: LabelSelector)
  {
    forall labels :: Selects(s, labels) <==> !HasLabel(labels, LabelShard(ring.name))
  }

  /** The API server calls the webhook for exactly the creations and updates of the ring's resources. */
  ghost predicate MatchesRingWrites(ring: ControllerRing, rules: seq<Rule>)
  {
    forall r :: MatchesSome(rules, r) <==> IsWrite(r.operation) && Visited(ring, r.resource)
  }

  lemma CalledAsIntended(ring: ControllerRing, rules: seq<Rule>)
    requires RulesOf(Visits(ring), rules)
    ensures SelectsUnassigned(ring, ObjectSelector(ring))
    ensures NoWildcards(ring) ==> MatchesRingWrites(ring, rules)
  {
    forall labels ensures Selects(ObjectSelector(ring), labels) <==> !HasLabel(labels, LabelShard(ring.name)) {
      SelectorIff(ring, labels);
    }
    if NoWildcards(ring) {
      forall r ensures MatchesSome(rules, r) <==> IsWrite(r.operation) && Visited(ring, r.resource) {
        MatchVisited(ring, rules, r);
      }
    }
  }

  method WebhookForControllerRing(ring: ControllerRing, defaults: Defaults) returns (w: MutatingWebhook)
    ensures RulesOf(Visits(ring), w.rules)
    ensures NoWildcards(ring) ==> MatchesRingWrites(ring, w.rules)
    ensures SelectsUnassigned(ring, w.objectSelector)
    ensures ring.namespaceSelector.Some? ==> w.namespaceSelector == ring.namespaceSelector
    ensures ring.namespaceSelector.None? ==> w.namespaceSelector == defaults.namespaceSelector
    ensures w.failurePolicy == Ignore
    ensures w.client.service.Some? <==> defaults.client.service.Some?
    ensures w.client.service.Some? ==>
              w.client.service.value == defaults.client.service.value.(path := Some(WebhookPath(ring.name)))
    ensures w.client.url.Some? <==> defaults.client.url.Some?
    ensures w.client.url.Some? ==> WithoutSlash(defaults.client.url.value, w.client.url.value, WebhookPath(ring.name))
  {
    w := MutatingWebhook(defaults.client, defaults.namespaceSelector, ObjectSelector(ring), Ignore, []);
    if ring.namespaceSelector.Some? {
      w := w.(namespaceSelector := ring.namespaceSelector);
    }
    var path := WebhookPath(ring.name);
    if w.client.service.Some? {
      w := w.(client := w.client.(service := Some(w.client.service.value.(path := Some(path)))));
    }
    if w.client.url.Some? {
      TrimSlashMeaning(w.client.url.value, path);
      w := w.(client := w.client.(url := Some(TrimSlash(w.client.url.value) + path)));
    }
    var rules := RulesForRing(ring);
    w := w.(rules := rules);
    CalledAsIntended(ring, rules);
  }
}
