/**
 The resources of a ring: which key function applies to a resource, which webhook rules a ring
 gets, and which resources a resync visits. All three are computed by loops over the ring's spec.
 */
module Resources {
  import opened Prelude

  datatype GroupResource = GroupResource(group: string, resource: string)

  datatype RingResource = RingResource(main: GroupResource, controlled: seq<GroupResource>)

  datatype Operator = In | NotIn | Exists | DoesNotExist

  datatype Requirement = Requirement(key: string, operator: Operator, values: set<string>)

  datatype LabelSelector = LabelSelector(matchLabels: map<string, string>, matchExpressions: seq<Requirement>)

  datatype ControllerRing = ControllerRing(
    name: string,
    resources: seq<RingResource>,
    namespaceSelector: Option<LabelSelector>)

  const LABEL_SHARD_PREFIX: string := "shard.alpha.sharding.timebertt.dev/"
  const LABEL_DRAIN_PREFIX: string := "drain.alpha.sharding.timebertt.dev/"

  function LabelShard(ring: string): (s: string)
  {
    LABEL_SHARD_PREFIX + ring
  }

  function LabelDrain(ring: string): (s: string)
  {
    LABEL_DRAIN_PREFIX + ring
  }

  /** Labels of different purpose or of different rings never clash. */
  lemma LabelsDistinct(r1: string, r2: string)
    ensures LabelShard(r1) != LabelDrain(r2)
    ensures LabelShard(r1) == LabelShard(r2) <==> r1 == r2
    ensures LabelDrain(r1) == LabelDrain(r2) <==> r1 == r2
  {
    assert LabelShard(r1)[0] == 's' && LabelDrain(r2)[0] == 'd';
    assert LabelShard(r1)[|LABEL_SHARD_PREFIX|..] == r1 && LabelShard(r2)[|LABEL_SHARD_PREFIX|..] == r2;
    assert LabelDrain(r1)[|LABEL_DRAIN_PREFIX|..] == r1 && LabelDrain(r2)[|LABEL_DRAIN_PREFIX|..] == r2;
  }

  /** Whether objects are hashed by themselves or by their controller. */
  datatype KeyFunc = ByObject | ByController

  /** One resource that a resync lists. */
  datatype Visit = Visit(resource: GroupResource, controlled: bool)

  function ControlledVisits(controlled: seq<GroupResource>, k: nat): (vs: seq<Visit>)
    requires k <= |controlled|
  {
    if k == 0 then [] else ControlledVisits(controlled, k - 1) + [Visit(controlled[k - 1], true)]
  }

  function VisitsOf(r: RingResource): (vs: seq<Visit>)
  {
    [Visit(r.main, false)] + ControlledVisits(r.controlled, |r.controlled|)
  }

  function VisitsUpTo(resources: seq<RingResource>, k: nat): (vs: seq<Visit>)
    requires k <= |resources|
  {
    if k == 0 then [] else VisitsUpTo(resources, k - 1) + VisitsOf(resources[k - 1])
  }

  /** The resources that a resync lists, in order. */
  function Visits(ring: ControllerRing): (vs: seq<Visit>)
  {
    VisitsUpTo(ring.resources, |ring.resources|)
  }

  predicate IsMain(ring: ControllerRing, gr: GroupResource)
  {
    exists i :: 0 <= i < |ring.resources| && ring.resources[i].main == gr
  }

  predicate IsControlled(ring: ControllerRing, gr: GroupResource)
  {
    exists i :: 0 <= i < |ring.resources| && gr in ring.resources[i].controlled
  }

  function KeyFuncFor(ring: ControllerRing, gr: GroupResource): (f: Option<KeyFunc>)
  {
    if IsMain(ring, gr) then Some(ByObject)
    else if IsControlled(ring, gr) then Some(ByController)
    else None
  }

  method FuncForResource(gr: GroupResource, ring: ControllerRing) returns (f: Option<KeyFunc>)
    ensures f == KeyFuncFor(ring, gr)
  {
    var ringResources: set<GroupResource>, controlledResources: set<GroupResource> := {}, {};
    for i := 0 to |ring.resources|
      invariant forall g :: g in ringResources <==> exists j :: 0 <= j < i && ring.resources[j].main == g
      invariant forall g :: g in controlledResources <==> exists j :: 0 <= j < i && g in ring.resources[j].controlled
    {
      ringResources := ringResources + {ring.resources[i].main};
      ghost var before := controlledResources;
      for k := 0 to |ring.resources[i].controlled|
        invariant forall g :: g in controlledResources <==> g in before || g in ring.resources[i].controlled[..k]
      {
        controlledResources := controlledResources + {ring.resources[i].controlled[k]};
      }
    }
    if gr in ringResources { return Some(ByObject); }
    if gr in controlledResources { return Some(ByController); }
    return None;
  }

  datatype Operation = OnCreate | OnUpdate | OnDelete | OnConnect

  datatype Scope = ClusterScope | NamespacedScope | AllScopes

  datatype Rule = Rule(
    operations: seq<Operation>,
    apiGroups: seq<string>,
    apiVersions: seq<string>,
    resources: seq<string>,
    scope: Scope)

  function RuleForResource(gr: GroupResource): (r: Rule)
  {
    Rule([OnCreate, OnUpdate], [gr.group], ["*"], [gr.resource], AllScopes)
  }

  /** The rules for all resources of the ring, in the order in which a resync visits them. */
  method RulesForRing(ring: ControllerRing) returns (rules: seq<Rule>)
    ensures RulesOf(Visits(ring), rules)
  {
    rules := [];
    for i := 0 to |ring.resources|
      invariant RulesOf(VisitsUpTo(ring.resources, i), rules)
    {
      var r := ring.resources[i];
      ghost var before := VisitsUpTo(ring.resources, i);
      rules := rules + [RuleForResource(r.main)];
      for k := 0 to |r.controlled|
        invariant RulesOf(before + ([Visit(r.main, false)] + ControlledVisits(r.controlled, k)), rules)
      {
        rules := rules + [RuleForResource(r.controlled[k])];
        ConcatAssoc([Visit(r.main, false)], ControlledVisits(r.controlled, k), [Visit(r.controlled[k], true)]);
        ConcatAssoc(before, [Visit(r.main, false)] + ControlledVisits(r.controlled, k), [Visit(r.controlled[k], true)]);
      }
    }
  }

  predicate RulesOf(vs: seq<Visit>, rules: seq<Rule>)
  {
    |rules| == |vs| && forall i :: 0 <= i < |vs| ==> rules[i] == RuleForResource(vs[i].resource)
  }

  // ------------------------------------------------------------------ coverage

  lemma {:induction false} ControlledVisitsMember(controlled: seq<GroupResource>, k: nat, v: Visit)
    requires k <= |controlled|
    ensures v in ControlledVisits(controlled, k) <==> v.controlled && v.resource in controlled[..k]
  {
    if k > 0 {
      ControlledVisitsMember(controlled, k - 1, v);
      assert controlled[..k] == controlled[..k - 1] + [controlled[k - 1]];
    }
  }

  lemma {:induction false} VisitsUpToMember(resources: seq<RingResource>, k: nat, v: Visit)
    requires k <= |resources|
    ensures v in VisitsUpTo(resources, k) <==>
              exists i :: 0 <= i < k &&
                if v.controlled then v.resource in resources[i].controlled else v.resource == resources[i].main
  {
    if k > 0 {
      VisitsUpToMember(resources, k - 1, v);
      var r := resources[k - 1];
      ControlledVisitsMember(r.controlled, |r.controlled|, v);
      assert r.controlled[..|r.controlled|] == r.controlled;
    }
  }

  /** A resync visits a resource as main or as controlled exactly if the ring lists it so. */
  lemma VisitsMember(ring: ControllerRing, gr: GroupResource)
    ensures Visit(gr, false) in Visits(ring) <==> IsMain(ring, gr)
    ensures Visit(gr, true) in Visits(ring) <==> IsControlled(ring, gr)
  {
    VisitsUpToMember(ring.resources, |ring.resources|, Visit(gr, false));
    VisitsUpToMember(ring.resources, |ring.resources|, Visit(gr, true));
  }

  /** The key function and the resync cover the same resources. */
  lemma ResourceCoverage(ring: ControllerRing, gr: GroupResource)
    ensures KeyFuncFor(ring, gr).Some? <==> Visited(ring, gr)
  {
    VisitsMember(ring, gr);
    if v :| v in Visits(ring) && v.resource == gr {
      assert v == Visit(gr, v.controlled);
    }
  }

  predicate Visited(ring: ControllerRing, gr: GroupResource)
  {
    exists v :: v in Visits(ring) && v.resource == gr
  }

  // ------------------------------------------------------------------ requests that match rules

  /** A request to the API server for an object of a resource. */
  datatype Request = Request(operation: Operation, resource: GroupResource, version: string, namespaced: bool)

  predicate Lists(patterns: seq<string>, s: string)
  {
    "*" in patterns || s in patterns
  }

  predicate InScope(scope: Scope, namespaced: bool)
  {
    match scope
    case ClusterScope => !namespaced
    case NamespacedScope => namespaced
    case AllScopes => true
  }

  /** How the API server matches requests with rules; "*" stands for everything. */
  predicate MatchesRule(rule: Rule, r: Request)
  {
    && r.operation in rule.operations
    && Lists(rule.apiGroups, r.resource.group)
    && Lists(rule.apiVersions, r.version)
    && Lists(rule.resources, r.resource.resource)
    && InScope(rule.scope, r.namespaced)
  }

  predicate MatchesSome(rules: seq<Rule>, r: Request)
  {
    exists rule :: rule in rules && MatchesRule(rule, r)
  }

  predicate Covers(pattern: GroupResource, gr: GroupResource)
  {
    && (pattern.group == "*" || pattern.group == gr.group)
    && (pattern.resource == "*" || pattern.resource == gr.resource)
  }

  predicate IsWrite(op: Operation)
  {
    op == OnCreate || op == OnUpdate
  }

  lemma RuleCovers(gr: GroupResource, r: Request)
    ensures MatchesRule(RuleForResource(gr), r) <==> IsWrite(r.operation) && Covers(gr, r.resource)
  {
    var rule := RuleForResource(gr);
    assert rule.apiGroups[0] == gr.group && rule.resources[0] == gr.resource && rule.apiVersions[0] == "*";
    assert rule.operations[0] == OnCreate && rule.operations[1] == OnUpdate;
  }

  /** The rules of a ring match the creation and every update of all resources that the ring lists or covers. */
  lemma MatchIff(ring: ControllerRing, rules: seq<Rule>, r: Request)
    requires RulesOf(Visits(ring), rules)
    ensures MatchesSome(rules, r)
       <==> IsWrite(r.operation) && exists v :: v in Visits(ring) && Covers(v.resource, r.resource)
  {
    if rule :| rule in rules && MatchesRule(rule, r) {
      var i :| 0 <= i < |rules| && rules[i] == rule;
      RuleCovers(Visits(ring)[i].resource, r);
      assert Visits(ring)[i] in Visits(ring);
    }
    if v :| v in Visits(ring) && Covers(v.resource, r.resource) {
      var i :| 0 <= i < |Visits(ring)| && Visits(ring)[i] == v;
      RuleCovers(v.resource, r);
      assert rules[i] in rules;
    }
  }

  predicate NoWildcards(ring: ControllerRing)
  {
    forall v :: v in Visits(ring) ==> v.resource.group != "*" && v.resource.resource != "*"
  }

  /** Without wildcards, the webhook is called for exactly the writes to the resources that a resync visits. */
  lemma MatchVisited(ring: ControllerRing, rules: seq<Rule>, r: Request)
    requires RulesOf(Visits(ring), rules) && NoWildcards(ring)
    ensures MatchesSome(rules, r) <==> IsWrite(r.operation) && Visited(ring, r.resource)
  {
    MatchIff(ring, rules, r);
    if v :| v in Visits(ring) && v.resource == r.resource {
      assert Covers(v.resource, r.resource);
    }
    if v :| v in Visits(ring) && Covers(v.resource, r.resource) {
      assert v.resource == r.resource;
    }
  }

  function LongestName(vs: seq<Visit>): (n: nat)
    ensures forall v :: v in vs ==> |v.resource.group| <= n && |v.resource.resource| <= n
  {
    if vs == [] then 0
    else
      var n, g, r := LongestName(vs[1..]), |vs[0].resource.group|, |vs[0].resource.resource|;
      if g >= n && g >= r then g else if r >= n then r else n
  }

  /**
   Every write that the rules match is of a resource that the ring has a key function for,
   exactly if the ring lists no wildcard.
   */
  lemma MatchedHaveKeysIff(ring: ControllerRing, rules: seq<Rule>)
    requires RulesOf(Visits(ring), rules)
    ensures (forall r :: MatchesSome(rules, r) ==> KeyFuncFor(ring, r.resource).Some?) <==> NoWildcards(ring)
  {
    if NoWildcards(ring) {
      forall r | MatchesSome(rules, r) ensures KeyFuncFor(ring, r.resource).Some? {
        MatchVisited(ring, rules, r);
        ResourceCoverage(ring, r.resource);
      }
    } else {
      var v :| v in Visits(ring) && (v.resource.group == "*" || v.resource.resource == "*");
      var unlisted := seq(LongestName(Visits(ring)) + 1, _ => 'x');
      var gr := GroupResource(if v.resource.group == "*" then unlisted else v.resource.group,
                              if v.resource.resource == "*" then unlisted else v.resource.resource);
      var r := Request(OnCreate, gr, "v1", true);
      MatchIff(ring, rules, r);
      assert Covers(v.resource, r.resource);
      ResourceCoverage(ring, gr);
    }
  }

  // ------------------------------------------------------------------ one key function

  /** The ring does not list the resource both as main and as controlled. */
  predicate ListedOneWay(ring: ControllerRing, gr: GroupResource)
  {
    !(IsMain(ring, gr) && IsControlled(ring, gr))
  }

  /** No resource is both main and controlled. */
  ghost predicate Disjoint(ring: ControllerRing)
  {
    forall gr :: ListedOneWay(ring, gr)
  }

  function KeyFuncOfVisit(v: Visit): (f: KeyFunc)
  {
    if v.controlled then ByController else ByObject
  }

  /**
   Webhook and resync hash the objects of a resource alike unless it is listed both ways and
   visited as controlled.
   */
  lemma SameKeyFunc(ring: ControllerRing, v: Visit)
    requires v in Visits(ring)
    ensures KeyFuncFor(ring, v.resource) == Some(KeyFuncOfVisit(v)) <==> ListedOneWay(ring, v.resource) || !v.controlled
  {
    VisitsMember(ring, v.resource);
    assert v == Visit(v.resource, v.controlled);
  }

  /** Webhook and resync hash the objects of every resource alike exactly if the ring's resources are disjoint. */
  lemma SameKeyFuncIff(ring: ControllerRing)
    ensures (forall v :: v in Visits(ring) ==> KeyFuncFor(ring, v.resource) == Some(KeyFuncOfVisit(v)))
       <==> Disjoint(ring)
  {
    forall v | v in Visits(ring)
      ensures Disjoint(ring) ==> KeyFuncFor(ring, v.resource) == Some(KeyFuncOfVisit(v))
    {
      SameKeyFunc(ring, v);
    }
    if gr :| !ListedOneWay(ring, gr) {
      VisitsMember(ring, gr);
      SameKeyFunc(ring, Visit(gr, true));
    }
  }
}
