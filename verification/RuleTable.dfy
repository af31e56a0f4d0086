/** The rule table: `shield/pkg/shield/ruleTable.go`, with profile matching and merging
    from `resourcesigningprofile/v1alpha1/types.go`. */
module RuleTable {
  import opened Text
  import opened Pattern

  datatype Namespace = Namespace(name: string, labels: map<string, string>)

  /** A `NamespaceSelector`; a label selector is kept in its written form. */
  datatype Selector = Selector(labelSelector: Option<string>, included: seq<string>, excluded: seq<string>)

  /** Whether a namespace has the labels a selector asks for (`kubeutil.MatchLabels`). */
  type LabelMatcher = (string, Namespace) -> bool

  predicate MatchNamespaceName(s: Selector, name: string) {
    MatchWithPatternArray(name, s.included) && !MatchWithPatternArray(name, s.excluded)
  }

  method SelectsName(s: Selector, name: string) returns (b: bool)
    ensures b <==> MatchNamespaceName(s, name)
  {
    hide MatchPattern, MatchWithPatternArray;
    var included := AnyPatternMatches(name, s.included);
    var excluded := AnyPatternMatches(name, s.excluded);
    b := included && !excluded;
  }

  predicate MatchNamespace(lm: LabelMatcher, s: Selector, ns: Namespace) {
    if |s.included| == 0 && |s.excluded| == 0 then s.labelSelector.Some? && lm(s.labelSelector.value, ns)
    else MatchNamespaceName(s, ns.name)
  }

  method SelectsNamespace(lm: LabelMatcher, s: Selector, ns: Namespace) returns (b: bool)
    ensures b <==> MatchNamespace(lm, s, ns)
  {
    hide MatchNamespaceName;
    var labelMatched := false;
    if s.labelSelector.Some? { labelMatched := lm(s.labelSelector.value, ns); }
    if |s.included| == 0 && |s.excluded| == 0 { return labelMatched; }
    b := SelectsName(s, ns.name);
  }

  /** The part of a ResourceSigningProfile that decides whether a request is protected. */
  datatype Profile = Profile(
    name: string, namespace: string, selector: Option<Selector>,
    protect: seq<Rule>, ignore: seq<Rule>, force: seq<Rule>)

  function MergeIgnore(p: Profile, common: seq<Rule>): Profile { p.(ignore := p.ignore + common) }

  // ---- Matching one profile ----

  predicate SomeRule(rules: seq<Rule>, fields: Fields, strict: bool) {
    exists i :: 0 <= i < |rules| && RuleMatches(rules[i], fields, strict)
  }

  /** Cluster requests match strictly, except for profiles in the shield's own namespace. */
  predicate Strict(p: Profile, fields: Fields, shieldNs: string) { ClusterScoped(fields) && p.namespace != shieldNs }

  predicate Forced(p: Profile, fields: Fields, shieldNs: string) {
    SomeRule(p.force, fields, Strict(p, fields, shieldNs))
  }

  predicate Ignored(p: Profile, fields: Fields, shieldNs: string) {
    SomeRule(p.ignore, fields, Strict(p, fields, shieldNs))
  }

  predicate Covered(p: Profile, fields: Fields, shieldNs: string) {
    SomeRule(p.protect, fields, Strict(p, fields, shieldNs))
  }

  /** Force rules win over ignore rules, which win over protect rules. */
  predicate Protects(p: Profile, fields: Fields, shieldNs: string) {
    Forced(p, fields, shieldNs) || (Covered(p, fields, shieldNs) && !Ignored(p, fields, shieldNs))
  }

  predicate IsFirstRule(rules: seq<Rule>, fields: Fields, strict: bool, r: Rule) {
    exists i :: 0 <= i < |rules| && rules[i] == r && RuleMatches(r, fields, strict) &&
                forall j :: 0 <= j < i ==> !RuleMatches(rules[j], fields, strict)
  }

  /** There is only one. */
  lemma FirstRuleOnly(rules: seq<Rule>, fields: Fields, strict: bool, r: Rule, r': Rule)
    requires IsFirstRule(rules, fields, strict, r) && IsFirstRule(rules, fields, strict, r')
    ensures r == r' && r in rules && RuleMatches(r, fields, strict)
  {
    hide RuleMatches;
    var i :| 0 <= i < |rules| && rules[i] == r && RuleMatches(r, fields, strict) &&
             forall j :: 0 <= j < i ==> !RuleMatches(rules[j], fields, strict);
    var i' :| 0 <= i' < |rules| && rules[i'] == r' && RuleMatches(r', fields, strict) &&
              forall j :: 0 <= j < i' ==> !RuleMatches(rules[j], fields, strict);
  }

  /** The first rule of a list that applies. */
  method FirstRule(rules: seq<Rule>, fields: Fields, strict: bool) returns (r: Option<Rule>)
    ensures r.Some? <==> SomeRule(rules, fields, strict)
    ensures r.Some? ==> IsFirstRule(rules, fields, strict, r.value)
  {
    hide RuleMatches;
    for i := 0 to |rules|
      invariant forall j :: 0 <= j < i ==> !RuleMatches(rules[j], fields, strict)
    {
      var ok := MatchWithRequest(rules[i], fields, strict);
      if ok { return Some(rules[i]); }
    }
    return None;
  }

  /** Cluster requests are matched strictly by all profiles but those of the shield's own namespace. */
  method MatchProfile(p: Profile, fields: Fields, shieldNs: string) returns (protected: bool, rule: Option<Rule>)
    ensures Field(fields, "ResourceScope") != "Cluster" || p.namespace == shieldNs ==>
              (protected <==> SomeRule(p.force, fields, false) ||
                              (SomeRule(p.protect, fields, false) && !SomeRule(p.ignore, fields, false)))
    ensures Field(fields, "ResourceScope") == "Cluster" && p.namespace != shieldNs ==>
              (protected <==> SomeRule(p.force, fields, true) ||
                              (SomeRule(p.protect, fields, true) && !SomeRule(p.ignore, fields, true)))
    ensures protected <==> Protects(p, fields, shieldNs)
    ensures rule.Some? <==> Forced(p, fields, shieldNs) || Ignored(p, fields, shieldNs) || Covered(p, fields, shieldNs)
    ensures rule.Some? ==>
              IsFirstRule(if Forced(p, fields, shieldNs) then p.force
                          else if Ignored(p, fields, shieldNs) then p.ignore
                          else p.protect,
                          fields, Strict(p, fields, shieldNs), rule.value)
  {
    hide RuleMatches, IsFirstRule;
    var strict := false;
    if "ResourceScope" in fields && fields["ResourceScope"] == "Cluster" && p.namespace != shieldNs { strict := true; }
    rule := FirstRule(p.force, fields, strict);
    if rule.Some? { return true, rule; }
    rule := FirstRule(p.ignore, fields, strict);
    if rule.Some? { return false, rule; }
    rule := FirstRule(p.protect, fields, strict);
    return rule.Some?, rule;
  }

  /** A profile outside the shield's namespace protects a cluster-scoped resource only by a rule that
      gives its exact name. */
  lemma TenantNeedsName(p: Profile, fields: Fields, shieldNs: string)
    requires Protects(p, fields, shieldNs) && Field(fields, "ResourceScope") == "Cluster" && p.namespace != shieldNs
    ensures exists rule, i :: rule in p.force + p.protect && 0 <= i < |rule.match_| &&
                              rule.match_[i].name == Some(Field(fields, "Name"))
  {
    hide RuleMatches;
    var rules := if Forced(p, fields, shieldNs) then p.force else p.protect;
    var i :| 0 <= i < |rules| && RuleMatches(rules[i], fields, true);
    StrictNeedsName(rules[i], fields);
    assert rules[i] in p.force + p.protect;
    var j :| 0 <= j < |rules[i].match_| && rules[i].match_[j].name == Some(Field(fields, "Name"));
  }

  // ---- The table ----

  datatype RuleItem = RuleItem(profile: Profile, targets: seq<string>)
  datatype RuleTable = RuleTable(items: seq<RuleItem>, namespaces: seq<string>, shieldNamespace: string)

  function NamesOf(nss: seq<Namespace>): (r: seq<string>)
    ensures |r| == |nss| && forall i :: 0 <= i < |r| ==> r[i] == nss[i].name
  {
    seq(|nss|, i requires 0 <= i < |nss| => nss[i].name)
  }

  function Targets(lm: LabelMatcher, p: Profile, nss: seq<Namespace>, shieldNs: string): seq<string> {
    if p.namespace == shieldNs && p.selector.Some?
    then NamesOf(Filter(nss, ns => MatchNamespace(lm, p.selector.value, ns)))
    else [p.namespace]
  }

  function AddNew(acc: seq<string>, xs: seq<string>): seq<string>
    decreases |xs|
  {
    if xs == [] then acc else AddNew(if xs[0] in acc then acc else acc + [xs[0]], xs[1..])
  }

  /** `GetUnionOfArrays`: the values of both lists, each once, in order of first occurrence. */
  function Union(a: seq<string>, b: seq<string>): seq<string> { AddNew(AddNew([], a), b) }

  lemma {:induction false} AddNewMember(acc: seq<string>, xs: seq<string>, x: string)
    ensures x in AddNew(acc, xs) <==> x in acc || x in xs
    decreases |xs|
  {
    if xs != [] {
      AddNewMember(if xs[0] in acc then acc else acc + [xs[0]], xs[1..], x);
      assert xs == [xs[0]] + xs[1..];
    }
  }

  lemma UnionMember(a: seq<string>, b: seq<string>, x: string)
    ensures x in Union(a, b) <==> x in a || x in b
  {
    AddNewMember([], a, x);
    AddNewMember(AddNew([], a), b, x);
  }

  /** The table a list of profiles and namespaces stands for. */
  function TableOf(lm: LabelMatcher, profiles: seq<Profile>, nss: seq<Namespace>, common: seq<Rule>,
                   shieldNs: string): (t: RuleTable)
    ensures |t.items| == |profiles| && t.shieldNamespace == shieldNs
    ensures forall i :: 0 <= i < |profiles| ==>
              t.items[i] == RuleItem(MergeIgnore(profiles[i], common), Targets(lm, profiles[i], nss, shieldNs))
  {
    if profiles == [] then RuleTable([], [], shieldNs)
    else
      var last := profiles[|profiles| - 1];
      var front := TableOf(lm, profiles[..|profiles| - 1], nss, common, shieldNs);
      var targets := Targets(lm, last, nss, shieldNs);
      RuleTable(front.items + [RuleItem(MergeIgnore(last, common), targets)], Union(front.namespaces, targets),
                shieldNs)
  }

  method MatchNamespaceList(lm: LabelMatcher, nss: seq<Namespace>, s: Selector) returns (matched: seq<string>)
    ensures matched == NamesOf(Filter(nss, ns => MatchNamespace(lm, s, ns)))
  {
    hide MatchNamespace;
    var f := ns => MatchNamespace(lm, s, ns);
    matched := [];
    for i := 0 to |nss|
      invariant matched == NamesOf(Filter(nss[..i], f))
    {
      assert nss[..i + 1][..i] == nss[..i];
      var selected := SelectsNamespace(lm, s, nss[i]);
      if selected { matched := matched + [nss[i].name]; }
    }
    assert nss[..|nss|] == nss;
  }

  method GetUnionOfArrays(a: seq<string>, b: seq<string>) returns (r: seq<string>)
    ensures r == Union(a, b)
  {
    r := [];
    for i := 0 to |a|
      invariant AddNew(r, a[i..]) == AddNew([], a)
    {
      if a[i] !in r { r := r + [a[i]]; }
    }
    for i := 0 to |b|
      invariant AddNew(r, b[i..]) == Union(a, b)
    {
      if b[i] !in r { r := r + [b[i]]; }
    }
  }

  method NewRuleTable(lm: LabelMatcher, profiles: seq<Profile>, nss: seq<Namespace>, common: seq<Rule>,
                      shieldNs: string)
    returns (t: RuleTable)
    ensures t == TableOf(lm, profiles, nss, common, shieldNs)
  {
    hide Targets;
    var all: seq<string>, items := [], [];
    for i := 0 to |profiles|
      invariant RuleTable(items, all, shieldNs) == TableOf(lm, profiles[..i], nss, common, shieldNs)
    {
      assert profiles[..i + 1][..i] == profiles[..i];
      var targets := TargetNamespaces(lm, profiles[i], nss, shieldNs);
      items := items + [RuleItem(MergeIgnore(profiles[i], common), targets)];
      all := GetUnionOfArrays(all, targets);
    }
    assert profiles[..|profiles|] == profiles;
    t := RuleTable(items, all, shieldNs);
  }

  method TargetNamespaces(lm: LabelMatcher, p: Profile, nss: seq<Namespace>, shieldNs: string)
    returns (targets: seq<string>)
    ensures targets == Targets(lm, p, nss, shieldNs)
  {
    if p.namespace == shieldNs {
      if p.selector.Some? {
        targets := MatchNamespaceList(lm, nss, p.selector.value);
      } else {
        targets := [p.namespace];
      }
    } else {
      targets := [p.namespace];
    }
  }

  predicate IsEmpty(t: RuleTable) { |t.items| == 0 }

  predicate IsTargetEmpty(t: RuleTable) { forall i :: 0 <= i < |t.items| ==> t.items[i].targets == [] }

  /** `IsTargetEmpty` counts the targets of all items. */
  method CountIsZero(t: RuleTable) returns (empty: bool)
    ensures empty <==> IsTargetEmpty(t)
  {
    var count := 0;
    for i := 0 to |t.items|
      invariant count >= 0 && (count == 0 <==> forall j :: 0 <= j < i ==> t.items[j].targets == [])
    {
      count := count + |t.items[i].targets|;
    }
    empty := count == 0;
  }

  predicate CheckIfTargetNamespace(t: RuleTable, ns: string) { ns == "" || ns in t.namespaces }

  // ---- The verdict ----

  predicate Targeted(item: RuleItem, fields: Fields) {
    Field(fields, "ResourceScope") == "Namespaced" ==> Field(fields, "Namespace") in item.targets
  }

  predicate ProtectedBy(item: RuleItem, fields: Fields, shieldNs: string) {
    Targeted(item, fields) && Protects(item.profile, fields, shieldNs)
  }

  /** The profiles of the first `cnt` items that apply to a request, in table order. */
  function VerdictUpTo(t: RuleTable, fields: Fields, cnt: nat): seq<Profile>
    requires cnt <= |t.items|
  {
    if cnt == 0 then []
    else VerdictUpTo(t, fields, cnt - 1) +
         (if ProtectedBy(t.items[cnt - 1], fields, t.shieldNamespace) then [t.items[cnt - 1].profile] else [])
  }

  function Verdict(t: RuleTable, fields: Fields): seq<Profile> { VerdictUpTo(t, fields, |t.items|) }

  /** An item that targets the request but does not protect it, because of an ignore rule. */
  predicate IgnoredBy(item: RuleItem, fields: Fields, shieldNs: string) {
    Targeted(item, fields) && !Protects(item.profile, fields, shieldNs) && Ignored(item.profile, fields, shieldNs)
  }

  method CheckItem(item: RuleItem, fields: Fields, shieldNs: string) returns (protected: bool, ignoreMatched: bool)
    ensures protected <==> ProtectedBy(item, fields, shieldNs)
    ensures ignoreMatched <==> IgnoredBy(item, fields, shieldNs)
  {
    hide Protects, Ignored, Forced, Covered;
    if Field(fields, "ResourceScope") == "Namespaced" && Field(fields, "Namespace") !in item.targets {
      return false, false;
    }
    var tmpProtected, rule := MatchProfile(item.profile, fields, shieldNs);
    if tmpProtected { return true, false; }
    NotProtectedMeansIgnored(item.profile, fields, shieldNs);
    return false, rule.Some?;
  }

  method CheckIfProtected(t: RuleTable, fields: Fields)
    returns (protected: bool, ignoreMatched: bool, profiles: seq<Profile>)
    ensures profiles == Verdict(t, fields)
    ensures protected <==> profiles != []
    ensures ignoreMatched <==> exists i :: 0 <= i < |t.items| && IgnoredBy(t.items[i], fields, t.shieldNamespace)
  {
    hide ProtectedBy, IgnoredBy;
    protected, ignoreMatched, profiles := false, false, [];
    for i := 0 to |t.items|
      invariant profiles == VerdictUpTo(t, fields, i)
      invariant protected <==> profiles != []
      invariant ignoreMatched <==> exists j :: 0 <= j < i && IgnoredBy(t.items[j], fields, t.shieldNamespace)
    {
      var itemProtected, itemIgnored := CheckItem(t.items[i], fields, t.shieldNamespace);
      if itemProtected {
        protected := true;
        profiles := profiles + [t.items[i].profile];
      }
      if itemIgnored { ignoreMatched := true; }
    }
  }

  lemma {:induction false} VerdictHasItem(t: RuleTable, fields: Fields, cnt: nat) returns (i: nat)
    requires cnt <= |t.items| && VerdictUpTo(t, fields, cnt) != []
    ensures i < cnt && ProtectedBy(t.items[i], fields, t.shieldNamespace)
  {
    hide ProtectedBy;
    if ProtectedBy(t.items[cnt - 1], fields, t.shieldNamespace) {
      i := cnt - 1;
    } else {
      i := VerdictHasItem(t, fields, cnt - 1);
    }
  }

  lemma NotProtectedMeansIgnored(p: Profile, fields: Fields, shieldNs: string)
    requires !Protects(p, fields, shieldNs)
    ensures Forced(p, fields, shieldNs) || Ignored(p, fields, shieldNs) || Covered(p, fields, shieldNs) <==>
            Ignored(p, fields, shieldNs)
  {}

  // ---- What the table guarantees ----

  lemma {:induction false} NamespacesAreTargets(lm: LabelMatcher, profiles: seq<Profile>, nss: seq<Namespace>,
                                                common: seq<Rule>, shieldNs: string, x: string)
    ensures var t := TableOf(lm, profiles, nss, common, shieldNs);
            x in t.namespaces <==> exists i :: 0 <= i < |t.items| && x in t.items[i].targets
  {
    hide Targets, Union;
    if profiles != [] {
      var front := TableOf(lm, profiles[..|profiles| - 1], nss, common, shieldNs);
      var t := TableOf(lm, profiles, nss, common, shieldNs);
      var last := |profiles| - 1;
      NamespacesAreTargets(lm, profiles[..last], nss, common, shieldNs, x);
      UnionMember(front.namespaces, Targets(lm, profiles[last], nss, shieldNs), x);
      assert forall i :: 0 <= i < last ==> t.items[i] == front.items[i];
    }
  }

  /** A namespaced request that the table protects is in a namespace the table targets, so the
      earlier scope test on the same table lets it through to this verdict. */
  lemma ProtectedIsInScope(lm: LabelMatcher, profiles: seq<Profile>, nss: seq<Namespace>, common: seq<Rule>,
                           shieldNs: string, fields: Fields)
    requires Field(fields, "ResourceScope") == "Namespaced"
    requires Verdict(TableOf(lm, profiles, nss, common, shieldNs), fields) != []
    ensures CheckIfTargetNamespace(TableOf(lm, profiles, nss, common, shieldNs), Field(fields, "Namespace"))
  {
    hide Protects, TableOf;
    var t := TableOf(lm, profiles, nss, common, shieldNs);
    var i := VerdictHasItem(t, fields, |t.items|);
    NamespacesAreTargets(lm, profiles, nss, common, shieldNs, Field(fields, "Namespace"));
  }

  lemma SomeRuleConcat(a: seq<Rule>, b: seq<Rule>, fields: Fields, strict: bool)
    ensures SomeRule(a + b, fields, strict) <==> SomeRule(a, fields, strict) || SomeRule(b, fields, strict)
  {
    hide RuleMatches;
    if i :| 0 <= i < |a| && RuleMatches(a[i], fields, strict) { assert (a + b)[i] == a[i]; }
    if i :| 0 <= i < |b| && RuleMatches(b[i], fields, strict) { assert (a + b)[|a| + i] == b[i]; }
  }

  /** Item by item: a request is protected exactly when the item targets it and its force
      rules match, or its protect rules match and neither its own nor the common ignore
      rules do. */
  lemma ItemVerdict(lm: LabelMatcher, p: Profile, nss: seq<Namespace>, common: seq<Rule>, shieldNs: string,
                    fields: Fields)
    ensures ProtectedBy(RuleItem(MergeIgnore(p, common), Targets(lm, p, nss, shieldNs)), fields, shieldNs) <==>
            (Field(fields, "ResourceScope") == "Namespaced" ==>
                  Field(fields, "Namespace") in Targets(lm, p, nss, shieldNs)) &&
            (Forced(p, fields, shieldNs) ||
             (Covered(p, fields, shieldNs) && !Ignored(p, fields, shieldNs) &&
                 !SomeRule(common, fields, Strict(p, fields, shieldNs))))
  {
    hide Targets, SomeRule;
    SomeRuleConcat(p.ignore, common, fields, Strict(p, fields, shieldNs));
  }

  /** Adding common ignore rules never protects more, and never takes protection away from a
      request that a force rule matches. */
  lemma CommonIgnoreMonotone(lm: LabelMatcher, profiles: seq<Profile>, nss: seq<Namespace>, common: seq<Rule>,
                             extra: seq<Rule>, shieldNs: string, fields: Fields, i: nat)
    requires i < |profiles|
    ensures var t := TableOf(lm, profiles, nss, common, shieldNs);
            var t' := TableOf(lm, profiles, nss, common + extra, shieldNs);
            && (ProtectedBy(t'.items[i], fields, shieldNs) ==> ProtectedBy(t.items[i], fields, shieldNs))
            && (Forced(profiles[i], fields, shieldNs) ==>
                  (ProtectedBy(t'.items[i], fields, shieldNs) <==> ProtectedBy(t.items[i], fields, shieldNs)))
  {
    hide ProtectedBy, SomeRule, Targets;
    ItemVerdict(lm, profiles[i], nss, common, shieldNs, fields);
    ItemVerdict(lm, profiles[i], nss, common + extra, shieldNs, fields);
    SomeRuleConcat(common, extra, fields, Strict(profiles[i], fields, shieldNs));
  }
}
