/** Whether an update changes anything that matters: `shield/pkg/shield/utilMutation.go`
    and `DiffResult.Filter` of `mapnode/diff.go`. */
module Mutation {
  import opened Text
  import opened Tree
  import opened Keys
  import opened Wildcards
  import opened Mask
  import opened Diff
  import opened Shifting
  import opened Compare
  import opened Pattern
  import opened MaskLists

  // ---- DiffResult.Filter ----

  function Starred(keys: seq<string>): (r: seq<string>)
    ensures |r| == |keys| && forall i :: 0 <= i < |r| ==> r[i] == keys[i] + "*"
  {
    seq(|keys|, i requires 0 <= i < |keys| => keys[i] + "*")
  }

  predicate Covers(rx: Regex, keys: seq<string>, d: Difference) { Listed(rx, Starred(keys), d.key) }

  /** Splits the differences by whether a mask key with a star appended lists them; both parts keep
      the order.  The caller's keys get a "*" appended in place. */
  method FilterDiff(rx: Regex, items: seq<Difference>, maskKeys: array<string>)
    returns (filtered: seq<Difference>, unfiltered: seq<Difference>, matchedKeys: seq<string>)
    modifies maskKeys
    ensures maskKeys[..] == Starred(old(maskKeys[..]))
    ensures filtered == Filter(items, d => Covers(rx, old(maskKeys[..]), d))
    ensures unfiltered == Filter(items, d => !Covers(rx, old(maskKeys[..]), d))
    ensures |matchedKeys| == |filtered| && forall i :: 0 <= i < |filtered| ==>
              IsListed(rx, filtered[i].key, matchedKeys[i])
  {
    hide IsListed, Listed;
    ghost var keys := maskKeys[..];
    for i := 0 to maskKeys.Length
      invariant forall j :: 0 <= j < i ==> maskKeys[j] == keys[j] + "*"
      invariant forall j :: i <= j < maskKeys.Length ==> maskKeys[j] == keys[j]
    {
      maskKeys[i] := maskKeys[i] + "*";
    }
    assert maskKeys[..] == Starred(keys);
    filtered, unfiltered, matchedKeys := [], [], [];
    for i := 0 to |items|
      invariant maskKeys[..] == Starred(keys)
      invariant filtered == Filter(items[..i], d => Covers(rx, keys, d))
      invariant unfiltered == Filter(items[..i], d => !Covers(rx, keys, d))
      invariant |matchedKeys| == |filtered| && forall j :: 0 <= j < |filtered| ==>
                  IsListed(rx, filtered[j].key, matchedKeys[j])
    {
      assert items[..i + 1][..i] == items[..i];
      var exists_, matched := KeyExistsInList(rx, maskKeys[..], items[i].key);
      if exists_ {
        filtered, matchedKeys := filtered + [items[i]], matchedKeys + [matched];
      } else {
        unfiltered := unfiltered + [items[i]];
      }
    }
    assert items[..|items|] == items;
  }

  // ---- Attribute patterns of a profile ----

  /** `attrs` is the profile's own list, shared by every request. */
  datatype AttrsPattern = AttrsPattern(match_: seq<RequestPattern>, attrs: array<string>)

  predicate MatchWith(a: AttrsPattern, fields: Fields) { SomeMatches(a.match_, fields, false) }

  function AttrsOf(rules: seq<AttrsPattern>, fields: Fields): seq<string>
    reads set a | a in rules :: a.attrs
  {
    if rules == [] then []
    else
      var last := rules[|rules| - 1];
      assert last in rules;
      AttrsOf(rules[..|rules| - 1], fields) + (if MatchWith(last, fields) then last.attrs[..] else [])
  }

  /** `generateMaskKeys` copies the attributes, so later changes stay out of the profile. */
  method GenerateMaskKeys(rules: seq<AttrsPattern>, namespace: string, name: string, kind: string, userName: string,
                          userGroups: string)
    returns (keys: array<string>)
    ensures fresh(keys)
    ensures var fields := map["Namespace" := namespace, "Name" := name, "Kind" := kind, "UserName" := userName,
                              "UserGroups" := userGroups];
            keys[..] == old(AttrsOf(rules, fields))
  {
    hide SomeMatches;
    var fields: Fields := map["Namespace" := namespace, "Name" := name, "Kind" := kind, "UserName" := userName,
                              "UserGroups" := userGroups];
    var acc := [];
    for i := 0 to |rules|
      invariant acc == AttrsOf(rules[..i], fields)
    {
      assert rules[..i + 1][..i] == rules[..i];
      if SomeMatches(rules[i].match_, fields, false) { acc := acc + rules[i].attrs[..]; }
    }
    assert rules[..|rules|] == rules;
    keys := new string[|acc|](i requires 0 <= i < |acc| => acc[i]);
    assert keys[..] == acc;
  }

  /** The fields `generateMaskKeys` rebuilds: it selects patterns a second time, with the
      operation, scope and API group and version missing. */
  function Ma4kFields(fields: Fields, userGroups: string): Fields {
    map["Namespace" := Field(fields, "Namespace"), "Name" := Field(fields, "Name"), "Kind" := Field(fields, "Kind"),
        "UserName" := Field(fields, "UserName"), "UserGroups" := userGroups]
  }

  /** `IgnoreAttrs`: the patterns that match the request, the deprecated `unprotectAttrs` last. */
  function IgnoreAttrs(ignoreAttrs: seq<AttrsPattern>, unprotectAttrs: seq<AttrsPattern>,
                       fields: Fields): seq<AttrsPattern> {
    Filter(ignoreAttrs + unprotectAttrs, a => MatchWith(a, fields))
  }

  // ---- Eval ----

  /** A raw object of the request. */
  datatype Raw = Absent | Unparsable | Parsed(fields: map<string, Json>)

  datatype MutationResult = MutationResult(checked: bool, isMutated: bool)

  /** The two masked objects, flattened, and their difference. */
  datatype Evidence = Evidence(m1: Flat, m2: Flat, diff: Option<seq<Difference>>)

  /** The ignore keys that count: those of the ignore and unprotect rules that apply to the request,
      and apply again to the five fields that are left of it. */
  lemma {:induction false} IgnoreKeysExactly(rules: seq<AttrsPattern>, fields: Fields, x: string)
    ensures x in AttrsOf(rules, fields) <==>
            exists a :: a in rules && SomeMatches(a.match_, fields, false) && x in a.attrs[..]
  {
    hide SomeMatches;
    if rules != [] {
      var n := |rules| - 1;
      IgnoreKeysExactly(rules[..n], fields, x);
      assert rules == rules[..n] + [rules[n]];
    }
  }

  lemma IgnoreRulesExactly(ignoreAttrs: seq<AttrsPattern>, unprotectAttrs: seq<AttrsPattern>, fields: Fields,
                           a: AttrsPattern)
    ensures a in IgnoreAttrs(ignoreAttrs, unprotectAttrs, fields) <==>
            (a in ignoreAttrs || a in unprotectAttrs) && SomeMatches(a.match_, fields, false)
  {
    hide SomeMatches;
    FilterMember(ignoreAttrs + unprotectAttrs, b => MatchWith(b, fields), a);
  }

  /** What masking by the built-in list leaves out, in every object. */
  function MutationRule(rx: Regex): string -> bool { ListedBy(rx, Rewritten(MutationMask())) }

  ghost predicate MaskedEvidence(rx: Regex, pr: Printer, oldObj: Node, newObj: Node, e: Evidence) {
    && RavelOf(RecursiveMask(oldObj, "", MutationRule(rx)), e.m1)
    && RavelOf(RecursiveMask(newObj, "", MutationRule(rx)), e.m2)
    && IsDiff(pr, e.m1, e.m2, e.diff)
  }

  /** Every difference lies under one of the selected ignore keys. */
  ghost predicate AllCovered(rx: Regex, keys: seq<string>, diff: Option<seq<Difference>>) {
    diff.Some? ==> forall i :: 0 <= i < |diff.value| ==> Covers(rx, keys, diff.value[i])
  }

  /** Key by key: everything that differs and is not cancelled within its list is listed. */
  lemma CoveredExactly(rx: Regex, pr: Printer, keys: seq<string>, m1: Flat, m2: Flat, diff: Option<seq<Difference>>)
    requires IsDiff(pr, m1, m2, diff)
    ensures AllCovered(rx, keys, diff) <==> forall k :: Reported(pr, m1, m2, k) ==> Listed(rx, Starred(keys), k)
  {
    hide Reported, Listed, Starred, Ascending;
    if diff.None? {
      forall k ensures !Reported(pr, m1, m2, k) { NothingReported(pr, m1, k); }
    } else {
      var items := diff.value;
      if AllCovered(rx, keys, diff) {
        forall k | Reported(pr, m1, m2, k) ensures Listed(rx, Starred(keys), k) {
          var i :| 0 <= i < |items| && items[i] == ItemAt(pr, m1, m2, k);
          assert Covers(rx, keys, items[i]);
        }
      }
      if forall k :: Reported(pr, m1, m2, k) ==> Listed(rx, Starred(keys), k) {
        forall i | 0 <= i < |items| ensures Covers(rx, keys, items[i]) { assert items[i] in items; }
      }
    }
  }

  lemma NothingReported(pr: Printer, m: Flat, k: string)
    ensures !Reported(pr, m, m, k)
  {}

  /** An unmutated update keeps the value under every key that has no numeric middle segment, is not
      masked, and is not ignored. */
  lemma UnmutatedKeeps(rx: Regex, pr: Printer, oldObj: Node, newObj: Node, e: Evidence, keys: seq<string>)
    requires MaskedEvidence(rx, pr, oldObj, newObj, e) && AllCovered(rx, keys, e.diff)
    ensures forall k :: !NumericMiddle(k) && !Listed(rx, Starred(keys), k) ==> Lookup(e.m1, k) == Lookup(e.m2, k)
  {
    hide NumericMiddle, Listed, Starred, RavelOf, IsDiff, RecursiveMask;
    CoveredExactly(rx, pr, keys, e.m1, e.m2, e.diff);
    forall k | !NumericMiddle(k) && Lookup(e.m1, k) != Lookup(e.m2, k) ensures Reported(pr, e.m1, e.m2, k) {}
  }

  /** The rule is the list of eleven names. */
  lemma MutationRuleExactly(rx: Regex, k: string)
    ensures MutationRule(rx)(k) <==> exists i :: 0 <= i < 11 && k == MutationName(i)
  {
    hide MutationName, MutationMask;
    MutationMaskExactly(rx, k);
  }

  lemma EndsInDigit(cur: string, i: nat)
    ensures var k := AppendKey(cur, Itoa(i)); k != "" && IsDigit(k[|k| - 1])
  {
    assert Itoa(i)[|Itoa(i)| - 1] == AppendKey(cur, Itoa(i))[|AppendKey(cur, Itoa(i))| - 1];
  }

  /** None of the names is that of a slice element. */
  lemma NameEnds(i: nat)
    requires i < 11
    ensures var k := MutationName(i); k != "" && !IsDigit(k[|k| - 1])
  {}

  lemma {:induction false} NoElementMasked(rx: Regex, n: Node, cur: string)
    ensures NoListedElement(n, cur, MutationRule(rx))
    decreases n
  {
    hide MutationRule, Itoa, AppendKey, MutationName;
    match n
    case MapNode(m) =>
      forall k | k in m ensures NoListedElement(m[k], AppendKey(cur, k), MutationRule(rx)) {
        NoElementMasked(rx, m[k], AppendKey(cur, k));
      }
    case SliceNode(s) =>
      forall i | 0 <= i < |s|
        ensures !MutationRule(rx)(AppendKey(cur, Itoa(i)))
        ensures NoListedElement(s[i], AppendKey(cur, Itoa(i)), MutationRule(rx))
      {
        NoElementMasked(rx, s[i], AppendKey(cur, Itoa(i)));
        MutationRuleExactly(rx, AppendKey(cur, Itoa(i)));
        EndsInDigit(cur, i);
        forall j: nat | j < 11 ensures MutationName(j) != AppendKey(cur, Itoa(i)) { NameEnds(j); }
      }
    case _ =>
  }

  /** The path neither is nor lies under one of the eleven keys. */
  ghost predicate OutsideNames(p: Path) {
    forall i, j :: 1 <= i <= |p| && 0 <= j < 11 ==> Render(p[..i]) != MutationName(j)
  }

  lemma OutsideUnlisted(rx: Regex, p: Path)
    ensures Unlisted("", p, MutationRule(rx)) <==> OutsideNames(p)
  {
    hide MutationRule, MutationName, Unlisted;
    UnlistedPrefixes("", p, MutationRule(rx));
    forall i | 1 <= i <= |p|
      ensures MutationRule(rx)(RenderFrom("", p[..i])) <==> exists j :: 0 <= j < 11 && Render(p[..i]) == MutationName(j)
    {
      MutationRuleExactly(rx, Render(p[..i]));
    }
  }

  lemma MaskedHolds(rx: Regex, n: Node, m: Flat, p: Path, v: Scalar)
    requires RavelOf(RecursiveMask(n, "", MutationRule(rx)), m) && DistinctLeaves(n) && OutsideNames(p)
    ensures Lookup(m, Render(p)) == Some(v) ==> FromLeaf(n, "", Render(p), v)
    ensures HasLeaf(n, p, v) ==> Lookup(m, Render(p)) == Some(v)
  {
    hide MutationRule, RecursiveMask, Unlisted, OutsideNames, RavelOf;
    var masked := RecursiveMask(n, "", MutationRule(rx));
    NoElementMasked(rx, n, "");
    NothingMoves(n, "", MutationRule(rx));
    DistinctWhenMasked(n, MutationRule(rx));
    RavelExact(masked, m);
    OutsideUnlisted(rx, p);
    forall q, w ensures HasLeaf(masked, q, w) <==> HasLeaf(n, q, w) && Unlisted("", q, MutationRule(rx)) {
      MaskLeaves(n, "", MutationRule(rx), q, w);
    }
    if HasLeaf(n, p, v) { assert FromLeaf(masked, "", Render(p), v); }
    if Lookup(m, Render(p)) == Some(v) {
      assert FromLeaf(masked, "", Render(p), v);
      var q :| HasLeaf(masked, q, v) && RenderFrom("", q) == Render(p);
      assert HasLeaf(n, q, v);
    }
  }

  /** A value that is gone or changed, at a path outside the eleven keys, without a numeric middle
      segment and not ignored, makes the update a mutation. */
  lemma ChangeIsMutation(rx: Regex, pr: Printer, oldObj: Node, newObj: Node, e: Evidence, keys: seq<string>, p: Path,
                         v: Scalar)
    requires MaskedEvidence(rx, pr, oldObj, newObj, e) && DistinctLeaves(oldObj) && DistinctLeaves(newObj)
    requires HasLeaf(oldObj, p, v) && !FromLeaf(newObj, "", Render(p), v)
    requires OutsideNames(p) && !NumericMiddle(Render(p)) && !Listed(rx, Starred(keys), Render(p))
    ensures !AllCovered(rx, keys, e.diff)
  {
    hide NumericMiddle, Listed, Starred, RavelOf, IsDiff, RecursiveMask, OutsideNames;
    hide DistinctLeaves, HasLeaf, FromLeaf;
    MaskedHolds(rx, oldObj, e.m1, p, v);
    MaskedHolds(rx, newObj, e.m2, p, v);
    if AllCovered(rx, keys, e.diff) { UnmutatedKeeps(rx, pr, oldObj, newObj, e, keys); }
  }

  /** But a value that moves from one list element to another is no mutation. */
  lemma MovedValueUnmutated(rx: Regex, pr: Printer, v: Scalar, keys: seq<string>, diff: Option<seq<Difference>>)
    requires pr.twin("a.0.b", "a.1.b") && pr.twin("a.1.b", "a.0.b")
    requires IsDiff(pr, map["a.0.b" := v], map["a.1.b" := v], diff)
    ensures diff == Some([]) && AllCovered(rx, keys, diff)
  {
    hide Ascending;
    var m1, m2 := map["a.0.b" := v], map["a.1.b" := v];
    assert "a.0.b"[2] != "a.1.b"[2];
    assert "a.0.b" in m1 && "a.0.b" !in m2;
    NumericKeys();
    assert CancelledBy(pr, m1, m2, "a.0.b", "a.1.b") && CancelledBy(pr, m1, m2, "a.1.b", "a.0.b");
    assert forall k :: Differs(m1, m2, k) ==> k == "a.0.b" || k == "a.1.b";
    assert forall k :: !Reported(pr, m1, m2, k);
    AllCancelled(pr, m1, m2, diff);
  }

  lemma AllCancelled(pr: Printer, m1: Flat, m2: Flat, diff: Option<seq<Difference>>)
    requires IsDiff(pr, m1, m2, diff) && m1 != m2 && forall k :: !Reported(pr, m1, m2, k)
    ensures diff == Some([])
  {
    hide Reported, Ascending;
    FirstIsMember(diff.value);
  }

  lemma FirstIsMember(items: seq<Difference>)
    ensures items != [] ==> items[0] in items
  {}

  lemma NumericKeys()
    ensures NumericMiddle("a.0.b") && NumericMiddle("a.1.b")
  {
    assert "a.0.b"[1] == '.' && "a.0.b"[3] == '.' && "a.0.b"[2..3] == "0";
    assert "a.1.b"[1] == '.' && "a.1.b"[3] == '.' && "a.1.b"[2..3] == "1";
    assert AllDigits("a.0.b"[2..3]) && AllDigits("a.1.b"[2..3]);
  }

  /** Old and new object are masked with one list, which the first use rewrites; the rule stays
      the same. */
  method MaskBoth(rx: Regex, oldObj: Node, newObj: Node) returns (oldMasked: Node, newMasked: Node)
    ensures oldMasked == RecursiveMask(oldObj, "", MutationRule(rx))
    ensures newMasked == RecursiveMask(newObj, "", MutationRule(rx))
  {
    hide WellQuoted, AllStop, RecursiveMask, MutationMask, StableKey, NoWildcard, ListedBy;
    var mask := new string[|MutationMask()|](i requires 0 <= i < |MutationMask()| => MutationMask()[i]);
    assert mask[..] == MutationMask();
    MutationMaskOneRule();
    SameKeysBothSides(rx, oldObj, newObj, MutationMask());
    oldMasked := MaskNode(rx, oldObj, mask);
    newMasked := MaskNode(rx, newObj, mask);
  }

  /** `GetMAResult` on the masked objects, which travel as plain maps. */
  method GetMAResult(rx: Regex, pr: Printer, before: Json, after: Json, allMaskKeys: array<string>)
    returns (isMutated: bool, ghost e: Evidence)
    modifies allMaskKeys
    ensures RavelOf(NewNode(before), e.m1) && RavelOf(NewNode(after), e.m2) && IsDiff(pr, e.m1, e.m2, e.diff)
    ensures !isMutated <==> AllCovered(rx, old(allMaskKeys[..]), e.diff)
  {
    hide RavelOf, IsDiff, Covers;
    ghost var keys := allMaskKeys[..];
    var m1 := Ravel(NewNode(before));
    var m2 := Ravel(NewNode(after));
    var dr := FindDiff(pr, m1, m2);
    e := Evidence(m1, m2, dr);
    var unfiltered := [];
    if dr.Some? {
      var filtered, rest, matchedKeys := FilterDiff(rx, dr.value, allMaskKeys);
      unfiltered := rest;
      NothingLeft(dr.value, d => Covers(rx, keys, d), d => !Covers(rx, keys, d));
    }
    isMutated := |unfiltered| > 0;
  }

  /** `Eval`.  The method may change no existing object: neither the profile's attribute lists
      nor anything else outlives the in-place rewrites it performs on its own copies. */
  method Eval(rx: Regex, pr: Printer, oldRaw: Raw, newRaw: Raw, fields: Fields, userGroups: string,
              ignoreAttrs: seq<AttrsPattern>, unprotectAttrs: seq<AttrsPattern>)
    returns (res: MutationResult, ghost e: Evidence)
    ensures res.checked <==> oldRaw.Parsed? && newRaw.Parsed?
    ensures !res.checked ==> !res.isMutated
    ensures res.checked ==> MaskedEvidence(rx, pr, NewNode(Object(oldRaw.fields)), NewNode(Object(newRaw.fields)), e)
    ensures res.checked ==>
              (!res.isMutated <==>
                 AllCovered(rx, old(AttrsOf(IgnoreAttrs(ignoreAttrs, unprotectAttrs, fields),
                                            Ma4kFields(fields, userGroups))), e.diff))
  {
    hide RavelOf, IsDiff, AllStop, AllCovered, AttrsOf, IgnoreAttrs, RecursiveMask, MutationMask, NewNode;
    var rules := IgnoreAttrs(ignoreAttrs, unprotectAttrs, fields);
    var allMaskKeys := GenerateMaskKeys(rules, Field(fields, "Namespace"), Field(fields, "Name"), Field(fields, "Kind"),
                                        Field(fields, "UserName"), userGroups);
    e := Evidence(map[], map[], None);
    if !oldRaw.Parsed? || !newRaw.Parsed? { return MutationResult(false, false), e; }
    var oldMasked, newMasked := MaskBoth(rx, NewNode(Object(oldRaw.fields)), NewNode(Object(newRaw.fields)));
    NodeRoundTrip(oldMasked);
    NodeRoundTrip(newMasked);
    var isMutated;
    isMutated, e := GetMAResult(rx, pr, Interface(oldMasked), Interface(newMasked), allMaskKeys);
    res := MutationResult(true, isMutated);
  }

  lemma NothingLeft<T>(items: seq<T>, f: T -> bool, notF: T -> bool)
    requires forall x :: notF(x) <==> !f(x)
    ensures Filter(items, notF) == [] <==> forall i :: 0 <= i < |items| ==> f(items[i])
  {
    if Filter(items, notF) == [] {
      forall i | 0 <= i < |items| ensures f(items[i]) { FilterMember(items, notF, items[i]); }
    } else {
      FilterMember(items, notF, Filter(items, notF)[0]);
    }
  }
}
