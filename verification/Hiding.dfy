/** Masks under which nothing is compared.  An empty rule lists every key (`isListed` of
    `mapnode/diff.go`), and `parseConcatKey` of `mapnode/node.go` turns some keys into it. */
module Hiding {
  import opened Text
  import opened Tree
  import opened Keys
  import opened Wildcards
  import opened Mask
  import opened Extract
  import opened Diff
  import opened Compare
  import opened Idempotence
  import opened MaskLists
  import opened Matching

  // ---- Keys that are rewritten to the empty rule ----

  /** The key is empty, an empty pair of quotes, or its quotes do not parse. */
  predicate BlankKey(key: string) { key == "" || key == "\"\"" || !WellFormed(key) }

  lemma JoinEmpty(ps: seq<string>)
    requires |ps| >= 1
    ensures Join(ps, '.') == "" <==> ps == [""]
  {}

  lemma SegmentsEmpty(ks: seq<string>)
    requires |ks| >= 1
    ensures ParseSegments(ks) == [""] <==> ks == [""]
  {
    assert ParseSegments([]) == [];
    if |ks| == 1 {
      assert ks[1..] == [] && ParseSegments(ks) == ParseSegment(ks[0]);
    }
  }

  lemma {:induction false} QuotedFieldKeeps(s: string, acc: string)
    ensures var r := QuotedField(s, acc); r.Some? ==> |r.value.0| >= |acc|
    decreases |s|
  {
    if s != "" {
      if s[0] != '"' {
        QuotedFieldKeeps(s[1..], acc + [s[0]]);
      } else if |s| > 1 && s[1] == '"' {
        QuotedFieldKeeps(s[2..], acc + ['"']);
      }
    }
  }

  lemma CsvEmpty(key: string)
    requires '"' in key
    ensures CsvFields(key) == Some([""]) <==> key == "\"\""
  {
    if key[0] == '"' {
      var s := key[1..];
      assert key == "\"" + s;
      if s != "" && s[0] != '"' { QuotedFieldKeeps(s[1..], "" + [s[0]]); }
      if |s| > 1 && s[0] == '"' && s[1] == '"' { QuotedFieldKeeps(s[2..], "" + ['"']); }
      assert s == "\"" ==> QuotedField(s, "") == Some(("", None));
    }
  }

  /** A key is rewritten to the empty rule if and only if it is blank. */
  lemma BlankExactly(key: string)
    ensures ParseConcatKey(key) == "" <==> BlankKey(key)
  {
    hide Split, ParseSegments, CsvFields;
    if '"' !in key {
      SegmentsEmpty(Split(key, '.'));
      JoinEmpty(SplitConcatKey(key));
      JoinSplit(key, '.');
      SplitPlain("", '.');
      JoinEmpty(Split(key, '.'));
    } else if CsvFields(key).Some? {
      CsvEmpty(key);
      SegmentsEmpty(CsvFields(key).value);
      JoinEmpty(SplitConcatKey(key));
    }
  }

  // ---- Masks that hide everything ----

  ghost predicate SomeBlank(mask: seq<string>) { exists i :: 0 <= i < |mask| && BlankKey(mask[i]) }

  lemma BlankRewritten(mask: seq<string>)
    ensures SomeBlank(mask) <==> "" in Rewritten(mask)
  {
    hide ParseConcatKey, BlankKey;
    forall i | 0 <= i < |mask| ensures Rewritten(mask)[i] == "" <==> BlankKey(mask[i]) { BlankExactly(mask[i]); }
  }

  /** The empty rule drops every child of every map. */
  lemma EmptyRuleHides(rx: Regex, n: Node, keys: seq<string>)
    requires n.MapNode? && AllStop(n, keys) && "" in keys
    ensures MaskBy(rx, n, keys) == MapNode(map[])
  {
    hide AllStop, Concrete;
    var i :| 0 <= i < |keys| && keys[i] == "";
    assert !Contains("", "[]");
    ConcreteMember(n, keys, "");
    assert ExpandsTo(n, keys[i], "");
    var j :| 0 <= j < |Concrete(n, keys)| && Concrete(n, keys)[j] == "";
    assert forall k :: IsListed(rx, k, Concrete(n, keys)[j]);
  }

  function Single(k: string, v: Scalar): Node { MapNode(map[k := ValueNode(v)]) }

  /** In an object with a single leaf no wildcard finds anything. */
  lemma SingleExpands(k: string, v: Scalar, key: string)
    requires Stops(Single(k, v), key)
    ensures Expansion(Single(k, v), key) == []
  {
    hide Contains, Parts, CheckAt, KeyAt, Base, KeyExists, WellFormed, Stops;
    if Contains(key, "[]") {
      StopsExactly(Single(k, v), key);
      CheckAtMeansChild(Single(k, v), key, 0);
      SingleLookup(k, v, Base(Parts(key)));
    }
  }

  lemma SingleLookup(k: string, v: Scalar, base: string)
    requires WellFormed(base)
    ensures var r := GetNode(Single(k, v), base); r.Some? ==> forall seg :: Child(r.value, seg).None?
  {
    hide ParseSegments, CsvFields, Split;
    var segs := SplitConcatKey(base);
    assert |segs| >= 1;
    LeafWalk(v, segs[1..]);
  }

  lemma LeafWalk(v: Scalar, segs: seq<string>)
    ensures Walk(ValueNode(v), segs) == if segs == [] then Some(ValueNode(v)) else None
  {}

  function Unlike(keys: seq<string>): (k: string)
    ensures |k| > 0
  {
    if keys == [] then "x" else keys[|keys| - 1] + Unlike(keys[..|keys| - 1])
  }

  lemma {:induction false} UnlikeLonger(keys: seq<string>)
    ensures forall i :: 0 <= i < |keys| ==> |keys[i]| < |Unlike(keys)|
  {
    if keys != [] {
      var n := |keys| - 1;
      UnlikeLonger(keys[..n]);
      assert forall i :: 0 <= i < n ==> keys[..n][i] == keys[i];
    }
  }

  predicate StarFree(keys: seq<string>) { forall i :: 0 <= i < |keys| ==> '*' !in keys[i] }

  lemma RewrittenStarFree(keys: seq<string>)
    requires StarFree(keys)
    ensures StarFree(Rewritten(keys))
  {
    hide SplitConcatKey;
    forall i | 0 <= i < |keys| ensures '*' !in ParseConcatKey(keys[i]) {
      SegmentsAvoid(keys[i], '*');
      JoinAvoids(SplitConcatKey(keys[i]), '*');
    }
  }

  /** Rules without stars, none of them empty, keep an object whose key is none of them. */
  lemma SingleKept(rx: Regex, keys: seq<string>, v: Scalar)
    requires StarFree(keys) && "" !in keys && AllStop(NullNode, keys)
    ensures var n := Single(Unlike(keys), v); AllStop(n, keys) && MaskBy(rx, n, keys) == n
  {
    hide AllStop, Concrete, Unlike, Stops, Expansion;
    var k, n := Unlike(keys), Single(Unlike(keys), v);
    StopsEverywhere(NullNode, n, keys);
    UnlikeLonger(keys);
    forall x | x in Concrete(n, keys) ensures x in keys { ConcreteOfSingle(k, v, keys, x); }
    forall i | 0 <= i < |Concrete(n, keys)| ensures !IsListed(rx, k, Concrete(n, keys)[i]) {
      assert Concrete(n, keys)[i] in keys;
      var j :| 0 <= j < |keys| && keys[j] == Concrete(n, keys)[i];
      assert |keys[j]| < |k| && '*' !in keys[j];
    }
    assert !ListedBy(rx, Concrete(n, keys))(AppendKey("", k));
    assert RecursiveMask(n.children[k], k, ListedBy(rx, Concrete(n, keys))) == n.children[k];
  }

  lemma ConcreteOfSingle(k: string, v: Scalar, keys: seq<string>, x: string)
    requires AllStop(Single(k, v), keys) && x in Concrete(Single(k, v), keys)
    ensures x in keys
  {
    hide Concrete, Stops, Expansion;
    ConcreteMember(Single(k, v), keys, x);
    var i :| 0 <= i < |keys| && ExpandsTo(Single(k, v), keys[i], x);
    SingleExpands(k, v, keys[i]);
  }

  /** The mask leaves nothing of the object. */
  ghost predicate Hidden(rx: Regex, n: Node, mask: seq<string>) {
    AllStop(n, Rewritten(mask)) && MaskBy(rx, n, Rewritten(mask)) == MapNode(map[])
  }

  /** A mask without stars leaves nothing of any object, if and only if one of its keys is blank. */
  lemma HidesAllExactly(rx: Regex, mask: seq<string>)
    requires StarFree(mask) && AllStop(NullNode, Rewritten(mask))
    ensures (forall n: Node :: n.MapNode? ==> Hidden(rx, n, mask)) <==> SomeBlank(mask)
  {
    hide AllStop, MaskBy, SomeBlank, Rewritten;
    BlankRewritten(mask);
    RewrittenStarFree(mask);
    if "" in Rewritten(mask) {
      forall n: Node | n.MapNode? ensures Hidden(rx, n, mask) {
        StopsEverywhere(NullNode, n, Rewritten(mask));
        EmptyRuleHides(rx, n, Rewritten(mask));
      }
    } else {
      SingleKept(rx, Rewritten(mask), Bool(true));
      var n := Single(Unlike(Rewritten(mask)), Bool(true));
      assert n.children != map[] by { assert Unlike(Rewritten(mask)) in n.children; }
      assert !Hidden(rx, n, mask);
    }
  }

  // ---- Comparisons that accept everything ----

  /** Any two objects match under the mask. */
  ghost predicate Indifferent(rx: Regex, mask: seq<string>) {
    forall org: Node, req: Node, s ::
      org.MapNode? && req.MapNode? && Compared(rx, org, req, [], mask, s) ==> s.m1 == s.m2
  }

  lemma EmptyFlat(m: map<string, Scalar>)
    ensures RavelOf(MapNode(map[]), m) <==> m == map[]
  {
    forall k, v ensures !FromLeaf(MapNode(map[]), "", k, v) {}
  }

  lemma SingleFlat(k: string, v: Scalar)
    ensures RavelOf(Single(k, v), map[k := v])
  {
    var n := Single(k, v);
    assert [k][1..] == [];
    assert HasLeaf(n, [k], v);
    assert RenderFrom("", [k]) == RenderFrom(AppendKey("", k), []) == k;
    assert FromLeaf(n, "", k, v);
    forall x, w | FromLeaf(n, "", x, w) ensures x == k {
      var p :| HasLeaf(n, p, w) && RenderFrom("", p) == x;
      assert p[0] == k && HasLeaf(ValueNode(v), p[1..], w);
      assert p == [k];
    }
  }

  /** Under a mask with a blank key any two objects compare as empty. */
  lemma BlankCompares(rx: Regex, org: Node, req: Node, mask: seq<string>)
    requires org.MapNode? && req.MapNode? && SomeBlank(mask)
    requires AllStop(org, Rewritten(mask)) && AllStop(req, Rewritten(Rewritten(mask)))
    ensures Compared(rx, org, req, [], mask, Sides(MapNode(map[]), MapNode(map[]), map[], map[]))
    ensures MaskBy(rx, org, Rewritten(mask)) == MaskBy(rx, req, Rewritten(Rewritten(mask))) == MapNode(map[])
  {
    hide AllStop, RavelOf, SomeBlank, Concrete, ListedBy, RecursiveMask;
    BlankRewritten(mask);
    BlankRewritten(Rewritten(mask));
    var i :| 0 <= i < |mask| && Rewritten(mask)[i] == "";
    assert BlankKey(Rewritten(mask)[i]);
    assert SomeBlank(Rewritten(mask)) by { SomeBlankAt(Rewritten(mask), i); }
    EmptyRuleHides(rx, org, Rewritten(mask));
    EmptyRuleHides(rx, req, Rewritten(Rewritten(mask)));
    EmptyFlat(map[]);
    assert Rewritten([]) == [];
  }

  lemma SomeBlankAt(mask: seq<string>, i: nat)
    requires i < |mask| && BlankKey(mask[i])
    ensures SomeBlank(mask)
  {}

  /** A mask without stars makes any two objects match, if and only if one of its keys is blank. */
  lemma IndifferentExactly(rx: Regex, mask: seq<string>)
    requires StarFree(mask) && AllStop(NullNode, Rewritten(mask)) && AllStop(NullNode, Rewritten(Rewritten(mask)))
    ensures Indifferent(rx, mask) <==> SomeBlank(mask)
  {
    hide AllStop, SomeBlank, Compared, MaskBy;
    if SomeBlank(mask) {
      forall org: Node, req: Node, s | org.MapNode? && req.MapNode? && Compared(rx, org, req, [], mask, s)
        ensures s.m1 == s.m2
      {
        BlankMatches(rx, org, req, mask, s);
      }
    } else {
      BlankRewritten(mask);
      RewrittenStarFree(mask);
      var s := NothingAgainstSomething(rx, mask);
    }
  }

  lemma BlankMatches(rx: Regex, org: Node, req: Node, mask: seq<string>, s: Sides)
    requires org.MapNode? && req.MapNode? && SomeBlank(mask) && Compared(rx, org, req, [], mask, s)
    ensures s.m1 == s.m2
  {
    hide AllStop, SomeBlank, Narrowed, RavelOf, RecursiveMask, Concrete;
    MaskedSides(rx, org, req, mask, s);
    BlankCompares(rx, org, req, mask);
    EmptyFlat(s.m1);
    EmptyFlat(s.m2);
  }

  lemma NothingAgainstSomething(rx: Regex, mask: seq<string>) returns (s: Sides)
    requires StarFree(Rewritten(mask)) && "" !in Rewritten(mask)
    requires AllStop(NullNode, Rewritten(mask)) && AllStop(NullNode, Rewritten(Rewritten(mask)))
    ensures Compared(rx, Single(Unlike(Rewritten(mask)), Bool(true)), MapNode(map[]), [], mask, s) && s.m1 != s.m2
  {
    hide AllStop, RavelOf, Concrete, ListedBy, Unlike;
    var keys := Rewritten(mask);
    var k, n := Unlike(keys), Single(Unlike(keys), Bool(true));
    s := Sides(n, MapNode(map[]), map[k := Bool(true)], map[]);
    SingleKept(rx, keys, Bool(true));
    StopsEverywhere(NullNode, MapNode(map[]), Rewritten(keys));
    SingleFlat(k, Bool(true));
    EmptyFlat(map[]);
    assert Rewritten([]) == [];
    assert k in s.m1;
  }

  // ---- Focused comparisons ----

  /** A leaf outside the focus has a blank key. */
  ghost predicate BlankLeaf(n: Node, focus: seq<string>)
    requires AllStop(n, focus)
  {
    exists k, v :: FromLeaf(n, "", k, v) && !Kept(Concrete(n, focus), k) && BlankKey(k)
  }

  /** Such a key is dropped, and takes the whole object with it. */
  lemma BlankLeafHides(rx: Regex, n: Node, focus: seq<string>, mask: seq<string>, r: Node)
    requires n.MapNode? && focus != [] && AllStop(n, focus) && Narrowed(rx, n, focus, mask, r) && BlankLeaf(n, focus)
    ensures r == MapNode(map[])
  {
    hide AllStop, Concrete, FromLeaf, Kept, BlankKey, RecursiveMask, SomeBlank;
    var m, dropped :| FocusedBy(rx, n, focus, r, m, dropped);
    var k, v :| FromLeaf(n, "", k, v) && !Kept(Concrete(n, focus), k) && BlankKey(k);
    assert Drops(m, Concrete(n, focus), k) && k in dropped;
    var i :| 0 <= i < |dropped| && dropped[i] == k;
    SomeBlankAt(dropped, i);
    BlankDropHides(rx, n, focus, r, m, dropped);
  }

  lemma BlankDropHides(rx: Regex, n: Node, focus: seq<string>, r: Node, m: Flat, dropped: seq<string>)
    requires n.MapNode? && FocusedBy(rx, n, focus, r, m, dropped) && SomeBlank(dropped)
    ensures r == MapNode(map[])
  {
    hide AllStop, Concrete, RecursiveMask, SomeBlank, Drops, RavelOf;
    BlankRewritten(dropped);
    EmptyRuleHides(rx, n, Rewritten(dropped));
  }

  /** Where flattened keys hold no brackets and stars, narrowing leaves nothing of an object if and
      only if one of the dropped keys is blank, or they name all its members. */
  lemma FocusHidesExactly(rx: Regex, n: Node, focus: seq<string>, r: Node, m: Flat, dropped: seq<string>)
    requires n.MapNode? && FocusedBy(rx, n, focus, r, m, dropped) && LeafAvoid(n, '[') && LeafAvoid(n, '*')
    ensures r == MapNode(map[]) <==> SomeBlank(dropped) || forall k :: k in n.children ==> k in Rewritten(dropped)
  {
    hide AllStop, SomeBlank, Drops, RavelOf, LeafAvoid, Concrete;
    DroppedClean(n, m, Concrete(n, focus), dropped);
    ConcreteNoWildcard(n, Rewritten(dropped));
    BlankRewritten(dropped);
    var listed := ListedBy(rx, Rewritten(dropped));
    forall k ensures listed(k) <==> "" in Rewritten(dropped) || k in Rewritten(dropped) {
      ListedPlain(rx, Rewritten(dropped), k);
    }
    MapEmptied(n, listed);
  }

  lemma MapEmptied(n: Node, listed: string -> bool)
    requires n.MapNode?
    ensures RecursiveMask(n, "", listed) == MapNode(map[]) <==> forall k :: k in n.children ==> listed(k)
  {
    var left := RecursiveMask(n, "", listed).children;
    assert forall k :: k in left <==> k in n.children && !listed(AppendKey("", k));
    assert left == map[] <==> forall k :: k !in left;
  }

  lemma DroppedClean(n: Node, m: Flat, filters: seq<string>, dropped: seq<string>)
    requires RavelOf(n, m) && LeafAvoid(n, '[') && LeafAvoid(n, '*')
    requires forall x :: x in dropped <==> Drops(m, filters, x)
    ensures StarFree(Rewritten(dropped)) && NoWildcard(Rewritten(dropped))
  {
    hide RavelOf, LeafAvoid, Drops, SplitConcatKey, Contains;
    forall i | 0 <= i < |dropped|
      ensures '*' !in dropped[i] && !Contains(ParseConcatKey(dropped[i]), "[]")
    {
      assert dropped[i] in dropped;
      DroppedAvoids(n, m, filters, dropped[i], '*');
      DroppedAvoids(n, m, filters, dropped[i], '[');
      SegmentsAvoid(dropped[i], '[');
      JoinAvoids(SplitConcatKey(dropped[i]), '[');
      ContainsFirst(ParseConcatKey(dropped[i]), "[]");
    }
    RewrittenStarFree(dropped);
  }

  /** Two objects that both have a blank leaf match under the focus, whatever else they hold. */
  lemma BlankLeavesMatch(rx: Regex, org: Node, req: Node, focus: seq<string>, mask: seq<string>, s: Sides)
    requires org.MapNode? && req.MapNode? && focus != [] && Compared(rx, org, req, focus, mask, s)
    requires AllStop(org, Rewritten(focus)) && BlankLeaf(org, Rewritten(focus))
    requires AllStop(req, Rewritten(Rewritten(focus))) && BlankLeaf(req, Rewritten(Rewritten(focus)))
    ensures s.m1 == s.m2
  {
    hide AllStop, BlankLeaf, Narrowed, RavelOf;
    BlankLeafHides(rx, org, Rewritten(focus), Rewritten(mask), s.org);
    BlankLeafHides(rx, req, Rewritten(Rewritten(focus)), Rewritten(Rewritten(mask)), s.req);
    EmptyFlat(s.m1);
    EmptyFlat(s.m2);
  }

  const OPEN := "\"a"

  function Opened(u: Scalar, v: Scalar): Node { MapNode(map[OPEN := ValueNode(u), "spec" := ValueNode(v)]) }

  /** A key with an open quote, for example, hides a change of what is focused on. */
  lemma OpenKeyHidesFocus(rx: Regex, u: Scalar, v: Scalar, w: Scalar, mask: seq<string>, s: Sides)
    requires Compared(rx, Opened(u, v), Opened(u, w), ["spec"], mask, s)
    ensures s.m1 == s.m2
  {
    hide Compared, BlankLeaf, Concrete, AllStop;
    SpecStands();
    OpenedBlank(u, v);
    OpenedBlank(u, w);
    BlankLeavesMatch(rx, Opened(u, v), Opened(u, w), ["spec"], mask, s);
  }

  lemma SpecStands()
    ensures Rewritten(["spec"]) == ["spec"] && NoWildcard(["spec"])
  {
    hide ParseConcatKey, Contains;
    assert '"' !in "spec" && '[' !in "spec";
    PlainIsNormal("spec");
  }

  lemma OpenedBlank(u: Scalar, v: Scalar)
    ensures AllStop(Opened(u, v), ["spec"]) && BlankLeaf(Opened(u, v), ["spec"])
  {
    hide Concrete, AllStop, BlankKey;
    SpecStands();
    ConcreteNoWildcard(Opened(u, v), ["spec"]);
    OpenQuote();
    OpenedLeaf(u, v);
    assert OPEN[0] == '"' && "spec"[0] == 's' && ["spec"][0] == "spec";
    assert !Kept(["spec"], OPEN);
  }

  lemma OpenedLeaf(u: Scalar, v: Scalar)
    ensures FromLeaf(Opened(u, v), "", OPEN, u)
  {
    assert OPEN[0] == '"' && "spec"[0] == 's';
    assert [OPEN][1..] == [];
    assert HasLeaf(Opened(u, v), [OPEN], u);
    assert RenderFrom("", [OPEN]) == RenderFrom(AppendKey("", OPEN), []) == OPEN;
  }

  // ---- The masks in use ----

  /** Under a mask with a blank key a request agrees with every document. */
  lemma BlankAgrees(kube: Kube, doc: Doc, req: Request, mask: seq<string>)
    requires kube.yaml(doc).Some? && kube.yaml(doc).value.MapNode?
    requires kube.json(req.obj).Some? && kube.json(req.obj).value.MapNode?
    requires WellQuoted(mask) && SomeBlank(mask)
    ensures Agrees(kube, doc, req, [], mask)
  {
    hide WellQuoted, SomeBlank, AllStop, Compared, MaskBy;
    WellQuotedStops(kube.yaml(doc).value, mask);
    WellQuotedStops(kube.json(req.obj).value, Rewritten(mask));
    BlankCompares(kube.rx, kube.yaml(doc).value, kube.json(req.obj).value, mask);
  }

  lemma SomeBlankConcat(a: seq<string>, b: seq<string>)
    ensures SomeBlank(a + b) <==> SomeBlank(a) || SomeBlank(b)
    ensures StarFree(a + b) <==> StarFree(a) && StarFree(b)
  {
    hide BlankKey;
    assert forall i :: 0 <= i < |a| ==> (a + b)[i] == a[i];
    assert forall i :: 0 <= i < |b| ==> (a + b)[|a| + i] == b[i];
  }

  /** No key of the built-in list is blank. */
  lemma MessageMaskShows()
    ensures !SomeBlank(MessageMask()) && StarFree(MessageMask())
  {
    hide BlankKey, MessageEntry, ParseConcatKey;
    forall i | 0 <= i < 20 ensures !BlankKey(MessageMask()[i]) && '*' !in MessageMask()[i] {
      MessageEntryPlain(i);
      PlainEntry(MessageEntry(i));
      EntryNames(MessageEntry(i));
      BlankExactly(MessageMask()[i]);
    }
  }

  lemma DryRunKeysShow()
    ensures !SomeBlank(["metadata.name", "status"]) && StarFree(["metadata.name", "status"])
  {
    assert '"' !in "metadata.name" && '"' !in "status";
  }

  /** The scope of a signature covers every change of every object, if and only if one of its keys
      is blank. */
  lemma ScopeCoversAllExactly(rx: Regex, scope: string)
    requires StarFree(SplitCommaSeparatedKeys(scope))
    requires AllStop(NullNode, Rewritten(ScopeMask(scope))) && AllStop(NullNode, Rewritten(Rewritten(ScopeMask(scope))))
    ensures Indifferent(rx, ScopeMask(scope)) <==> SomeBlank(SplitCommaSeparatedKeys(scope))
  {
    hide AllStop, SomeBlank, StarFree, Indifferent, MessageMask, SplitCommaSeparatedKeys;
    MessageMaskShows();
    SomeBlankConcat(MessageMask(), SplitCommaSeparatedKeys(scope));
    IndifferentExactly(rx, ScopeMask(scope));
  }

  /** The ignored attributes make every message match every request, if and only if one of them
      is blank. */
  lemma IgnoreCoversAllExactly(rx: Regex, attrs: Attrs, i: nat)
    requires attrs.protect == [] && StarFree(attrs.ignore)
    requires AllStop(NullNode, Rewritten(CaseMask(attrs, i)))
    requires AllStop(NullNode, Rewritten(Rewritten(CaseMask(attrs, i))))
    ensures Indifferent(rx, CaseMask(attrs, i)) <==> SomeBlank(attrs.ignore)
  {
    hide AllStop, SomeBlank, StarFree, Indifferent, MessageMask;
    MessageMaskShows();
    DryRunKeysShow();
    SomeBlankConcat(MessageMask(), attrs.ignore);
    SomeBlankConcat(MaskKeys(attrs), ["metadata.name", "status"]);
    IndifferentExactly(rx, CaseMask(attrs, i));
  }

  /** A comma at the end of a scope adds an empty key: any update of a verified object agrees. */
  lemma TrailingCommaCoversAll(kube: Kube, req: Request)
    requires kube.yaml(req.oldObj).Some? && kube.yaml(req.oldObj).value.MapNode?
    requires kube.json(req.obj).Some? && kube.json(req.obj).value.MapNode?
    requires req.operation == "UPDATE" && req.oldVerified
    ensures SplitCommaSeparatedKeys("spec,") == ["spec", ""] && ScopeAgrees(kube, "spec,", req)
  {
    hide WellQuoted, MessageMask, Agrees, SomeBlank;
    TrailingComma();
    var keys := ["spec", ""];
    assert '"' !in "spec" && '"' !in "";
    MessageMaskOneRule();
    assert WellQuoted(keys) by { QuoteFreeWellQuoted(keys); }
    QuotedConcat(MessageMask(), keys);
    SomeBlankAt(keys, 1);
    SomeBlankConcat(MessageMask(), keys);
    BlankAgrees(kube, req.oldObj, req, ScopeMask("spec,"));
  }

  lemma TrailingComma()
    ensures SplitCommaSeparatedKeys("spec,") == ["spec", ""]
  {
    assert WithoutNewlines("spec,") == "spec,";
    assert "spec," == "spec" + "," + "";
    SplitPlain("spec", ',');
    SplitPlain("", ',');
    SplitConcat("spec", ',', "");
    assert TrimBlanks("spec") == "spec" && TrimBlanks("") == "";
  }

  lemma QuoteFreeWellQuoted(keys: seq<string>)
    requires forall i :: 0 <= i < |keys| ==> '"' !in keys[i]
    ensures WellQuoted(keys)
  {
    hide ParseConcatKey;
    forall i | 0 <= i < |keys| ensures '"' !in ParseConcatKey(keys[i]) { RewriteNoQuote(keys[i]); }
  }

  /** A blank ignored attribute makes any message match. */
  lemma BlankIgnoreAgrees(kube: Kube, message: Doc, req: Request, attrs: Attrs, signType: SignType)
    requires kube.yaml(message).Some? && kube.yaml(message).value.MapNode?
    requires kube.json(req.obj).Some? && kube.json(req.obj).value.MapNode?
    requires attrs.protect == [] && WellQuoted(attrs.ignore) && SomeBlank(attrs.ignore)
    ensures MessageAgrees(kube, message, req, attrs, signType)
  {
    hide WellQuoted, MessageMask, Agrees, SomeBlank, FocusAt, StarFree;
    MessageMaskOneRule();
    QuotedConcat(MessageMask(), attrs.ignore);
    SomeBlankConcat(MessageMask(), attrs.ignore);
    BlankAgrees(kube, message, req, MaskKeys(attrs));
    FocusSteps([], 0);
    assert AgreesAt(kube, message, req, attrs, signType, 0, 0);
  }

  /** One with an open quote, for example. */
  lemma OpenQuoteCoversAll(kube: Kube, message: Doc, req: Request, signType: SignType)
    requires kube.yaml(message).Some? && kube.yaml(message).value.MapNode?
    requires kube.json(req.obj).Some? && kube.json(req.obj).value.MapNode?
    ensures MessageAgrees(kube, message, req, Attrs([], ["\"a"]), signType)
  {
    hide WellQuoted, MessageAgrees, BlankKey;
    OpenQuote();
    SomeBlankAt(["\"a"], 0);
    BlankIgnoreAgrees(kube, message, req, Attrs([], ["\"a"]), signType);
  }

  lemma OpenQuote()
    ensures BlankKey("\"a") && WellQuoted(["\"a"])
  {
    hide ParseConcatKey;
    var key := "\"a";
    assert key[0] == '"' && key[1..] == "a" && "a"[1..] == "";
    assert QuotedField("a", "") == QuotedField("", "" + ['a']) == None;
    BlankExactly(key);
  }
}
