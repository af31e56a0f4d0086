/** Narrowing a tree to the keys with given prefixes: `Extract` of `mapnode/node.go`. */
module Extract {
  import opened Text
  import opened Tree
  import opened Keys
  import opened Wildcards
  import opened Mask
  import opened Shifting

  predicate Kept(filters: seq<string>, k: string) { exists i :: 0 <= i < |filters| && HasPrefix(k, filters[i]) }

  predicate ParentUsed(filters: seq<string>, parent: string) {
    exists i :: 0 <= i < |filters| && (HasPrefix(filters[i], parent) || HasPrefix(parent, filters[i]))
  }

  function Parent(k: string, i: nat): string
    requires i <= |Split(k, '.')|
  {
    Join(Split(k, '.')[..i], '.')
  }

  predicate DropsParent(filters: seq<string>, k: string, x: string) {
    !ParentUsed(filters, x) && exists i :: 1 <= i < |Split(k, '.')| && Parent(k, i) == x
  }

  /** The keys `Extract` masks: flattened keys with no filter as a prefix, and dotted parents
      of flattened keys that no filter is comparable with. */
  predicate Drops(m: map<string, Scalar>, filters: seq<string>, x: string) {
    (x in m && !Kept(filters, x)) || exists k :: k in m && DropsParent(filters, k, x)
  }

  /** No key of a map inside the tree contains `c`. */
  predicate KeysAvoid(n: Node, c: char) {
    match n
    case MapNode(m) => forall k :: k in m ==> c !in k && KeysAvoid(m[k], c)
    case SliceNode(s) => forall i :: 0 <= i < |s| ==> KeysAvoid(s[i], c)
    case _ => true
  }

  /** No flattened key contains `c`; keys with no leaf below them do not matter. */
  ghost predicate LeafAvoid(n: Node, c: char) { forall p, v :: HasLeaf(n, p, v) ==> c !in Render(p) }

  /** Masking by the dropped keys terminates. */
  ghost predicate MasksStop(n: Node, filters: seq<string>) {
    forall m, x :: RavelOf(n, m) && Drops(m, filters, x) ==> Stops(n, ParseConcatKey(x))
  }

  method ExtractNode(rx: Regex, n: Node, filterKeys: array<string>)
    returns (node: Node, ghost m: map<string, Scalar>, ghost maskKeys: seq<string>)
    requires AllStop(n, Rewritten(filterKeys[..])) && MasksStop(n, Concrete(n, Rewritten(filterKeys[..])))
    modifies filterKeys
    ensures filterKeys[..] == Rewritten(old(filterKeys[..]))
    ensures RavelOf(n, m)
    ensures forall x :: x in maskKeys <==> Drops(m, Concrete(n, filterKeys[..]), x)
    ensures AllStop(n, Rewritten(maskKeys))
    ensures node == RecursiveMask(n, "", ListedBy(rx, Concrete(n, Rewritten(maskKeys))))
  {
    hide RavelOf, Drops, Stops, ParseConcatKey, Concrete, RecursiveMask;
    var flat := Ravel(n);
    m := flat;
    var filters := ValidateKeyList(n, filterKeys);
    var masks := DroppedKeys(flat, filters);
    maskKeys := masks;
    forall i | 0 <= i < |masks| ensures Stops(n, ParseConcatKey(masks[i])) {
      assert masks[i] in masks;
    }
    var keys := new string[|masks|](i requires 0 <= i < |masks| => masks[i]);
    assert keys[..] == masks;
    node := MaskNode(rx, n, keys);
  }

  method DroppedKeys(m: map<string, Scalar>, filters: seq<string>) returns (masks: seq<string>)
    ensures forall x :: x in masks <==> Drops(m, filters, x)
  {
    masks := [];
    var todo := m.Keys;
    while todo != {}
      invariant todo <= m.Keys
      invariant forall x :: x in masks <==> ((x in m && x !in todo && !Kept(filters, x)) ||
                                             exists k :: k in m && k !in todo && DropsParent(filters, k, x))
      decreases todo
    {
      var k :| k in todo;
      var mine := DroppedFor(filters, k);
      masks := masks + mine;
      todo := todo - {k};
    }
  }

  method DroppedFor(filters: seq<string>, k: string) returns (masks: seq<string>)
    ensures forall x :: x in masks <==> (x == k && !Kept(filters, k)) || DropsParent(filters, k, x)
  {
    masks := [];
    if !Kept(filters, k) { masks := masks + [k]; }
    var keyParts := Split(k, '.');
    for i := 1 to |keyParts|
      invariant forall x :: x in masks <==> (x == k && !Kept(filters, k)) ||
                                            (!ParentUsed(filters, x) && exists j :: 1 <= j < i && Parent(k, j) == x)
    {
      var parentKey := Parent(k, i);
      if !ParentUsed(filters, parentKey) { masks := masks + [parentKey]; }
    }
  }

  // ---- Characters of rendered keys ----

  lemma {:induction false} RenderAvoids(n: Node, cur: string, p: Path, c: char)
    requires KeysAvoid(n, c) && c != '.' && !IsDigit(c) && c !in cur && At(n, p).Some?
    ensures c !in RenderFrom(cur, p)
    decreases |p|
  {
    if p != [] {
      var child := Child(n, p[0]).value;
      assert c !in p[0] && KeysAvoid(child, c);
      RenderAvoids(child, AppendKey(cur, p[0]), p[1..], c);
    }
  }

  lemma {:induction false} JoinTakePrefix(parts: seq<string>, i: nat)
    requires i <= |parts|
    ensures HasPrefix(Join(parts, '.'), Join(parts[..i], '.'))
  {
    if i == 0 || |parts| <= 1 {
      if i == |parts| { assert parts[..i] == parts; }
    } else {
      JoinTakePrefix(parts[1..], i - 1);
      assert parts[..i][1..] == parts[1..][..i - 1];
      if i == 1 { assert parts[..1] == [parts[0]]; }
    }
  }

  lemma ParentIsPrefix(k: string, i: nat)
    requires i <= |Split(k, '.')|
    ensures HasPrefix(k, Parent(k, i))
  {
    JoinSplit(k, '.');
    JoinTakePrefix(Split(k, '.'), i);
  }

  lemma DroppedAvoids(n: Node, m: map<string, Scalar>, filters: seq<string>, x: string, c: char)
    requires RavelOf(n, m) && LeafAvoid(n, c) && Drops(m, filters, x)
    ensures c !in x
  {
    hide HasLeaf;
    var k :| k in m && (k == x || DropsParent(filters, k, x));
    var p :| HasLeaf(n, p, m[k]) && RenderFrom("", p) == k;
    assert Render(p) == k;
    if k != x {
      assert DropsParent(filters, k, x);
      var i :| 1 <= i < |Split(k, '.')| && Parent(k, i) == x;
      ParentIsPrefix(k, i);
    }
  }

  lemma {:induction false} RemoveAllAvoids(s: string, f: string, c: char)
    requires f != "" && c !in s
    ensures c !in RemoveAll(s, f)
    decreases |s|
  {
    if |s| >= |f| { if f <= s { RemoveAllAvoids(s[|f|..], f, c); } else { RemoveAllAvoids(s[1..], f, c); } }
  }

  lemma {:induction false} ParseSegmentsAvoid(ks: seq<string>, c: char)
    requires forall i :: 0 <= i < |ks| ==> c !in ks[i]
    ensures forall i :: 0 <= i < |ParseSegments(ks)| ==> c !in ParseSegments(ks)[i]
  {
    if ks != [] {
      ParseSegmentsAvoid(ks[1..], c);
      var k := ks[0];
      if IndexStart(k).Some? { RemoveAllAvoids(k, k[IndexStart(k).value..], c); }
    }
  }

  lemma {:induction false} SplitAvoids(s: string, sep: char, c: char)
    requires c !in s
    ensures forall i :: 0 <= i < |Split(s, sep)| ==> c !in Split(s, sep)[i]
  {
    if s != "" { SplitAvoids(s[1..], sep, c); }
  }

  /** A tree whose map keys avoid a character avoids it in its flattened keys. */
  lemma KeysLeafAvoid(n: Node, c: char)
    requires KeysAvoid(n, c) && c != '.' && !IsDigit(c)
    ensures LeafAvoid(n, c)
  {
    hide KeysAvoid;
    forall p, v | HasLeaf(n, p, v) ensures c !in Render(p) { RenderAvoids(n, "", p, c); }
  }

  /** It does in trees whose flattened keys hold no quote. */
  lemma QuoteFreeMasksStop(n: Node, filters: seq<string>)
    requires LeafAvoid(n, '"')
    ensures MasksStop(n, filters)
  {
    hide RavelOf, Drops, Stops, ParseConcatKey, LeafAvoid;
    forall m, x | RavelOf(n, m) && Drops(m, filters, x) ensures Stops(n, ParseConcatKey(x)) {
      DroppedNoQuote(n, m, filters, x);
      QuoteFreeStops(n, ParseConcatKey(x));
    }
  }

  lemma DroppedNoQuote(n: Node, m: map<string, Scalar>, filters: seq<string>, x: string)
    requires RavelOf(n, m) && LeafAvoid(n, '"') && Drops(m, filters, x)
    ensures '"' !in ParseConcatKey(x)
  {
    hide RavelOf, LeafAvoid, Drops, ParseSegments, Split;
    DroppedAvoids(n, m, filters, x, '"');
    SplitAvoids(x, '.', '"');
    ParseSegmentsAvoid(Split(x, '.'), '"');
    JoinNoQuote(SplitConcatKey(x));
  }

  // ---- What extraction keeps ----

  /** The key of a leaf is not the key of anything else on the way to a leaf. */
  ghost predicate DistinctPaths(n: Node) {
    forall p, q, v, w, i ::
      HasLeaf(n, p, v) && HasLeaf(n, q, w) && 0 <= i <= |p| && Render(p[..i]) == Render(q) ==> p[..i] == q
  }

  lemma DistinctPathsLeaves(n: Node)
    requires DistinctPaths(n)
    ensures DistinctLeaves(n)
  {
    hide HasLeaf;
    forall p, q, v, w | HasLeaf(n, p, v) && HasLeaf(n, q, w) && Render(p) == Render(q) ensures p == q {
      assert p[..|p|] == p;
    }
  }

  predicate DotFree(p: Path) { forall i :: 0 <= i < |p| ==> p[i] != "" && '.' !in p[i] }

  /** No segment on the way to a leaf is empty or holds a dot. */
  ghost predicate PlainLeaves(n: Node) { forall p, v :: HasLeaf(n, p, v) ==> DotFree(p) }

  /** So it is in particular where all map keys are plain. */
  lemma PlainKeysLeaves(n: Node)
    requires PlainKeys(n)
    ensures PlainLeaves(n)
  {
    hide PlainKeys;
    forall p, v | HasLeaf(n, p, v) ensures DotFree(p) { PlainPaths(n, p); }
  }

  lemma JoinNotEmpty(p: Path)
    ensures p != [] && p[0] != "" ==> Join(p, '.') != ""
  {}

  /** Such paths can be read back from their keys. */
  lemma RenderInjective(p: Path, q: Path)
    requires DotFree(p) && DotFree(q) && Render(p) == Render(q)
    ensures p == q
  {
    hide Split;
    RenderFromIsJoin("", p);
    RenderFromIsJoin("", q);
    JoinNotEmpty(p);
    JoinNotEmpty(q);
    if p != [] { SplitJoin(p, '.'); }
    if q != [] { SplitJoin(q, '.'); }
  }

  /** Plain leaves are enough for distinct paths. */
  lemma PlainDistinctPaths(n: Node)
    requires PlainLeaves(n)
    ensures DistinctPaths(n)
  {
    hide HasLeaf, RenderFrom;
    forall p, q, v, w, i | HasLeaf(n, p, v) && HasLeaf(n, q, w) && 0 <= i <= |p| && Render(p[..i]) == Render(q)
      ensures p[..i] == q
    {
      assert DotFree(p) && DotFree(q) && DotFree(p[..i]);
      RenderInjective(p[..i], q);
    }
  }

  /** Flattened keys without quotes, brackets and stars. */
  ghost predicate PlainChars(n: Node) { LeafAvoid(n, '"') && LeafAvoid(n, '[') && LeafAvoid(n, '*') }

  /** A key with quotes over an empty map, as in managed fields, leaves no flattened key. */
  lemma ManagedFieldsPlain(v: Scalar)
    ensures var n := MapNode(map["a" := ValueNode(v), "k:{\"uid\"}" := MapNode(map[])]);
            PlainChars(n) && !KeysAvoid(n, '"')
  {
    var n := MapNode(map["a" := ValueNode(v), "k:{\"uid\"}" := MapNode(map[])]);
    assert "k:{\"uid\"}"[3] == '"' && "k:{\"uid\"}" in n.children;
    forall p, w | HasLeaf(n, p, w) ensures Render(p) == "a" {
      var q := p[1..];
      assert p[0] in n.children && HasLeaf(n.children[p[0]], q, w);
      assert p[0] == "a" && HasLeaf(ValueNode(v), q, w);
      assert q == [] && p == ["a"];
      assert Render(p) == RenderFrom(AppendKey("", "a"), q);
    }
  }

  lemma PlainIsNormal(x: string)
    requires '"' !in x && '[' !in x
    ensures ParseConcatKey(x) == x && !Contains(x, "[]")
  {
    SplitAvoids(x, '.', '[');
    RewriteFixpoint(x);
    ContainsFirst(x, "[]");
  }

  lemma ContainsFirst(s: string, sub: string)
    requires sub != ""
    ensures Contains(s, sub) ==> sub[0] in s
  {
    if Contains(s, sub) {
      var i :| 0 <= i <= |s| && OccursAt(s, sub, i);
      assert s[i..i + |sub|][0] == s[i];
    }
  }

  /** On plain trees the masked keys mean themselves: nothing else is listed. */
  lemma DroppedMeaning(rx: Regex, n: Node, m: map<string, Scalar>, filters: seq<string>, maskKeys: seq<string>)
    requires RavelOf(n, m) && PlainChars(n)
    requires forall x :: x in maskKeys <==> Drops(m, filters, x)
    ensures AllStop(n, Rewritten(maskKeys)) && Concrete(n, Rewritten(maskKeys)) == maskKeys
    ensures forall x :: Listed(rx, maskKeys, x) <==> x in maskKeys || "" in maskKeys
  {
    hide RavelOf, LeafAvoid, Drops, ParseConcatKey;
    forall i | 0 <= i < |maskKeys|
      ensures ParseConcatKey(maskKeys[i]) == maskKeys[i] && !Contains(maskKeys[i], "[]") && '*' !in maskKeys[i]
    {
      assert maskKeys[i] in maskKeys;
      DroppedAvoids(n, m, filters, maskKeys[i], '"');
      DroppedAvoids(n, m, filters, maskKeys[i], '[');
      DroppedAvoids(n, m, filters, maskKeys[i], '*');
      PlainIsNormal(maskKeys[i]);
    }
    assert Rewritten(maskKeys) == maskKeys;
    ConcreteNoWildcard(n, maskKeys);
    forall x ensures Listed(rx, maskKeys, x) <==> x in maskKeys || "" in maskKeys { ListedPlain(rx, maskKeys, x); }
  }

  lemma ListedPlain(rx: Regex, keys: seq<string>, x: string)
    requires forall i :: 0 <= i < |keys| ==> '*' !in keys[i]
    ensures Listed(rx, keys, x) <==> x in keys || "" in keys
  {
    if x in keys { var i :| 0 <= i < |keys| && keys[i] == x; assert IsListed(rx, x, keys[i]); }
    if "" in keys { var i :| 0 <= i < |keys| && keys[i] == ""; assert IsListed(rx, x, keys[i]); }
  }

  /** A leaf whose key has a filter as prefix has no dropped ancestor: two prefixes of one
      string are comparable. */
  lemma KeptHasNoDroppedAncestor(n: Node, m: map<string, Scalar>, filters: seq<string>, p: Path, v: Scalar, i: nat)
    requires RavelOf(n, m) && DistinctPaths(n) && HasLeaf(n, p, v) && Kept(filters, Render(p)) && i <= |p|
    ensures !Drops(m, filters, Render(p[..i]))
  {
    hide RavelOf, HasLeaf, DistinctPaths, Parent;
    var x := Render(p[..i]);
    AncestorPrefix(p, i);
    assert ParentUsed(filters, x) by {
      var f :| 0 <= f < |filters| && HasPrefix(Render(p), filters[f]);
      PrefixesComparable(Render(p), filters[f], x);
    }
    if x in m { LeafAncestorIsSelf(n, m, p, v, i); }
  }

  lemma AncestorPrefix(p: Path, i: nat)
    requires i <= |p|
    ensures HasPrefix(Render(p), Render(p[..i]))
  {
    assert p == p[..i] + p[i..];
    RenderFromConcat("", p[..i], p[i..]);
    RenderFromPrefix(Render(p[..i]), p[i..]);
  }

  /** The key of a proper ancestor of a leaf is not itself a flattened key. */
  lemma LeafAncestorIsSelf(n: Node, m: map<string, Scalar>, p: Path, v: Scalar, i: nat)
    requires RavelOf(n, m) && DistinctPaths(n) && HasLeaf(n, p, v) && i <= |p| && Render(p[..i]) in m
    ensures p[..i] == p
  {
    hide RenderFrom;
    var x := Render(p[..i]);
    var l :| HasLeaf(n, l, m[x]) && RenderFrom("", l) == x;
    assert Render(p[..i]) == Render(l) && p[..i] == l;
    assert p == l + p[i..];
    AtConcat(n, l, p[i..]);
  }

  lemma PrefixesComparable(s: string, a: string, b: string)
    requires HasPrefix(s, a) && HasPrefix(s, b)
    ensures HasPrefix(a, b) || HasPrefix(b, a)
  {
    if |a| <= |b| { assert b[..|a|] == a; } else { assert a[..|b|] == b; }
  }

  lemma LeafSurvives(rx: Regex, n: Node, m: map<string, Scalar>, filters: seq<string>, maskKeys: seq<string>, p: Path,
                     v: Scalar)
    requires RavelOf(n, m) && PlainChars(n) && DistinctPaths(n) && !n.ValueNode?
    requires forall x :: x in maskKeys <==> Drops(m, filters, x)
    requires HasLeaf(n, p, v)
    ensures Unlisted("", p, ListedBy(rx, maskKeys)) <==> Kept(filters, Render(p))
  {
    hide RavelOf, Drops, Kept, DistinctPaths, PlainChars, Listed, Unlisted;
    DroppedMeaning(rx, n, m, filters, maskKeys);
    UnlistedPrefixes("", p, ListedBy(rx, maskKeys));
    if Kept(filters, Render(p)) {
      assert p[..0] == [];
      KeptHasNoDroppedAncestor(n, m, filters, p, v, 0);
      forall i | 1 <= i <= |p| ensures !ListedBy(rx, maskKeys)(RenderFrom("", p[..i])) {
        KeptHasNoDroppedAncestor(n, m, filters, p, v, i);
      }
    } else {
      LeafKeyDropped(n, m, filters, p, v);
      assert p[..|p|] == p && Render(p) in maskKeys;
      assert ListedBy(rx, maskKeys)(RenderFrom("", p[..|p|]));
    }
  }

  lemma LeafKeyDropped(n: Node, m: map<string, Scalar>, filters: seq<string>, p: Path, v: Scalar)
    requires RavelOf(n, m) && HasLeaf(n, p, v) && !Kept(filters, Render(p))
    ensures Drops(m, filters, Render(p))
  {
    assert FromLeaf(n, "", Render(p), v);
  }

  /** The flattened tree, restricted to the keys that have one of the filters as a prefix. */
  function Restricted(m: map<string, Scalar>, filters: seq<string>): map<string, Scalar> {
    map k | k in m && Kept(filters, k) :: m[k]
  }

  /** The flattened result of extraction is that restriction, as long as no kept slice element comes
      after a dropped one. */
  lemma ExtractRestricts(rx: Regex, n: Node, m: map<string, Scalar>, filters: seq<string>, maskKeys: seq<string>,
                         extracted: map<string, Scalar>)
    requires PlainChars(n) && DistinctPaths(n) && !n.ValueNode? && RavelOf(n, m)
    requires (forall x :: x in maskKeys <==> Drops(m, filters, x)) && AllStop(n, Rewritten(maskKeys))
    requires InPlace(n, "", ListedBy(rx, Concrete(n, Rewritten(maskKeys))))
    requires RavelOf(RecursiveMask(n, "", ListedBy(rx, Concrete(n, Rewritten(maskKeys)))), extracted)
    ensures extracted == Restricted(m, filters)
  {
    hide Drops, Kept, PlainChars, InPlace, ListedBy, RecursiveMask, Unlisted, FromLeaf, Concrete;
    DroppedMeaning(rx, n, m, filters, maskKeys);
    var node := RecursiveMask(n, "", ListedBy(rx, maskKeys));
    StaysExactly(n, "", ListedBy(rx, maskKeys));
    forall p, v ensures HasLeaf(node, p, v) <==> HasLeaf(n, p, v) && Kept(filters, Render(p)) {
      if HasLeaf(n, p, v) { LeafSurvives(rx, n, m, filters, maskKeys, p, v); }
    }
    DistinctPathsLeaves(n);
    assert DistinctLeaves(node);
    RavelExact(n, m);
    RavelExact(node, extracted);
    RestrictedLeaves(n, node, filters);
    var r := Restricted(m, filters);
    forall k | k in extracted ensures k in r && r[k] == extracted[k] { assert FromLeaf(node, "", k, extracted[k]); }
    forall k | k in r ensures k in extracted { assert FromLeaf(n, "", k, m[k]); }
  }

  lemma RestrictedLeaves(n: Node, node: Node, filters: seq<string>)
    requires forall p, v :: HasLeaf(node, p, v) <==> HasLeaf(n, p, v) && Kept(filters, Render(p))
    ensures forall k, v :: FromLeaf(node, "", k, v) <==> FromLeaf(n, "", k, v) && Kept(filters, k)
  {
    hide Kept, HasLeaf;
  }

  /** What masking by the dropped keys lists on plain trees. */
  function DroppedBy(m: map<string, Scalar>, filters: seq<string>): string -> bool {
    x => Drops(m, filters, x) || Drops(m, filters, "")
  }

  /** No kept slice element comes after a dropped one. */
  ghost predicate KeepsPlaces(n: Node, filters: seq<string>) {
    forall m :: RavelOf(n, m) ==> InPlace(n, "", DroppedBy(m, filters))
  }

  lemma {:induction false} UnlistedSame(cur: string, p: Path, a: string -> bool, b: string -> bool)
    requires forall x :: a(x) <==> b(x)
    ensures Unlisted(cur, p, a) <==> Unlisted(cur, p, b)
    decreases |p|
  {
    if p != [] { UnlistedSame(AppendKey(cur, p[0]), p[1..], a, b); }
  }

  lemma ShowsSame(n: Node, cur: string, a: string -> bool, b: string -> bool)
    requires forall x :: a(x) <==> b(x)
    ensures Shows(n, cur, a) <==> Shows(n, cur, b)
  {
    hide Unlisted, HasLeaf;
    forall p ensures Unlisted(cur, p, a) <==> Unlisted(cur, p, b) { UnlistedSame(cur, p, a, b); }
  }

  /** Whether leaves stay in place depends on what is listed only. */
  lemma {:induction false} InPlaceSame(n: Node, cur: string, a: string -> bool, b: string -> bool)
    requires (forall x :: a(x) <==> b(x)) && InPlace(n, cur, a)
    ensures InPlace(n, cur, b)
    decreases n
  {
    hide Elem, AppendKey, Shows;
    match n
    case MapNode(m) =>
      forall k | k in m && !b(AppendKey(cur, k)) ensures InPlace(m[k], AppendKey(cur, k), b) {
        InPlaceSame(m[k], AppendKey(cur, k), a, b);
      }
    case SliceNode(s) =>
      forall i: nat | i < |s| && !b(Elem(cur, i))
        ensures InPlace(s[i], Elem(cur, i), b)
        ensures Shows(s[i], Elem(cur, i), b) ==> Reached(i, cur, b)
      {
        InPlaceSame(s[i], Elem(cur, i), a, b);
        ShowsSame(s[i], Elem(cur, i), a, b);
      }
    case _ =>
  }

  lemma KeepsPlacesMeaning(rx: Regex, n: Node, m: map<string, Scalar>, filters: seq<string>, maskKeys: seq<string>)
    requires PlainChars(n) && RavelOf(n, m) && KeepsPlaces(n, filters)
    requires forall x :: x in maskKeys <==> Drops(m, filters, x)
    ensures AllStop(n, Rewritten(maskKeys)) && InPlace(n, "", ListedBy(rx, Concrete(n, Rewritten(maskKeys))))
  {
    hide RavelOf, PlainChars, Drops, InPlace, Listed, Concrete, AllStop;
    DroppedMeaning(rx, n, m, filters, maskKeys);
    InPlaceSame(n, "", DroppedBy(m, filters), ListedBy(rx, maskKeys));
  }

  lemma {:induction false} OriginDotFree(n: Node, cur: string, listed: string -> bool, p: Path)
    requires Origin(n, cur, listed, p).Some? && DotFree(Origin(n, cur, listed, p).value)
    ensures DotFree(p)
    decreases |p|
  {
    hide Itoa, Atoi, AppendKey, Survivors;
    if p != [] {
      match n {
        case MapNode(m) =>
          var rest := Origin(m[p[0]], AppendKey(cur, p[0]), listed, p[1..]);
          ConsTail(p[0], rest);
          OriginDotFree(m[p[0]], AppendKey(cur, p[0]), listed, p[1..]);
        case SliceNode(s) =>
          var i, sv := Atoi(p[0]).value, Survivors(|s|, cur, listed);
          var rest := Origin(s[sv[i]], AppendKey(cur, Itoa(sv[i])), listed, p[1..]);
          ConsTail(Itoa(sv[i]), rest);
          ItoaPlain(i);
          OriginDotFree(s[sv[i]], AppendKey(cur, Itoa(sv[i])), listed, p[1..]);
      }
      assert p == [p[0]] + p[1..];
    }
  }

  /** Masking keeps leaves plain, and plain leaves stay apart. */
  lemma MaskKeepsPlain(n: Node, listed: string -> bool)
    requires PlainLeaves(n)
    ensures PlainLeaves(RecursiveMask(n, "", listed))
  {
    hide Origin, RecursiveMask, Unlisted, DotFree;
    forall p, v | HasLeaf(RecursiveMask(n, "", listed), p, v) ensures DotFree(p) {
      MaskAt(n, "", listed, p);
      var q := Origin(n, "", listed, p).value;
      MaskKeepsKind(At(n, q).value, RenderFrom("", q), listed);
      assert HasLeaf(n, q, v);
      OriginDotFree(n, "", listed, p);
    }
  }

  lemma PlainMaskedDistinct(n: Node, listed: string -> bool)
    requires PlainLeaves(n)
    ensures DistinctLeaves(RecursiveMask(n, "", listed))
  {
    hide RecursiveMask, PlainLeaves;
    MaskKeepsPlain(n, listed);
    PlainDistinctPaths(RecursiveMask(n, "", listed));
    DistinctPathsLeaves(RecursiveMask(n, "", listed));
  }

  /** For plain leaves that condition is exact: extraction restricts the flattened tree to the keys
      with a filter as prefix, if and only if no kept slice element comes after a dropped one. */
  lemma ExtractRestrictsExactly(rx: Regex, n: Node, m: map<string, Scalar>, filters: seq<string>,
                                maskKeys: seq<string>, extracted: map<string, Scalar>)
    requires PlainLeaves(n) && PlainChars(n) && !n.ValueNode? && RavelOf(n, m)
    requires (forall x :: x in maskKeys <==> Drops(m, filters, x)) && AllStop(n, Rewritten(maskKeys))
    requires RavelOf(RecursiveMask(n, "", ListedBy(rx, Concrete(n, Rewritten(maskKeys)))), extracted)
    ensures extracted == Restricted(m, filters) <==> InPlace(n, "", DroppedBy(m, filters))
  {
    hide Drops, Kept, PlainChars, PlainLeaves, InPlace, Listed, RecursiveMask, Concrete, RavelOf, AllStop, Restricted;
    PlainDistinctPaths(n);
    DroppedMeaning(rx, n, m, filters, maskKeys);
    if InPlace(n, "", DroppedBy(m, filters)) {
      InPlaceSame(n, "", DroppedBy(m, filters), ListedBy(rx, maskKeys));
      ExtractRestricts(rx, n, m, filters, maskKeys, extracted);
    }
    if extracted == Restricted(m, filters) {
      RestrictedStays(rx, n, m, filters, maskKeys, extracted);
      StaysExactly(n, "", ListedBy(rx, maskKeys));
      InPlaceSame(n, "", ListedBy(rx, maskKeys), DroppedBy(m, filters));
    }
  }

  lemma RestrictedStays(rx: Regex, n: Node, m: map<string, Scalar>, filters: seq<string>, maskKeys: seq<string>,
                        extracted: map<string, Scalar>)
    requires PlainLeaves(n) && PlainChars(n) && !n.ValueNode? && RavelOf(n, m) && DistinctPaths(n)
    requires forall x :: x in maskKeys <==> Drops(m, filters, x)
    requires RavelOf(RecursiveMask(n, "", ListedBy(rx, maskKeys)), extracted) && extracted == Restricted(m, filters)
    ensures LeavesStay(n, "", ListedBy(rx, maskKeys))
  {
    hide Drops, Kept, PlainChars, Listed, ListedBy, RecursiveMask, RavelOf, HasLeaf, Unlisted, DotFree, RenderFrom;
    var listed := ListedBy(rx, maskKeys);
    var node := RecursiveMask(n, "", listed);
    PlainMaskedDistinct(n, listed);
    MaskKeepsPlain(n, listed);
    DistinctPathsLeaves(n);
    RavelExact(n, m);
    RavelExact(node, extracted);
    forall p, v ensures HasLeaf(node, p, v) <==> HasLeaf(n, p, v) && Unlisted("", p, listed) {
      if HasLeaf(node, p, v) {
        assert FromLeaf(node, "", Render(p), v) && extracted[Render(p)] == v;
        assert FromLeaf(n, "", Render(p), v);
        var q :| HasLeaf(n, q, v) && RenderFrom("", q) == Render(p);
        RenderInjective(p, q);
        LeafSurvives(rx, n, m, filters, maskKeys, p, v);
      }
      if HasLeaf(n, p, v) && Unlisted("", p, listed) {
        LeafSurvives(rx, n, m, filters, maskKeys, p, v);
        assert FromLeaf(n, "", Render(p), v) && m[Render(p)] == v;
        assert FromLeaf(node, "", Render(p), v);
        var q :| HasLeaf(node, q, v) && RenderFrom("", q) == Render(p);
        RenderInjective(p, q);
      }
    }
  }

  /** A list of two, narrowed to its second element. */
  function Pair(v: Scalar, w: Scalar): Node { MapNode(map["a" := SliceNode([ValueNode(v), ValueNode(w)])]) }

  /** The second element moves to the place of the first, so the result is not the restriction. */
  lemma ShiftedList(rx: Regex, v: Scalar, w: Scalar, m: map<string, Scalar>, maskKeys: seq<string>,
                    extracted: map<string, Scalar>)
    requires RavelOf(Pair(v, w), m) && forall x :: x in maskKeys <==> Drops(m, ["a.1"], x)
    requires AllStop(Pair(v, w), Rewritten(maskKeys))
    requires RavelOf(RecursiveMask(Pair(v, w), "", ListedBy(rx, Concrete(Pair(v, w), Rewritten(maskKeys)))), extracted)
    ensures extracted != Restricted(m, ["a.1"])
  {
    hide Drops, Listed, RecursiveMask, Concrete, RavelOf, AllStop, Restricted, InPlace;
    PairPlain(v, w);
    ExtractRestrictsExactly(rx, Pair(v, w), m, ["a.1"], maskKeys, extracted);
    PairKeys(v, w, m);
    PairDrops(m);
    PairMoves(v, w, DroppedBy(m, ["a.1"]));
  }

  lemma PairPlain(v: Scalar, w: Scalar)
    ensures PlainLeaves(Pair(v, w)) && PlainChars(Pair(v, w))
  {
    hide PlainLeaves, LeafAvoid;
    var s := SliceNode([ValueNode(v), ValueNode(w)]);
    assert PlainKeys(s) && PlainKeys(Pair(v, w));
    assert KeysAvoid(s, '"') && KeysAvoid(s, '[') && KeysAvoid(s, '*');
    PlainKeysLeaves(Pair(v, w));
    KeysLeafAvoid(Pair(v, w), '"');
    KeysLeafAvoid(Pair(v, w), '[');
    KeysLeafAvoid(Pair(v, w), '*');
  }

  lemma PairKeys(v: Scalar, w: Scalar, m: map<string, Scalar>)
    requires RavelOf(Pair(v, w), m)
    ensures "a.0" in m && forall k :: k in m ==> k == "a.0" || k == "a.1"
  {
    hide HasLeaf, RenderFrom;
    PairPath("0");
    PairPath("1");
    PairLeaf(v, w);
    assert FromLeaf(Pair(v, w), "", "a.0", v);
    forall k | k in m ensures k == "a.0" || k == "a.1" {
      var p :| HasLeaf(Pair(v, w), p, m[k]) && RenderFrom("", p) == k;
      PairLeaves(v, w, p, m[k]);
    }
  }

  lemma PairLeaf(v: Scalar, w: Scalar)
    ensures HasLeaf(Pair(v, w), ["a", "0"], v)
  {
    var s := SliceNode([ValueNode(v), ValueNode(w)]);
    assert Itoa(0) == "0";
    IndicesAreChildren(s);
    assert Child(s, "0") == Some(ValueNode(v));
    LeafStep(s, "0", [], v);
    LeafStep(Pair(v, w), "a", ["0"], v);
    assert ["a"] + ["0"] == ["a", "0"] && ["0"] + [] == ["0"];
  }

  lemma PairLeaves(v: Scalar, w: Scalar, p: Path, x: Scalar)
    requires HasLeaf(Pair(v, w), p, x)
    ensures p == ["a", "0"] || p == ["a", "1"]
  {
    var s := SliceNode([ValueNode(v), ValueNode(w)]);
    assert Itoa(0) == "0" && Itoa(1) == "1";
    IndicesAreChildren(s);
    assert p[0] == "a" && HasLeaf(s, p[1..], x);
    var q := p[1..];
    var i: nat :| i < 2 && Itoa(i) == q[0];
    assert i == 0 || i == 1;
    assert Child(s, q[0]) == Some(s.elems[i]) && HasLeaf(s.elems[i], q[1..], x);
    assert p == ["a", q[0]];
  }

  lemma PairPath(i: string)
    ensures RenderFrom("", ["a", i]) == "a." + i
  {
    assert ["a", i][1..] == [i] && [i][1..] == [];
    assert RenderFrom("", ["a", i]) == RenderFrom("a", [i]) == RenderFrom("a" + "." + i, []);
    assert "a" + "." == "a.";
  }

  lemma PairDrops(m: map<string, Scalar>)
    requires "a.0" in m && forall k :: k in m ==> k == "a.0" || k == "a.1"
    ensures Drops(m, ["a.1"], "a.0") && !Drops(m, ["a.1"], "a") && !Drops(m, ["a.1"], "a.1") && !Drops(m, ["a.1"], "")
  {
    assert "a.0" != "a.1" by { assert "a.0"[2] != "a.1"[2]; }
    assert ["a.1"][0] == "a.1" && HasPrefix("a.1", "a.1") && HasPrefix("a.1", "a") && HasPrefix("a.1", "");
    assert !Kept(["a.1"], "a.0") && Kept(["a.1"], "a.1");
    assert ParentUsed(["a.1"], "a") && ParentUsed(["a.1"], "") && ParentUsed(["a.1"], "a.1");
  }

  lemma PairMoves(v: Scalar, w: Scalar, listed: string -> bool)
    requires listed("a.0") && !listed("a") && !listed("a.1")
    ensures !InPlace(Pair(v, w), "", listed)
  {
    var s := SliceNode([ValueNode(v), ValueNode(w)]);
    assert Itoa(0) == "0" && Itoa(1) == "1";
    assert AppendKey("", "a") == "a" && Elem("a", 0) == "a.0" && Elem("a", 1) == "a.1";
    assert HasLeaf(s.elems[1], [], w) && Unlisted("a.1", [], listed);
    assert Shows(s.elems[1], Elem("a", 1), listed) && !Reached(1, "a", listed);
    assert !InPlace(s, "a", listed);
  }

  predicate SliceFree(n: Node) {
    match n
    case MapNode(m) => forall k :: k in m ==> SliceFree(m[k])
    case SliceNode(_) => false
    case _ => true
  }

  /** In a tree without slices no slice element is ever listed. */
  lemma {:induction false} SliceFreeNoElement(n: Node, cur: string, listed: string -> bool)
    requires SliceFree(n)
    ensures NoListedElement(n, cur, listed)
    decreases n
  {
    if n.MapNode? {
      forall k | k in n.children ensures NoListedElement(n.children[k], AppendKey(cur, k), listed) {
        SliceFreeNoElement(n.children[k], AppendKey(cur, k), listed);
      }
    }
  }
}
