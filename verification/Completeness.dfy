/** Which elements the expansion of `[]` misses: `generateKeyList` of `mapnode/node.go` counts up
    the innermost index until it finds no element, and then stops. */
module Completeness {
  import opened Text
  import opened Tree
  import opened Keys
  import opened Wildcards

  /** The keys for one choice of indices, one for each pair of brackets. */
  function CheckKey(parts: seq<string>, idx: seq<nat>): string
    requires |idx| + 1 == |parts|
  {
    DropDot(Indexing(parts, idx, |idx|))
  }

  function ConcreteKey(parts: seq<string>, idx: seq<nat>): string
    requires |idx| + 1 == |parts|
  {
    DropDot(Indexing(parts, idx, |idx|) + parts[|idx|])
  }

  // ---- A concrete key determines its indices ----

  lemma LastDot(x: string, a: string, y: string, b: string)
    requires '.' !in a && '.' !in b && x + "." + a == y + "." + b
    ensures x == y && a == b
  {
    var s := x + "." + a;
    assert s[|x|] == '.' && s[|y|] == '.';
    assert forall i :: 0 <= i < |a| ==> s[|x| + 1 + i] == a[i];
    assert forall i :: 0 <= i < |b| ==> s[|y| + 1 + i] == b[i];
    assert |x| == |y|;
    assert x == s[..|x|] && a == s[|x| + 1..];
  }

  lemma {:induction false} IndexingInjective(parts: seq<string>, a: seq<nat>, b: seq<nat>, cnt: nat)
    requires cnt <= |parts| && cnt <= |a| && cnt <= |b| && Indexing(parts, a, cnt) == Indexing(parts, b, cnt)
    ensures forall i :: 0 <= i < cnt ==> a[i] == b[i]
  {
    if cnt > 0 {
      var x, y := Indexing(parts, a, cnt - 1) + parts[cnt - 1], Indexing(parts, b, cnt - 1) + parts[cnt - 1];
      var i, j := Itoa(a[cnt - 1]), Itoa(b[cnt - 1]);
      assert Indexing(parts, a, cnt) == (x + "." + i) + ".";
      assert Indexing(parts, b, cnt) == (y + "." + j) + ".";
      SameEnd(x + "." + i, y + "." + j, ".");
      SameIndex(x, a[cnt - 1], y, b[cnt - 1]);
      SameEnd(Indexing(parts, a, cnt - 1), Indexing(parts, b, cnt - 1), parts[cnt - 1]);
      IndexingInjective(parts, a, b, cnt - 1);
    }
  }

  lemma SameEnd(a: string, b: string, end: string)
    requires a + end == b + end
    ensures a == b
  {
    assert a == (a + end)[..|a + end| - |end|];
  }

  lemma SameIndex(x: string, i: nat, y: string, j: nat)
    requires x + "." + Itoa(i) == y + "." + Itoa(j)
    ensures x == y && i == j
  {
    ItoaPlain(i);
    ItoaPlain(j);
    LastDot(x, Itoa(i), y, Itoa(j));
    ItoaInjective(i, j);
  }

  /** The shapes of the two keys. */
  lemma ConcreteShape(parts: seq<string>, idx: seq<nat>)
    requires |idx| + 1 == |parts| && |idx| > 0 && (parts[|idx|] != "" ==> parts[|idx|][|parts[|idx|]| - 1] != '.')
    ensures var base := Indexing(parts, idx, |idx| - 1) + parts[|idx| - 1];
            && CheckKey(parts, idx) == base + "." + Itoa(idx[|idx| - 1])
            && ConcreteKey(parts, idx) == CheckKey(parts, idx) + (if parts[|idx|] == "" then "" else "." + parts[|idx|])
  {
    hide Itoa;
    var n := |idx|;
    DropDotShapes(Indexing(parts, idx, n - 1) + parts[n - 1], Itoa(idx[n - 1]), parts[n]);
  }

  lemma ConcreteInjective(parts: seq<string>, a: seq<nat>, b: seq<nat>)
    requires |a| + 1 == |parts| && |b| == |a| > 0 && (parts[|a|] != "" ==> parts[|a|][|parts[|a|]| - 1] != '.')
    requires ConcreteKey(parts, a) == ConcreteKey(parts, b)
    ensures a == b
  {
    hide Itoa, Indexing, CheckKey, ConcreteKey;
    var n := |a|;
    ConcreteShape(parts, a);
    ConcreteShape(parts, b);
    SameEnd(CheckKey(parts, a), CheckKey(parts, b), if parts[n] == "" then "" else "." + parts[n]);
    SameIndex(Indexing(parts, a, n - 1) + parts[n - 1], a[n - 1], Indexing(parts, b, n - 1) + parts[n - 1], b[n - 1]);
    SameEnd(Indexing(parts, a, n - 1), Indexing(parts, b, n - 1), parts[n - 1]);
    IndexingInjective(parts, a, b, n - 1);
  }

  // ---- When nothing is missed ----

  /** Every choice of indices whose element exists is among the emitted keys. */
  ghost predicate Complete(t: Node, key: string)
    requires Contains(key, "[]") && Stops(t, key)
  {
    var parts := Parts(key);
    forall idx: seq<nat> :: |idx| + 1 == |parts| && KeyExists(t, CheckKey(parts, idx)) ==>
                              ConcreteKey(parts, idx) in Expansion(t, key)
  }

  /** No element exists at an outer index other than 0. */
  ghost predicate OuterZero(t: Node, parts: seq<string>) {
    forall idx: seq<nat>, i :: |idx| + 1 == |parts| && KeyExists(t, CheckKey(parts, idx)) && 0 <= i < |idx| - 1 ==>
          idx[i] == 0
  }

  /** The innermost indices that exist have no gap. */
  ghost predicate NoGap(t: Node, parts: seq<string>)
    requires |parts| >= 2
  {
    forall i: nat, j: nat :: i < j && KeyExists(t, CheckAt(parts, j)) ==> KeyExists(t, CheckAt(parts, i))
  }

  lemma AtSlots(parts: seq<string>, j: nat)
    requires |parts| >= 2
    ensures CheckAt(parts, j) == CheckKey(parts, Slots(|parts| - 1, j)) &&
            KeyAt(parts, j) == ConcreteKey(parts, Slots(|parts| - 1, j))
  {}

  lemma ZeroSlots(idx: seq<nat>)
    requires |idx| > 0 && forall i :: 0 <= i < |idx| - 1 ==> idx[i] == 0
    ensures idx == Slots(|idx|, idx[|idx| - 1])
  {}

  /** An emitted key has outer indices 0 and an innermost index below the extent. */
  lemma EmittedIndices(t: Node, key: string, idx: seq<nat>)
    requires Contains(key, "[]") && Stops(t, key) && |idx| + 1 == |Parts(key)|
    ensures ConcreteKey(Parts(key), idx) in Expansion(t, key) <==>
            idx == Slots(|idx|, idx[|idx| - 1]) && idx[|idx| - 1] < Extent(t, key)
  {
    hide Contains, Parts, KeyExists, KeyAt, ConcreteKey, CheckAt, CheckKey, Slots;
    var parts, m := Parts(key), Extent(t, key);
    if ConcreteKey(parts, idx) in Expansion(t, key) {
      var j :| 0 <= j < m && KeyAt(parts, j) == ConcreteKey(parts, idx);
      AtSlots(parts, j);
      SlotsAt(|idx|, j);
      ConcreteInjective(parts, idx, Slots(|idx|, j));
    }
    if idx == Slots(|idx|, idx[|idx| - 1]) && idx[|idx| - 1] < m {
      AtSlots(parts, idx[|idx| - 1]);
      assert KeysUpTo(parts, m)[idx[|idx| - 1]] == ConcreteKey(parts, idx);
    }
  }

  lemma SlotsAt(n: nat, j: nat)
    requires n > 0
    ensures |Slots(n, j)| == n && Slots(n, j)[n - 1] == j && forall i :: 0 <= i < n - 1 ==> Slots(n, j)[i] == 0
  {}

  /** The expansion lists every element the brackets can stand for, if and only if no element
      exists at a non-zero outer index and the innermost indices have no gap. */
  lemma CompleteExactly(t: Node, key: string)
    requires Contains(key, "[]") && Stops(t, key)
    ensures Complete(t, key) <==> OuterZero(t, Parts(key)) && NoGap(t, Parts(key))
  {
    hide Contains, Parts, KeyExists, KeyAt, ConcreteKey, CheckAt, CheckKey, Slots, Expansion;
    var parts, m := Parts(key), Extent(t, key);
    var n := |parts| - 1;
    if Complete(t, key) {
      forall idx: seq<nat>, i | |idx| + 1 == |parts| && KeyExists(t, CheckKey(parts, idx)) && 0 <= i < |idx| - 1
        ensures idx[i] == 0
      {
        EmittedIndices(t, key, idx);
        SlotsAt(n, idx[n - 1]);
      }
      forall i: nat, j: nat | i < j && KeyExists(t, CheckAt(parts, j)) ensures KeyExists(t, CheckAt(parts, i)) {
        AtSlots(parts, j);
        SlotsAt(n, j);
        EmittedIndices(t, key, Slots(n, j));
      }
    }
    if OuterZero(t, parts) && NoGap(t, parts) {
      forall idx: seq<nat> | |idx| + 1 == |parts| && KeyExists(t, CheckKey(parts, idx))
        ensures ConcreteKey(parts, idx) in Expansion(t, key)
      {
        ZeroSlots(idx);
        AtSlots(parts, idx[n - 1]);
        assert KeyExists(t, CheckAt(parts, idx[n - 1])) && !KeyExists(t, CheckAt(parts, m));
        EmittedIndices(t, key, idx);
      }
    }
  }

  /** One pair of brackets over anything but a map is always complete, a list in particular. */
  lemma OneWildcardComplete(t: Node, key: string)
    requires Contains(key, "[]") && |Parts(key)| == 2 && WellFormed(Base(Parts(key)))
    requires var base := GetNode(t, Base(Parts(key))); base.Some? ==> !base.value.MapNode?
    ensures Stops(t, key) && Complete(t, key)
  {
    hide Contains, Parts, KeyExists, CheckAt, GetNode, Base, WellFormed, Complete;
    StopsExactly(t, key);
    CompleteExactly(t, key);
    forall i: nat, j: nat | i < j && KeyExists(t, CheckAt(Parts(key), j)) ensures KeyExists(t, CheckAt(Parts(key), i)) {
      CheckAtMeansChild(t, key, i);
      CheckAtMeansChild(t, key, j);
      AtoiItoa(i);
      AtoiItoa(j);
    }
  }

  // ---- What is missed: the lists inside a second element ----

  function Nested(v: Scalar, w: Scalar): Node {
    MapNode(map["a" := SliceNode([MapNode(map["b" := SliceNode([ValueNode(v)])]),
                                  MapNode(map["b" := SliceNode([ValueNode(w)])])])])
  }

  const NESTED_KEY := "a[].b[]"

  lemma NestedPieces()
    ensures SplitBrackets(NESTED_KEY) == ["a", ".b", ""] && Contains(NESTED_KEY, "[]")
  {
    hide SplitBrackets;
    assert OccursAt(NESTED_KEY, "[]", 1);
    assert NESTED_KEY == "a" + "[]" + ".b[]" && ".b[]" == ".b" + "[]" + "";
    FirstBrackets("a", ".b[]");
    FirstBrackets(".b", "");
    BracketFree("");
  }

  lemma NestedParts()
    ensures Contains(NESTED_KEY, "[]") && Parts(NESTED_KEY) == ["a", "b", ""]
    ensures CheckKey(["a", "b", ""], [1, 0]) == ConcreteKey(["a", "b", ""], [1, 0]) == "a.1.b.0"
  {
    hide SplitBrackets, Contains, CheckKey, ConcreteKey, NESTED_KEY;
    NestedPieces();
    assert TrimDots("a") == "a" && TrimDots(".b") == "b" && TrimDots("") == "";
    NestedShape();
  }

  lemma NestedShape()
    ensures CheckKey(["a", "b", ""], [1, 0]) == ConcreteKey(["a", "b", ""], [1, 0]) == "a.1.b.0"
  {
    hide Itoa;
    var parts := ["a", "b", ""];
    ConcreteShape(parts, [1, 0]);
    Digits();
    assert Indexing(parts, [1, 0], 0) == "";
    assert Indexing(parts, [1, 0], 1) == "a.1.";
  }

  lemma Digits()
    ensures Itoa(0) == "0" && Itoa(1) == "1" && Itoa(2) == "2"
  {}

  function Inner(w: Scalar): Node { MapNode(map["b" := SliceNode([ValueNode(w)])]) }

  lemma InnerLeaf(w: Scalar)
    ensures HasLeaf(Inner(w), ["b", "0"], w) && PlainKeys(Inner(w))
  {
    hide Itoa, Atoi;
    Digits();
    AtoiItoa(0);
    var list := SliceNode([ValueNode(w)]);
    assert ["b", "0"][1..] == ["0"] && ["0"][1..] == [];
    assert Child(list, "0") == Some(ValueNode(w));
    assert At(ValueNode(w), []) == Some(ValueNode(w));
    assert At(list, ["0"]) == Some(ValueNode(w));
    assert PlainKeys(list);
    assert PlainSegment("b");
  }

  lemma NestedLeaf(v: Scalar, w: Scalar)
    ensures KeyExists(Nested(v, w), "a.1.b.0")
  {
    hide Itoa, Atoi, Inner, HasLeaf;
    InnerLeaf(v);
    InnerLeaf(w);
    NestedInner(v, w);
    RavelReaches(Nested(v, w), ["a", "1", "b", "0"], w);
    NestedRender();
  }

  lemma NestedInner(v: Scalar, w: Scalar)
    requires HasLeaf(Inner(w), ["b", "0"], w) && PlainKeys(Inner(v)) && PlainKeys(Inner(w))
    ensures HasLeaf(Nested(v, w), ["a", "1", "b", "0"], w) && PlainKeys(Nested(v, w))
  {
    hide Itoa, Atoi;
    Digits();
    AtoiItoa(1);
    var list := SliceNode([Inner(v), Inner(w)]);
    assert Nested(v, w) == MapNode(map["a" := list]);
    assert ["a", "1", "b", "0"][1..] == ["1", "b", "0"] && ["1", "b", "0"][1..] == ["b", "0"];
    assert Child(list, "1") == Some(Inner(w));
    assert At(list, ["1", "b", "0"]) == Some(ValueNode(w));
    assert PlainKeys(list);
    assert PlainSegment("a");
  }

  lemma NestedRender()
    ensures Render(["a", "1", "b", "0"]) == "a.1.b.0"
  {
    RenderFromIsJoin("", ["a", "1", "b", "0"]);
    assert ["a", "1", "b", "0"][1..] == ["1", "b", "0"] && ["1", "b", "0"][1..] == ["b", "0"] &&
           ["b", "0"][1..] == ["0"];
    assert Join(["0"], '.') == "0";
    assert Join(["b", "0"], '.') == "b.0";
    assert Join(["1", "b", "0"], '.') == "1.b.0";
  }

  /** With two pairs of brackets the element "a.1.b.0" exists and is not listed. */
  lemma SecondListMissed(v: Scalar, w: Scalar)
    ensures Contains(NESTED_KEY, "[]") && Stops(Nested(v, w), NESTED_KEY)
    ensures KeyExists(Nested(v, w), "a.1.b.0") && "a.1.b.0" !in Expansion(Nested(v, w), NESTED_KEY)
    ensures !Complete(Nested(v, w), NESTED_KEY)
  {
    hide Contains, Parts, KeyExists, CheckKey, ConcreteKey, Expansion, Nested, NESTED_KEY;
    NestedParts();
    NestedQuoteFree();
    QuoteFreeStops(Nested(v, w), NESTED_KEY);
    NestedLeaf(v, w);
    EmittedIndices(Nested(v, w), NESTED_KEY, [1, 0]);
    SlotsAt(2, 0);
    assert [1, 0][0] == 1;
  }

  lemma NestedQuoteFree()
    ensures '"' !in NESTED_KEY
  {}

  // ---- What is missed: map keys after a gap ----

  function Gapped(v: Scalar, w: Scalar): Node {
    MapNode(map["a" := MapNode(map["0" := ValueNode(v), "2" := ValueNode(w)])])
  }

  /** A map with the keys "0" and "2" is listed up to the gap only. */
  lemma GapMissed(v: Scalar, w: Scalar)
    ensures Contains("a[]", "[]") && Stops(Gapped(v, w), "a[]") && !Complete(Gapped(v, w), "a[]")
  {
    hide Contains, Parts, KeyExists, CheckAt, Base, GetNode, Gapped, Stops, Complete, OuterZero;
    var t := Gapped(v, w);
    GapParts();
    GapQuoteFree();
    QuoteFreeStops(t, "a[]");
    Digits();
    GapLookup(v, w);
    CheckAtMeansChild(t, "a[]", 1);
    CheckAtMeansChild(t, "a[]", 2);
    CompleteExactly(t, "a[]");
  }

  lemma GapQuoteFree()
    ensures '"' !in "a[]" && WellFormed("a")
  {}

  lemma GapParts()
    ensures Contains("a[]", "[]") && Parts("a[]") == ["a", ""] && Base(["a", ""]) == "a"
  {
    assert OccursAt("a[]", "[]", 1);
    assert "a[]" == "a" + "[]" + "";
    FirstBrackets("a", "");
    BracketFree("");
    assert TrimDots("a") == "a" && TrimDots("") == "";
    EmptyIndexing(["a", ""]);
  }

  lemma GapLookup(v: Scalar, w: Scalar)
    ensures var base := GetNode(Gapped(v, w), "a");
            base.Some? && Child(base.value, "1").None? && Child(base.value, "2").Some?
  {
    SplitPlain("a", '.');
    OneSegment("a");
    assert ["a"][1..] == [];
    var inner := Gapped(v, w).children["a"];
    assert Walk(inner, []) == Some(inner);
  }
}
