/** Masking an object a second time: `Mask` of `mapnode/node.go` rewrites the keys and expands
    `[]` again, in the masked tree. */
module Idempotence {
  import opened Text
  import opened Tree
  import opened Keys
  import opened Wildcards
  import opened Mask
  import opened Extract

  // ---- Fixpoints of masking ----

  /** No node below the root is listed. */
  ghost predicate NoListedPath(n: Node, cur: string, listed: string -> bool) {
    forall p :: p != [] && At(n, p).Some? ==> !listed(RenderFrom(cur, p))
  }

  ghost predicate ChildrenClear(n: Node, cur: string, listed: string -> bool) {
    forall seg :: Child(n, seg).Some? ==>
                    !listed(AppendKey(cur, seg)) && NoListedPath(Child(n, seg).value, AppendKey(cur, seg), listed)
  }

  lemma NoListedPathStep(n: Node, cur: string, listed: string -> bool)
    ensures NoListedPath(n, cur, listed) <==> ChildrenClear(n, cur, listed)
  {
    hide Child, AppendKey;
    if NoListedPath(n, cur, listed) {
      forall seg | Child(n, seg).Some?
        ensures !listed(AppendKey(cur, seg)) && NoListedPath(Child(n, seg).value, AppendKey(cur, seg), listed)
      {
        assert At(n, [seg]).Some? && RenderFrom(cur, [seg]) == AppendKey(cur, seg) by { assert [seg][1..] == []; }
        forall p | p != [] && At(Child(n, seg).value, p).Some? ensures !listed(RenderFrom(AppendKey(cur, seg), p)) {
          var q := [seg] + p;
          assert q[1..] == p && q[0] == seg;
          assert At(n, q).Some? && RenderFrom(cur, q) == RenderFrom(AppendKey(cur, seg), p);
        }
      }
    }
    if ChildrenClear(n, cur, listed) {
      forall p | p != [] && At(n, p).Some? ensures !listed(RenderFrom(cur, p)) {
        assert Child(n, p[0]).Some? && At(Child(n, p[0]).value, p[1..]).Some?;
      }
    }
  }

  lemma {:induction false} SurvivorsFull(cnt: nat, cur: string, listed: string -> bool)
    ensures |Survivors(cnt, cur, listed)| <= cnt
    ensures |Survivors(cnt, cur, listed)| == cnt ==> forall i :: 0 <= i < cnt ==> !listed(AppendKey(cur, Itoa(i)))
  {
    hide Itoa, AppendKey;
    if cnt > 0 { SurvivorsFull(cnt - 1, cur, listed); }
  }

  ghost predicate ElemsSettled(n: Node, cur: string, listed: string -> bool)
    requires n.SliceNode?
  {
    forall i :: 0 <= i < |n.elems| ==>
                  !listed(AppendKey(cur, Itoa(i))) && Settled(n.elems[i], AppendKey(cur, Itoa(i)), listed)
  }

  /** A masked tree keeps its slices at full length only if none of their elements is listed. */
  lemma SettledSlice(n: Node, cur: string, listed: string -> bool)
    requires n.SliceNode?
    ensures Settled(n, cur, listed) <==> ElemsSettled(n, cur, listed)
  {
    hide Itoa, AppendKey;
    if Settled(n, cur, listed) {
      MaskElemsAt(n, |n.elems|, cur, listed);
      SurvivorsFull(|n.elems|, cur, listed);
      SurvivorsAll(|n.elems|, cur, listed);
    } else if ElemsSettled(n, cur, listed) {
      SliceSettles(n, cur, listed);
    }
  }

  lemma SettledMap(n: Node, cur: string, listed: string -> bool)
    requires n.MapNode?
    ensures Settled(n, cur, listed) <==>
            forall k :: k in n.children ==>
                  !listed(AppendKey(cur, k)) && Settled(n.children[k], AppendKey(cur, k), listed)
  {
    hide AppendKey;
    if Settled(n, cur, listed) {
      assert RecursiveMask(n, cur, listed).children == n.children;
      forall k | k in n.children
        ensures !listed(AppendKey(cur, k)) && Settled(n.children[k], AppendKey(cur, k), listed)
      {
        assert k in RecursiveMask(n, cur, listed).children;
      }
    } else if forall k :: k in n.children ==>
                !listed(AppendKey(cur, k)) && Settled(n.children[k], AppendKey(cur, k), listed) {
      MapSettles(n, cur, listed);
    }
  }

  /** Masking leaves a tree alone if and only if it lists none of its paths. */
  lemma {:induction false} SettledExactly(n: Node, cur: string, listed: string -> bool)
    ensures Settled(n, cur, listed) <==> NoListedPath(n, cur, listed)
    decreases n
  {
    hide Settled, AppendKey, NoListedPath, Itoa;
    NoListedPathStep(n, cur, listed);
    match n
    case MapNode(m) =>
      SettledMap(n, cur, listed);
      forall k | k in m
        ensures Settled(m[k], AppendKey(cur, k), listed) <==> NoListedPath(m[k], AppendKey(cur, k), listed)
      {
        SettledExactly(m[k], AppendKey(cur, k), listed);
      }
      assert forall k :: k in m <==> Child(n, k).Some?;
    case SliceNode(s) =>
      SettledSlice(n, cur, listed);
      IndicesAreChildren(n);
      forall i | 0 <= i < |s|
        ensures Settled(s[i], AppendKey(cur, Itoa(i)), listed) <==> NoListedPath(s[i], AppendKey(cur, Itoa(i)), listed)
      {
        SettledExactly(s[i], AppendKey(cur, Itoa(i)), listed);
      }
    case _ => LeafSettles(n, cur, listed);
  }

  // ---- Masking never adds keys ----

  /** What can be looked up in a masked tree can be looked up in the original. */
  lemma {:induction false} WalkMasked(n: Node, cur: string, listed: string -> bool, segs: seq<string>)
    requires NoListedElement(n, cur, listed) && Walk(RecursiveMask(n, cur, listed), segs).Some?
    ensures Walk(n, segs).Some?
    decreases |segs|
  {
    hide Itoa, Atoi, AppendKey;
    if segs != [] {
      match n
      case MapNode(m) => WalkMasked(m[segs[0]], AppendKey(cur, segs[0]), listed, segs[1..]);
      case SliceNode(s) =>
        MaskElemsAt(n, |s|, cur, listed);
        SurvivorsAll(|s|, cur, listed);
        var i := Atoi(segs[0]).value;
        WalkMasked(s[i], AppendKey(cur, Itoa(i)), listed, segs[1..]);
      case _ =>
    }
  }

  /** What a key of the list stands for in a tree. */
  ghost predicate ExpandsTo(t: Node, key: string, x: string)
    requires Stops(t, key)
  {
    x in Expansion(t, key) || (Expansion(t, key) == [] && x == key)
  }

  lemma {:induction false} ConcreteMember(t: Node, keys: seq<string>, x: string)
    requires AllStop(t, keys)
    ensures x in Concrete(t, keys) <==> exists i :: 0 <= i < |keys| && ExpandsTo(t, keys[i], x)
  {
    hide Stops, Expansion;
    if keys != [] {
      var n := |keys| - 1;
      ConcreteMember(t, keys[..n], x);
      assert forall i :: 0 <= i < n ==> keys[..n][i] == keys[i];
    }
  }

  lemma StopsEverywhere(t: Node, t': Node, keys: seq<string>)
    requires AllStop(t, keys)
    ensures AllStop(t', keys)
  {
    hide Stops;
    forall i | 0 <= i < |keys| ensures Stops(t', keys[i]) {
      StopsExactly(t, keys[i]);
      StopsExactly(t', keys[i]);
    }
  }

  /** In the masked tree a key expands to fewer keys, of those it expanded to before. */
  lemma ExpansionShrinks(t: Node, listed: string -> bool, key: string)
    requires NoListedElement(t, "", listed) && Stops(t, key) && Stops(RecursiveMask(t, "", listed), key)
    ensures Expansion(RecursiveMask(t, "", listed), key) <= Expansion(t, key)
  {
    hide NoListedElement, RecursiveMask, Contains, Parts, CheckAt, KeyAt, SplitConcatKey;
    var t' := RecursiveMask(t, "", listed);
    if Contains(key, "[]") {
      var parts, m, m' := Parts(key), Extent(t, key), Extent(t', key);
      if m < m' {
        assert KeyExists(t', CheckAt(parts, m));
        WalkMasked(t, "", listed, SplitConcatKey(CheckAt(parts, m)));
        assert false;
      }
      KeysUpToPrefix(parts, m', m);
    }
  }

  lemma KeysUpToPrefix(parts: seq<string>, a: nat, b: nat)
    requires |parts| >= 2 && a <= b
    ensures KeysUpTo(parts, a) <= KeysUpTo(parts, b)
  {
    hide KeyAt;
    assert forall j :: 0 <= j < a ==> KeysUpTo(parts, a)[j] == KeysUpTo(parts, b)[j];
  }

  // ---- Masking twice ----

  /** A key whose elements were all masked away now stands for itself: does it list a path? */
  ghost predicate Resurfaces(rx: Regex, t: Node, t': Node, key: string)
    requires Stops(t, key) && Stops(t', key)
  {
    && Expansion(t, key) != [] && Expansion(t', key) == []
    && exists p :: p != [] && At(t', p).Some? && IsListed(rx, Render(p), key)
  }

  lemma MaskedPathUnlisted(t: Node, listed: string -> bool, p: Path)
    requires NoListedElement(t, "", listed) && p != [] && At(RecursiveMask(t, "", listed), p).Some?
    ensures !listed(Render(p)) && At(t, p).Some?
  {
    hide NoListedElement, RecursiveMask, Origin;
    MaskAt(t, "", listed, p);
    OriginIdentity(t, "", listed, p);
    UnlistedPrefixes("", p, listed);
    assert p[..|p|] == p;
  }

  lemma MemberLists(rx: Regex, keys: seq<string>, key: string, x: string)
    ensures key in keys && IsListed(rx, x, key) ==> Listed(rx, keys, x)
  {}

  /** `Mask` for a list already in normal form. */
  ghost function MaskBy(rx: Regex, t: Node, keys: seq<string>): Node
    requires AllStop(t, keys)
  {
    RecursiveMask(t, "", ListedBy(rx, Concrete(t, keys)))
  }

  /** A path of the masked tree that the second masking lists is listed by a resurfacing key. */
  lemma ListedAgain(rx: Regex, t: Node, keys: seq<string>, t': Node, p: Path)
    requires AllStop(t, keys) && AllStop(t', keys) && t' == RecursiveMask(t, "", ListedBy(rx, Concrete(t, keys)))
    requires NoListedElement(t, "", ListedBy(rx, Concrete(t, keys)))
    requires p != [] && At(t', p).Some? && Listed(rx, Concrete(t', keys), Render(p))
    ensures exists i :: 0 <= i < |keys| && Resurfaces(rx, t, t', keys[i])
  {
    hide NoListedElement, RecursiveMask, Stops, Expansion, IsListed, At, Render;
    var listed := ListedBy(rx, Concrete(t, keys));
    MaskedPathUnlisted(t, listed, p);
    var j :| 0 <= j < |Concrete(t', keys)| && IsListed(rx, Render(p), Concrete(t', keys)[j]);
    var y := Concrete(t', keys)[j];
    ConcreteMember(t', keys, y);
    var i :| 0 <= i < |keys| && ExpandsTo(t', keys[i], y);
    ExpansionShrinks(t, listed, keys[i]);
    ConcreteMember(t, keys, y);
    MemberLists(rx, Concrete(t, keys), y, Render(p));
    assert Resurfaces(rx, t, t', keys[i]);
  }

  /** Masking with the same keys again changes nothing, if and only if no wildcard key whose
      elements were all masked away lists a remaining path literally. */
  lemma MaskTwiceExactly(rx: Regex, t: Node, keys: seq<string>)
    requires AllStop(t, keys) && NoListedElement(t, "", ListedBy(rx, Concrete(t, keys)))
    ensures var t' := MaskBy(rx, t, keys);
            && AllStop(t', keys)
            && (MaskBy(rx, t', keys) == t' <==> forall i :: 0 <= i < |keys| ==> !Resurfaces(rx, t, t', keys[i]))
  {
    hide NoListedElement, RecursiveMask, Stops, Expansion, IsListed, At;
    var t' := MaskBy(rx, t, keys);
    StopsEverywhere(t, t', keys);
    var again := ListedBy(rx, Concrete(t', keys));
    SettledExactly(t', "", again);
    if !NoListedPath(t', "", again) {
      var p :| p != [] && At(t', p).Some? && again(RenderFrom("", p));
      ListedAgain(rx, t, keys, t', p);
    }
    if i :| 0 <= i < |keys| && Resurfaces(rx, t, t', keys[i]) {
      var p :| p != [] && At(t', p).Some? && IsListed(rx, Render(p), keys[i]);
      ConcreteMember(t', keys, keys[i]);
      assert again(RenderFrom("", p));
    }
  }

  /** Wildcard keys hold no star. */
  predicate NoStarredWildcard(keys: seq<string>) {
    forall i :: 0 <= i < |keys| && Contains(keys[i], "[]") ==> '*' !in keys[i]
  }

  /** No key resurfaces when no map key holds a bracket and no wildcard key a star. */
  lemma NothingResurfaces(rx: Regex, t: Node, t': Node, listed: string -> bool, keys: seq<string>, i: nat)
    requires AllStop(t, keys) && AllStop(t', keys) && i < |keys|
    requires KeysAvoid(t, '[') && NoStarredWildcard(keys)
    requires NoListedElement(t, "", listed) && t' == RecursiveMask(t, "", listed)
    ensures !Resurfaces(rx, t, t', keys[i])
  {
    hide NoListedElement, RecursiveMask, Stops, KeysAvoid, At;
    if Contains(keys[i], "[]") {
      forall p | p != [] && At(t', p).Some? ensures !IsListed(rx, Render(p), keys[i]) {
        MaskedPathUnlisted(t, listed, p);
        RenderAvoids(t, "", p, '[');
        ContainsFirst(keys[i], "[]");
        assert keys[i] != "*" && keys[i] != "";
      }
    }
  }

  lemma MaskByTwice(rx: Regex, t: Node, keys: seq<string>)
    requires AllStop(t, keys) && KeysAvoid(t, '[') && NoStarredWildcard(keys)
    requires NoListedElement(t, "", ListedBy(rx, Concrete(t, keys)))
    ensures AllStop(MaskBy(rx, t, keys), keys) && MaskBy(rx, MaskBy(rx, t, keys), keys) == MaskBy(rx, t, keys)
  {
    hide NoListedElement, Stops, KeysAvoid, NoStarredWildcard, Resurfaces, Concrete, ListedBy;
    MaskTwiceExactly(rx, t, keys);
    var t' := MaskBy(rx, t, keys);
    forall i | 0 <= i < |keys| ensures !Resurfaces(rx, t, t', keys[i]) {
      NothingResurfaces(rx, t, t', ListedBy(rx, Concrete(t, keys)), keys, i);
    }
  }

  /** `Mask` is idempotent for stable keys, wildcards included: masking the masked object with the
      list that the first call left behind gives the same object. */
  lemma MaskTwice(rx: Regex, t: Node, keys: seq<string>)
    requires forall i :: 0 <= i < |keys| ==> StableKey(keys[i])
    requires AllStop(t, Rewritten(keys)) && NoListedElement(t, "", ListedBy(rx, Concrete(t, Rewritten(keys))))
    requires KeysAvoid(t, '[') && NoStarredWildcard(Rewritten(keys))
    ensures var left := Rewritten(keys);
            var t' := MaskBy(rx, t, left);
            AllStop(t', Rewritten(left)) && MaskBy(rx, t', Rewritten(left)) == t'
  {
    hide NoListedElement, AllStop, KeysAvoid, StableKey, NoStarredWildcard, Rewritten, MaskBy, Concrete, ListedBy;
    RewriteTwice(keys);
    MaskByTwice(rx, t, Rewritten(keys));
  }

  // ---- An input on which the second masking removes more ----

  const LITERAL := "a[].b"

  function Literal(v: Scalar, w: Scalar): Node {
    MapNode(map["a" := SliceNode([MapNode(map["b" := ValueNode(v)])]), LITERAL := ValueNode(w)])
  }

  lemma LiteralParts()
    ensures Contains(LITERAL, "[]") && Parts(LITERAL) == ["a", "b"] && Base(["a", "b"]) == "a"
  {
    assert OccursAt(LITERAL, "[]", 1);
    assert LITERAL == "a" + "[]" + ".b";
    FirstBrackets("a", ".b");
    BracketFree(".b");
    assert TrimDots("a") == "a" && TrimDots(".b") == "b";
    EmptyIndexing(["a", "b"]);
  }

  lemma LiteralLookups(v: Scalar, w: Scalar)
    ensures SplitConcatKey("a") == ["a"] && GetNode(Literal(v, w), "a") == Some(Literal(v, w).children["a"])
    ensures GetNode(MapNode(map[LITERAL := ValueNode(w)]), "a") == None
  {
    SplitPlain("a", '.');
    assert ["a"][1..] == [];
    OneSegment("a");
    assert Walk(Literal(v, w).children["a"], []) == Some(Literal(v, w).children["a"]);
  }

  /** Expanded in the object, the wildcard key names the list element; once that is masked, it
      names the key that is spelled like it. */
  lemma LiteralExpansions(v: Scalar, w: Scalar)
    ensures var t, t' := Literal(v, w), MapNode(map[LITERAL := ValueNode(w)]);
            && Stops(t, LITERAL) && Expansion(t, LITERAL) == ["a.0.b"]
            && Stops(t', LITERAL) && Expansion(t', LITERAL) == []
  {
    hide Contains, Parts, CheckAt, KeyAt, GetNode, Base, KeyExists;
    var t, t' := Literal(v, w), MapNode(map[LITERAL := ValueNode(w)]);
    LiteralParts();
    LiteralLookups(v, w);
    ExpansionOverList(t, LITERAL, t.children["a"].elems);
    KeyShapes(["a", "b"], 0);
    assert Itoa(0) == "0";
    assert KeysUpTo(["a", "b"], 1) == [KeyAt(["a", "b"], 0)];
    assert "a" + "." + "0" + ("." + "b") == "a.0.b";
    StopsExactly(t', LITERAL);
    CheckAtMeansChild(t', LITERAL, 0);
  }

  lemma LiteralConcrete(v: Scalar, w: Scalar)
    ensures var t, t' := Literal(v, w), MapNode(map[LITERAL := ValueNode(w)]);
            && AllStop(t, ["a", LITERAL]) && Concrete(t, ["a", LITERAL]) == ["a", "a.0.b"]
            && AllStop(t', ["a", LITERAL]) && Concrete(t', ["a", LITERAL]) == ["a", LITERAL]
  {
    hide Stops, Expansion;
    LiteralExpansions(v, w);
    forall t ensures Stops(t, "a") && Expansion(t, "a") == [] { NoBrackets(t, "a"); }
    var keys := ["a", LITERAL];
    assert keys[..1] == ["a"] && ["a"][..0] == [];
    forall t | AllStop(t, keys) ensures Concrete(t, ["a"]) == ["a"] {
      assert ["a"][0] == keys[0];
      assert Concrete(t, []) == [];
    }
  }

  lemma NoBrackets(t: Node, key: string)
    requires '[' !in key
    ensures Stops(t, key) && Expansion(t, key) == []
  {
    ContainsFirst(key, "[]");
  }

  lemma LiteralNormal()
    ensures Rewritten(["a", LITERAL]) == ["a", LITERAL]
  {
    hide Split;
    SplitPlain("a", '.');
    SplitPlain("a[]", '.');
    SplitPlain("b", '.');
    SplitConcat("a[]", '.', "b");
    assert LITERAL == "a[]" + ['.'] + "b";
    assert !Indexed("a") && !Indexed("a[]") && !Indexed("b");
    RewriteFixpoint("a");
    RewriteFixpoint(LITERAL);
  }

  /** Masked once, the object keeps the literally spelled key; masked again, it loses it. */
  lemma SecondMaskingRemovesMore(rx: Regex, v: Scalar, w: Scalar)
    ensures var t, t', keys := Literal(v, w), MapNode(map[LITERAL := ValueNode(w)]), ["a", LITERAL];
            && Rewritten(keys) == keys && AllStop(t, keys) && MaskBy(rx, t, keys) == t'
            && AllStop(t', keys) && MaskBy(rx, t', keys) == MapNode(map[])
  {
    hide AllStop, Concrete, Rewritten, Literal, RecursiveMask, ListedBy, LITERAL;
    LiteralNormal();
    LiteralConcrete(v, w);
    LiteralListed(rx);
    LiteralMasked(v, w, ListedBy(rx, ["a", "a.0.b"]), ListedBy(rx, ["a", LITERAL]));
  }

  lemma LiteralListed(rx: Regex)
    ensures ListedBy(rx, ["a", "a.0.b"])("a") && !ListedBy(rx, ["a", "a.0.b"])(LITERAL) &&
            ListedBy(rx, ["a", LITERAL])(LITERAL)
  {
    assert IsListed(rx, "a", ["a", "a.0.b"][0]) && IsListed(rx, LITERAL, ["a", LITERAL][1]);
  }

  lemma LiteralMasked(v: Scalar, w: Scalar, once: string -> bool, again: string -> bool)
    requires once("a") && !once(LITERAL) && again(LITERAL)
    ensures RecursiveMask(Literal(v, w), "", once) == MapNode(map[LITERAL := ValueNode(w)])
    ensures RecursiveMask(MapNode(map[LITERAL := ValueNode(w)]), "", again) == MapNode(map[])
  {
    hide LITERAL;
    var t, t' := Literal(v, w), MapNode(map[LITERAL := ValueNode(w)]);
    assert RecursiveMask(t, "", once).children == t'.children;
    assert RecursiveMask(t', "", again).children == map[];
  }
}
