/** When masking leaves every remaining leaf where it was: dropping a slice element moves the
    later ones to smaller indices (`recursiveMask` of `mapnode/node.go`). */
module Shifting {
  import opened Text
  import opened Tree
  import opened Mask

  /** Some leaf below the node is not masked. */
  ghost predicate Shows(n: Node, cur: string, listed: string -> bool) {
    exists p, v :: HasLeaf(n, p, v) && Unlisted(cur, p, listed)
  }

  function Elem(cur: string, i: nat): string { AppendKey(cur, Itoa(i)) }

  /** No slice element that still shows something comes after a masked one. */
  ghost predicate InPlace(n: Node, cur: string, listed: string -> bool) {
    match n
    case MapNode(m) =>
      forall k :: k in m && !listed(AppendKey(cur, k)) ==> InPlace(m[k], AppendKey(cur, k), listed)
    case SliceNode(s) =>
      forall i: nat :: i < |s| && !listed(Elem(cur, i)) ==>
                         && InPlace(s[i], Elem(cur, i), listed)
                         && (Shows(s[i], Elem(cur, i), listed) ==> Reached(i, cur, listed))
    case _ => true
  }

  /** No element up to this one is masked. */
  predicate Reached(i: nat, cur: string, listed: string -> bool) {
    forall j: nat :: j <= i ==> !listed(Elem(cur, j))
  }

  /** The leaves of the masked tree are the unmasked leaves, each at its own path. */
  ghost predicate LeavesStay(n: Node, cur: string, listed: string -> bool) {
    forall p, v :: HasLeaf(RecursiveMask(n, cur, listed), p, v) <==> HasLeaf(n, p, v) && Unlisted(cur, p, listed)
  }

  // ---- Slice indices ----

  lemma {:induction false} SurvivorsGrow(cnt: nat, cur: string, listed: string -> bool, j: nat)
    requires j < |Survivors(cnt, cur, listed)|
    ensures j <= Survivors(cnt, cur, listed)[j]
  {
    hide Survivors;
    SurvivorsOrdered(cnt, cur, listed);
    if j > 0 { SurvivorsGrow(cnt, cur, listed, j - 1); }
  }

  /** An element that is reached keeps its index. */
  lemma {:induction false} ReachedStays(cnt: nat, cur: string, listed: string -> bool, i: nat)
    requires i < cnt && Reached(i, cur, listed)
    ensures var sv := Survivors(cnt, cur, listed); i < |sv| && sv[i] == i
  {
    hide Itoa, AppendKey;
    if cnt == i + 1 {
      forall j | 0 <= j < cnt ensures !listed(AppendKey(cur, Itoa(j))) { assert !listed(Elem(cur, j)); }
      SurvivorsAll(cnt, cur, listed);
    } else {
      ReachedStays(cnt - 1, cur, listed, i);
    }
  }

  /** And only such an element does. */
  lemma {:induction false} StaysReached(cnt: nat, cur: string, listed: string -> bool, i: nat)
    requires var sv := Survivors(cnt, cur, listed); i < |sv| && sv[i] == i
    ensures Reached(i, cur, listed)
  {
    hide Survivors, Itoa, AppendKey;
    SurvivorsOrdered(cnt, cur, listed);
    assert !listed(Elem(cur, i));
    if i > 0 {
      SurvivorsGrow(cnt, cur, listed, i - 1);
      StaysReached(cnt, cur, listed, i - 1);
    }
  }

  // ---- One step down ----

  lemma LeafStep(n: Node, seg: string, q: Path, v: Scalar)
    ensures HasLeaf(n, [seg] + q, v) <==> Child(n, seg).Some? && HasLeaf(Child(n, seg).value, q, v)
  {
    hide Child;
    assert ([seg] + q)[1..] == q;
  }

  lemma UnlistedStep(cur: string, seg: string, q: Path, listed: string -> bool)
    ensures Unlisted(cur, [seg] + q, listed) <==>
            !listed(AppendKey(cur, seg)) && Unlisted(AppendKey(cur, seg), q, listed)
  {
    assert ([seg] + q)[1..] == q;
  }

  /** What a masked tree shows, the tree shows unmasked. */
  lemma MaskedShows(n: Node, cur: string, listed: string -> bool, p: Path, v: Scalar)
    requires HasLeaf(RecursiveMask(n, cur, listed), p, v)
    ensures Shows(n, cur, listed)
  {
    hide Origin, RecursiveMask, Unlisted;
    MaskAt(n, cur, listed, p);
    var q := Origin(n, cur, listed, p).value;
    MaskKeepsKind(At(n, q).value, RenderFrom(cur, q), listed);
    assert HasLeaf(n, q, v);
  }

  lemma NothingShown(n: Node, cur: string, listed: string -> bool)
    requires !Shows(n, cur, listed)
    ensures LeavesStay(n, cur, listed)
  {
    hide RecursiveMask, Unlisted, HasLeaf;
    forall p, v ensures !HasLeaf(RecursiveMask(n, cur, listed), p, v) {
      if HasLeaf(RecursiveMask(n, cur, listed), p, v) { MaskedShows(n, cur, listed, p, v); }
    }
  }

  lemma MaskedMapChild(n: Node, cur: string, listed: string -> bool, k: string)
    requires n.MapNode?
    ensures Child(RecursiveMask(n, cur, listed), k) ==
            if k in n.children && !listed(AppendKey(cur, k))
            then Some(RecursiveMask(n.children[k], AppendKey(cur, k), listed)) else None
  {}

  lemma MaskedElem(n: Node, cur: string, listed: string -> bool, j: nat)
    requires n.SliceNode?
    ensures var sv := Survivors(|n.elems|, cur, listed);
            Child(RecursiveMask(n, cur, listed), Itoa(j)) ==
            if j < |sv| then Some(RecursiveMask(n.elems[sv[j]], Elem(cur, sv[j]), listed)) else None
  {
    hide Itoa, Atoi, AppendKey, Survivors;
    MaskElemsAt(n, |n.elems|, cur, listed);
    AtoiItoa(j);
  }

  // ---- Maps ----

  lemma MapStays(n: Node, cur: string, listed: string -> bool)
    requires n.MapNode?
    ensures LeavesStay(n, cur, listed) <==>
            forall k :: k in n.children && !listed(AppendKey(cur, k)) ==>
                          LeavesStay(n.children[k], AppendKey(cur, k), listed)
  {
    hide RecursiveMask, Unlisted, AppendKey, HasLeaf;
    var m := n.children;
    if LeavesStay(n, cur, listed) {
      forall k | k in m && !listed(AppendKey(cur, k)) ensures LeavesStay(m[k], AppendKey(cur, k), listed) {
        forall q, v
          ensures HasLeaf(RecursiveMask(m[k], AppendKey(cur, k), listed), q, v) <==>
                  HasLeaf(m[k], q, v) && Unlisted(AppendKey(cur, k), q, listed)
        {
          MapLeaf(n, cur, listed, k, q, v);
        }
      }
    }
    if forall k :: k in m && !listed(AppendKey(cur, k)) ==> LeavesStay(m[k], AppendKey(cur, k), listed) {
      forall p, v
        ensures HasLeaf(RecursiveMask(n, cur, listed), p, v) <==> HasLeaf(n, p, v) && Unlisted(cur, p, listed)
      {
        if p == [] {
          NoLeafHere(n, cur, listed, v);
        } else {
          assert [p[0]] + p[1..] == p;
          MapLeaf(n, cur, listed, p[0], p[1..], v);
        }
      }
    }
  }

  lemma NoLeafHere(n: Node, cur: string, listed: string -> bool, v: Scalar)
    requires !n.ValueNode?
    ensures !HasLeaf(n, [], v) && !HasLeaf(RecursiveMask(n, cur, listed), [], v)
  {
    MaskKeepsKind(n, cur, listed);
  }

  lemma MapLeaf(n: Node, cur: string, listed: string -> bool, k: string, q: Path, v: Scalar)
    requires n.MapNode?
    ensures HasLeaf(n, [k] + q, v) <==> k in n.children && HasLeaf(n.children[k], q, v)
    ensures Unlisted(cur, [k] + q, listed) <==>
            !listed(AppendKey(cur, k)) && Unlisted(AppendKey(cur, k), q, listed)
    ensures HasLeaf(RecursiveMask(n, cur, listed), [k] + q, v) <==>
            k in n.children && !listed(AppendKey(cur, k)) &&
            HasLeaf(RecursiveMask(n.children[k], AppendKey(cur, k), listed), q, v)
  {
    hide RecursiveMask, Unlisted, AppendKey, HasLeaf;
    LeafStep(n, k, q, v);
    LeafStep(RecursiveMask(n, cur, listed), k, q, v);
    UnlistedStep(cur, k, q, listed);
    MaskedMapChild(n, cur, listed, k);
  }

  // ---- Slices ----

  lemma SliceLeaf(n: Node, cur: string, listed: string -> bool, j: nat, q: Path, v: Scalar)
    requires n.SliceNode?
    ensures HasLeaf(n, [Itoa(j)] + q, v) <==> j < |n.elems| && HasLeaf(n.elems[j], q, v)
    ensures Unlisted(cur, [Itoa(j)] + q, listed) <==> !listed(Elem(cur, j)) && Unlisted(Elem(cur, j), q, listed)
    ensures var sv := Survivors(|n.elems|, cur, listed);
            HasLeaf(RecursiveMask(n, cur, listed), [Itoa(j)] + q, v) <==>
            j < |sv| && HasLeaf(RecursiveMask(n.elems[sv[j]], Elem(cur, sv[j]), listed), q, v)
  {
    hide RecursiveMask, Unlisted, AppendKey, HasLeaf, Itoa, Survivors;
    LeafStep(n, Itoa(j), q, v);
    LeafStep(RecursiveMask(n, cur, listed), Itoa(j), q, v);
    UnlistedStep(cur, Itoa(j), q, listed);
    MaskedElem(n, cur, listed, j);
    AtoiItoa(j);
  }

  /** In a slice whose leaves stay, an element that shows something is reached. */
  lemma {:induction false} ShowingReached(n: Node, cur: string, listed: string -> bool, i: nat)
    requires n.SliceNode? && LeavesStay(n, cur, listed)
    requires i < |n.elems| && !listed(Elem(cur, i)) && Shows(n.elems[i], Elem(cur, i), listed)
    ensures Reached(i, cur, listed)
    decreases |n.elems| - i
  {
    hide RecursiveMask, Unlisted, HasLeaf, Survivors, Elem;
    var sv := Survivors(|n.elems|, cur, listed);
    var q, v :| HasLeaf(n.elems[i], q, v) && Unlisted(Elem(cur, i), q, listed);
    SliceLeaf(n, cur, listed, i, q, v);
    assert HasLeaf(RecursiveMask(n, cur, listed), [Itoa(i)] + q, v);
    var i' := sv[i];
    SurvivorsGrow(|n.elems|, cur, listed, i);
    MaskedShows(n.elems[i'], Elem(cur, i'), listed, q, v);
    if i' == i {
      StaysReached(|n.elems|, cur, listed, i);
    } else {
      assert !listed(Elem(cur, i')) by { SurvivorUnlisted(|n.elems|, cur, listed, i); }
      ShowingReached(n, cur, listed, i');
    }
  }

  lemma SurvivorUnlisted(cnt: nat, cur: string, listed: string -> bool, j: nat)
    requires j < |Survivors(cnt, cur, listed)|
    ensures Survivors(cnt, cur, listed)[j] < cnt && !listed(Elem(cur, Survivors(cnt, cur, listed)[j]))
  {}

  lemma ElemStays(n: Node, cur: string, listed: string -> bool, i: nat)
    requires n.SliceNode? && LeavesStay(n, cur, listed) && i < |n.elems| && !listed(Elem(cur, i))
    ensures LeavesStay(n.elems[i], Elem(cur, i), listed)
  {
    hide RecursiveMask, Unlisted, HasLeaf, Survivors, Elem, Reached;
    if Shows(n.elems[i], Elem(cur, i), listed) {
      ShowingReached(n, cur, listed, i);
      ReachedStays(|n.elems|, cur, listed, i);
      forall q, v
        ensures HasLeaf(RecursiveMask(n.elems[i], Elem(cur, i), listed), q, v) <==>
                HasLeaf(n.elems[i], q, v) && Unlisted(Elem(cur, i), q, listed)
      {
        SliceLeaf(n, cur, listed, i, q, v);
      }
    } else {
      NothingShown(n.elems[i], Elem(cur, i), listed);
    }
  }

  ghost predicate ElemFine(n: Node, cur: string, listed: string -> bool, i: nat)
    requires n.SliceNode? && i < |n.elems|
  {
    !listed(Elem(cur, i)) ==>
      && LeavesStay(n.elems[i], Elem(cur, i), listed)
      && (Shows(n.elems[i], Elem(cur, i), listed) ==> Reached(i, cur, listed))
  }

  /** Path by path: a slice whose elements are fine keeps its leaves in place. */
  lemma SliceLeafStays(n: Node, cur: string, listed: string -> bool, j: nat, q: Path, v: Scalar)
    requires n.SliceNode? && forall i: nat :: i < |n.elems| ==> ElemFine(n, cur, listed, i)
    ensures HasLeaf(RecursiveMask(n, cur, listed), [Itoa(j)] + q, v) <==>
            HasLeaf(n, [Itoa(j)] + q, v) && Unlisted(cur, [Itoa(j)] + q, listed)
  {
    hide RecursiveMask, Unlisted, HasLeaf, Survivors, Elem, Reached;
    SliceLeaf(n, cur, listed, j, q, v);
    var cnt, sv := |n.elems|, Survivors(|n.elems|, cur, listed);
    if j < |sv| && HasLeaf(RecursiveMask(n.elems[sv[j]], Elem(cur, sv[j]), listed), q, v) {
      SurvivorUnlisted(cnt, cur, listed, j);
      assert ElemFine(n, cur, listed, sv[j]);
      assert Shows(n.elems[sv[j]], Elem(cur, sv[j]), listed);
      ReachedStays(cnt, cur, listed, sv[j]);
      SurvivorsOrdered(cnt, cur, listed);
    }
    if j < cnt && !listed(Elem(cur, j)) && HasLeaf(n.elems[j], q, v) && Unlisted(Elem(cur, j), q, listed) {
      assert ElemFine(n, cur, listed, j) && Shows(n.elems[j], Elem(cur, j), listed);
      ReachedStays(cnt, cur, listed, j);
    }
  }

  lemma SliceStays(n: Node, cur: string, listed: string -> bool)
    requires n.SliceNode?
    ensures LeavesStay(n, cur, listed) <==> forall i: nat :: i < |n.elems| ==> ElemFine(n, cur, listed, i)
  {
    hide RecursiveMask, Unlisted, HasLeaf, Elem, Reached, Shows;
    if LeavesStay(n, cur, listed) {
      forall i: nat | i < |n.elems| ensures ElemFine(n, cur, listed, i) {
        if !listed(Elem(cur, i)) {
          ElemStays(n, cur, listed, i);
          if Shows(n.elems[i], Elem(cur, i), listed) { ShowingReached(n, cur, listed, i); }
        }
      }
    }
    if forall i: nat :: i < |n.elems| ==> ElemFine(n, cur, listed, i) {
      forall p, v
        ensures HasLeaf(RecursiveMask(n, cur, listed), p, v) <==> HasLeaf(n, p, v) && Unlisted(cur, p, listed)
      {
        SlicePathStays(n, cur, listed, p, v);
      }
    }
  }

  lemma SlicePathStays(n: Node, cur: string, listed: string -> bool, p: Path, v: Scalar)
    requires n.SliceNode? && forall i: nat :: i < |n.elems| ==> ElemFine(n, cur, listed, i)
    ensures HasLeaf(RecursiveMask(n, cur, listed), p, v) <==> HasLeaf(n, p, v) && Unlisted(cur, p, listed)
  {
    hide RecursiveMask, Unlisted, ElemFine, Itoa, Atoi;
    if p == [] {
      NoLeafHere(n, cur, listed, v);
    } else {
      assert [p[0]] + p[1..] == p;
      if j: nat :| Itoa(j) == p[0] {
        SliceLeafStays(n, cur, listed, j, p[1..], v);
      } else {
        NoSuchElement(n, p[0]);
        MaskKeepsSlice(n, cur, listed);
        NoSuchElement(RecursiveMask(n, cur, listed), p[0]);
      }
    }
  }

  lemma MaskKeepsSlice(n: Node, cur: string, listed: string -> bool)
    ensures n.SliceNode? ==> RecursiveMask(n, cur, listed).SliceNode?
  {}

  lemma NoSuchElement(n: Node, seg: string)
    requires n.SliceNode? && forall j: nat :: Itoa(j) != seg
    ensures Child(n, seg).None?
  {
    hide Itoa, Atoi;
    IndicesAreChildren(n);
  }

  // ---- Every tree ----

  /** Masking leaves every remaining leaf at its path, if and only if no slice element that still
      shows something comes after a masked one. */
  lemma {:induction false} StaysExactly(n: Node, cur: string, listed: string -> bool)
    ensures LeavesStay(n, cur, listed) <==> InPlace(n, cur, listed)
    decreases n
  {
    hide LeavesStay, AppendKey, Itoa, Shows, Reached;
    match n
    case MapNode(m) =>
      MapStays(n, cur, listed);
      forall k | k in m
        ensures LeavesStay(m[k], AppendKey(cur, k), listed) <==> InPlace(m[k], AppendKey(cur, k), listed)
      {
        StaysExactly(m[k], AppendKey(cur, k), listed);
      }
    case SliceNode(s) =>
      SliceStays(n, cur, listed);
      forall i: nat | i < |s|
        ensures LeavesStay(s[i], Elem(cur, i), listed) <==> InPlace(s[i], Elem(cur, i), listed)
        ensures ElemFine(n, cur, listed, i) <==>
                (!listed(Elem(cur, i)) ==>
                   InPlace(s[i], Elem(cur, i), listed) &&
                   (Shows(s[i], Elem(cur, i), listed) ==> Reached(i, cur, listed)))
      {
        StaysExactly(s[i], Elem(cur, i), listed);
      }
    case _ => LeafStays(n, cur, listed);
  }

  lemma LeafStays(n: Node, cur: string, listed: string -> bool)
    requires n.ValueNode? || n.NullNode?
    ensures LeavesStay(n, cur, listed)
  {
    forall p, v | HasLeaf(n, p, v) ensures p == [] {}
  }

  /** In particular when no slice element is masked. */
  lemma NothingMoves(n: Node, cur: string, listed: string -> bool)
    requires NoListedElement(n, cur, listed)
    ensures InPlace(n, cur, listed)
  {
    hide NoListedElement, InPlace, HasLeaf, RecursiveMask, Unlisted;
    forall p, v
      ensures HasLeaf(RecursiveMask(n, cur, listed), p, v) <==> HasLeaf(n, p, v) && Unlisted(cur, p, listed)
    {
      MaskLeaves(n, cur, listed, p, v);
    }
    StaysExactly(n, cur, listed);
  }
}
