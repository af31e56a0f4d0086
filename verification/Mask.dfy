/** Pruning a tree (`Mask`, `recursiveMask` of `mapnode/node.go`) and the key lists that
    drive it (`isListed`, `keyExistsInList` of `mapnode/diff.go`). */
module Mask {
  import opened Text
  import opened Tree
  import opened Wildcards

  /** `regexp.MatchString(pattern, text)`; the engine itself is not modelled. */
  type Regex = (string, string) -> bool

  function StarsToRegex(rule: string): string {
    if rule == "" then "" else (if rule[0] == '*' then ".*" else [rule[0]]) + StarsToRegex(rule[1..])
  }

  predicate IsListed(rx: Regex, data: string, rule: string) {
    data == rule || rule == "*" || rule == "" || ('*' in rule && rx(StarsToRegex(rule), data))
  }

  predicate Listed(rx: Regex, keys: seq<string>, data: string) {
    exists i :: 0 <= i < |keys| && IsListed(rx, data, keys[i])
  }

  /** Each star of a rule becomes ".*"; everything else is taken over. */
  lemma {:induction false} StarExpands(a: string, b: string)
    requires '*' !in a
    ensures StarsToRegex(a) == a && StarsToRegex(a + "*" + b) == a + ".*" + StarsToRegex(b)
  {
    var s := a + "*" + b;
    if a == "" {
      assert s[1..] == b;
    } else {
      StarExpands(a[1..], b);
      assert s[1..] == a[1..] + "*" + b && s[0] == a[0];
    }
  }

  /** What a rule lists: the empty one and a single star everything; one without stars itself; any
      other what its regular expression finds, besides itself. */
  lemma RuleKinds(rx: Regex, data: string, rule: string)
    ensures IsListed(rx, data, "") && IsListed(rx, data, "*")
    ensures rule != "" && '*' !in rule ==> (IsListed(rx, data, rule) <==> data == rule)
    ensures '*' in rule && rule != "*" ==>
              (IsListed(rx, data, rule) <==> data == rule || rx(StarsToRegex(rule), data))
  {}

  /** `keyExistsInList`: whether some rule lists the key, and the first one that does. */
  method KeyExistsInList(rx: Regex, keys: seq<string>, data: string) returns (found: bool, item: string)
    ensures found <==> Listed(rx, keys, data)
    ensures found ==>
              exists i :: 0 <= i < |keys| && keys[i] == item && IsListed(rx, data, item) && !Listed(rx, keys[..i], data)
    ensures !found ==> item == ""
  {
    for i := 0 to |keys|
      invariant !Listed(rx, keys[..i], data)
    {
      if IsListed(rx, data, keys[i]) { return true, keys[i]; }
      assert forall j :: 0 <= j <= i ==> keys[..i + 1][j] == keys[j];
      assert forall j :: 0 <= j < i ==> keys[..i][j] == keys[j];
    }
    assert keys[..|keys|] == keys;
    return false, "";
  }

  // ---- recursiveMask ----

  /** The nodes whose rendered path satisfies `listed` are dropped; slices close up. */
  function RecursiveMask(n: Node, cur: string, listed: string -> bool): Node
    decreases n, 1, 0
  {
    match n
    case MapNode(m) =>
      MapNode(map k | k in m && !listed(AppendKey(cur, k)) :: RecursiveMask(m[k], AppendKey(cur, k), listed))
    case SliceNode(s) => SliceNode(MaskElems(n, |s|, cur, listed))
    case _ => n
  }

  function MaskElems(n: Node, cnt: nat, cur: string, listed: string -> bool): seq<Node>
    requires n.SliceNode? && cnt <= |n.elems|
    decreases n, 0, cnt
  {
    if cnt == 0 then []
    else
      var done := MaskElems(n, cnt - 1, cur, listed);
      var key := AppendKey(cur, Itoa(cnt - 1));
      if listed(key) then done else done + [RecursiveMask(n.elems[cnt - 1], key, listed)]
  }

  /** The slice indices that stay, in order. */
  function Survivors(cnt: nat, cur: string, listed: string -> bool): (r: seq<nat>)
    ensures forall j :: 0 <= j < |r| ==> r[j] < cnt && !listed(AppendKey(cur, Itoa(r[j])))
  {
    if cnt == 0 then []
    else if listed(AppendKey(cur, Itoa(cnt - 1))) then Survivors(cnt - 1, cur, listed)
    else Survivors(cnt - 1, cur, listed) + [cnt - 1]
  }

  lemma {:induction false} SurvivorsOrdered(cnt: nat, cur: string, listed: string -> bool)
    ensures var r := Survivors(cnt, cur, listed);
            (forall i, j :: 0 <= i < j < |r| ==> r[i] < r[j]) &&
            (forall i: nat :: i < cnt && !listed(AppendKey(cur, Itoa(i))) ==> i in r)
  {
    hide Itoa, AppendKey;
    if cnt > 0 { SurvivorsOrdered(cnt - 1, cur, listed); }
  }

  lemma {:induction false} MaskElemsAt(n: Node, cnt: nat, cur: string, listed: string -> bool)
    requires n.SliceNode? && cnt <= |n.elems|
    ensures var sv, r := Survivors(cnt, cur, listed), MaskElems(n, cnt, cur, listed);
            |r| == |sv| &&
            forall j :: 0 <= j < |r| ==> r[j] == RecursiveMask(n.elems[sv[j]], AppendKey(cur, Itoa(sv[j])), listed)
  {
    hide RecursiveMask, Itoa, AppendKey;
    if cnt > 0 { MaskElemsAt(n, cnt - 1, cur, listed); }
  }

  /** No node on the way to `p`, `p` included, is listed. */
  predicate Unlisted(cur: string, p: Path, listed: string -> bool)
    decreases |p|
  {
    p == [] || (!listed(AppendKey(cur, p[0])) && Unlisted(AppendKey(cur, p[0]), p[1..], listed))
  }

  lemma {:induction false} UnlistedPrefixes(cur: string, p: Path, listed: string -> bool)
    ensures Unlisted(cur, p, listed) <==> forall i :: 1 <= i <= |p| ==> !listed(RenderFrom(cur, p[..i]))
    decreases |p|
  {
    if p != [] {
      var next := AppendKey(cur, p[0]);
      UnlistedPrefixes(next, p[1..], listed);
      forall i | 1 <= i <= |p| ensures RenderFrom(cur, p[..i]) == RenderFrom(next, p[1..][..i - 1]) {
        assert p[..i][1..] == p[1..][..i - 1] && p[..i][0] == p[0];
      }
      assert p[1..][..0] == [] && RenderFrom(cur, p[..1]) == next;
      forall i | 1 <= i <= |p[1..]| ensures RenderFrom(next, p[1..][..i]) == RenderFrom(cur, p[..i + 1]) {}
    }
  }

  // ---- Masking, for every tree ----

  function Cons(seg: string, p: Option<Path>): Option<Path> { if p.None? then None else Some([seg] + p.value) }

  /** The path in the original tree of what sits at `p` in the masked one. */
  function Origin(n: Node, cur: string, listed: string -> bool, p: Path): Option<Path>
    decreases |p|
  {
    if p == [] then Some([])
    else match n
      case MapNode(m) =>
        var key := AppendKey(cur, p[0]);
        if p[0] in m && !listed(key) then Cons(p[0], Origin(m[p[0]], key, listed, p[1..])) else None
      case SliceNode(s) =>
        var i, sv := Atoi(p[0]), Survivors(|s|, cur, listed);
        if i.Some? && 0 <= i.value < |sv| && Itoa(i.value) == p[0] then
          var seg := Itoa(sv[i.value]);
          Cons(seg, Origin(s[sv[i.value]], AppendKey(cur, seg), listed, p[1..]))
        else None
      case _ => None
  }

  /** The masked tree at `p` is the masked original at `Origin(p)`, and that path is unlisted. */
  predicate MaskedAt(n: Node, cur: string, listed: string -> bool, p: Path) {
    var q, masked := Origin(n, cur, listed, p), At(RecursiveMask(n, cur, listed), p);
    if q.None? then masked == None
    else At(n, q.value).Some? && Unlisted(cur, q.value, listed) &&
         masked == Some(RecursiveMask(At(n, q.value).value, RenderFrom(cur, q.value), listed))
  }

  lemma {:induction false} MaskAt(n: Node, cur: string, listed: string -> bool, p: Path)
    ensures MaskedAt(n, cur, listed, p)
    decreases |p|
  {
    hide Itoa, Atoi, AppendKey;
    if p != [] {
      match n
      case MapNode(m) =>
        var key := AppendKey(cur, p[0]);
        if p[0] in m && !listed(key) {
          MaskAt(m[p[0]], key, listed, p[1..]);
          MaskAtStep(n, cur, listed, p, p[0], m[p[0]]);
        }
      case SliceNode(s) =>
        MaskElemsAt(n, |s|, cur, listed);
        var i, sv := Atoi(p[0]), Survivors(|s|, cur, listed);
        if i.Some? && 0 <= i.value < |sv| && Itoa(i.value) == p[0] {
          var seg := Itoa(sv[i.value]);
          AtoiItoa(sv[i.value]);
          MaskAt(s[sv[i.value]], AppendKey(cur, seg), listed, p[1..]);
          MaskAtStep(n, cur, listed, p, seg, s[sv[i.value]]);
        }
      case _ =>
    }
  }

  /** One segment of the masked path `p` answers to the segment `seg` of the original. */
  lemma MaskAtStep(n: Node, cur: string, listed: string -> bool, p: Path, seg: string, child: Node)
    requires p != [] && Child(n, seg) == Some(child) && !listed(AppendKey(cur, seg))
    requires Child(RecursiveMask(n, cur, listed), p[0]) == Some(RecursiveMask(child, AppendKey(cur, seg), listed))
    requires Origin(n, cur, listed, p) == Cons(seg, Origin(child, AppendKey(cur, seg), listed, p[1..]))
    requires MaskedAt(child, AppendKey(cur, seg), listed, p[1..])
    ensures MaskedAt(n, cur, listed, p)
  {
    hide RecursiveMask, Origin, AppendKey, Child;
    ConsTail(seg, Origin(child, AppendKey(cur, seg), listed, p[1..]));
  }

  lemma ConsTail(seg: string, p: Option<Path>)
    ensures p.Some? ==> Cons(seg, p).value[0] == seg && Cons(seg, p).value[1..] == p.value
  {}

  /** Conversely every unlisted path survives, at exactly one place. */
  lemma {:induction false} MaskOnto(n: Node, cur: string, listed: string -> bool, q: Path) returns (p: Path)
    requires At(n, q).Some? && Unlisted(cur, q, listed)
    ensures Origin(n, cur, listed, p) == Some(q)
    decreases |q|
  {
    hide Itoa, Atoi, AppendKey;
    if q == [] { return []; }
    var key := AppendKey(cur, q[0]);
    match n {
      case MapNode(m) =>
        var rest := MaskOnto(m[q[0]], key, listed, q[1..]);
        p := [q[0]] + rest;
        assert p[1..] == rest && [q[0]] + q[1..] == q;
      case SliceNode(s) =>
        var i, sv := Atoi(q[0]).value, Survivors(|s|, cur, listed);
        SurvivorsOrdered(|s|, cur, listed);
        var j: nat :| j < |sv| && sv[j] == i;
        var rest := MaskOnto(s[i], key, listed, q[1..]);
        p := [Itoa(j)] + rest;
        AtoiItoa(j);
        assert p[1..] == rest && [q[0]] + q[1..] == q;
      case _ =>
    }
  }

  lemma {:induction false} OriginInjective(n: Node, cur: string, listed: string -> bool, p: Path, p': Path)
    requires Origin(n, cur, listed, p).Some? && Origin(n, cur, listed, p) == Origin(n, cur, listed, p')
    ensures p == p'
    decreases |p|
  {
    hide Itoa, Atoi, AppendKey;
    if p != [] && p' != [] {
      match n {
        case MapNode(m) =>
          var key, key' := AppendKey(cur, p[0]), AppendKey(cur, p'[0]);
          ConsTail(p[0], Origin(m[p[0]], key, listed, p[1..]));
          ConsTail(p'[0], Origin(m[p'[0]], key', listed, p'[1..]));
          OriginInjective(m[p[0]], key, listed, p[1..], p'[1..]);
        case SliceNode(s) =>
          var sv := Survivors(|s|, cur, listed);
          SurvivorsOrdered(|s|, cur, listed);
          var i, i' := sv[Atoi(p[0]).value], sv[Atoi(p'[0]).value];
          ConsTail(Itoa(i), Origin(s[i], AppendKey(cur, Itoa(i)), listed, p[1..]));
          ConsTail(Itoa(i'), Origin(s[i'], AppendKey(cur, Itoa(i')), listed, p'[1..]));
          ItoaInjective(i, i');
          OriginInjective(s[i], AppendKey(cur, Itoa(i)), listed, p[1..], p'[1..]);
        case _ =>
      }
      assert [p[0]] + p[1..] == p && [p'[0]] + p'[1..] == p';
    }
  }

  /** Masking a slice element moves the later ones to smaller indices. */
  lemma MaskShifts(a: Scalar, b: Scalar)
    ensures var n := SliceNode([ValueNode(a), ValueNode(b)]);
            At(RecursiveMask(n, "", k => k == "0"), ["0"]) == Some(ValueNode(b)) && HasLeaf(n, ["1"], b)
  {
    var n, listed := SliceNode([ValueNode(a), ValueNode(b)]), (k: string) => k == "0";
    assert Itoa(0) == "0" && Itoa(1) == "1";
    AtoiItoa(0);
    AtoiItoa(1);
    assert MaskElems(n, 1, "", listed) == [];
    assert MaskElems(n, 2, "", listed) == [ValueNode(b)];
  }

  // ---- Masking when no slice element is listed ----

  predicate NoListedElement(n: Node, cur: string, listed: string -> bool) {
    match n
    case MapNode(m) => forall k :: k in m && !listed(AppendKey(cur, k)) ==>
          NoListedElement(m[k], AppendKey(cur, k), listed)
    case SliceNode(s) =>
      forall i :: 0 <= i < |s| ==>
            !listed(AppendKey(cur, Itoa(i))) && NoListedElement(s[i], AppendKey(cur, Itoa(i)), listed)
    case _ => true
  }

  lemma {:induction false} SurvivorsAll(cnt: nat, cur: string, listed: string -> bool)
    requires forall i :: 0 <= i < cnt ==> !listed(AppendKey(cur, Itoa(i)))
    ensures |Survivors(cnt, cur, listed)| == cnt && forall i :: 0 <= i < cnt ==> Survivors(cnt, cur, listed)[i] == i
  {
    hide Itoa, AppendKey;
    if cnt > 0 { SurvivorsAll(cnt - 1, cur, listed); }
  }

  lemma {:induction false} OriginIdentity(n: Node, cur: string, listed: string -> bool, p: Path)
    requires NoListedElement(n, cur, listed) && Origin(n, cur, listed, p).Some?
    ensures Origin(n, cur, listed, p) == Some(p)
    decreases |p|
  {
    hide Itoa, Atoi, AppendKey, Survivors;
    if p != [] {
      match n {
        case MapNode(m) => OriginIdentity(m[p[0]], AppendKey(cur, p[0]), listed, p[1..]);
        case SliceNode(s) =>
          SurvivorsAll(|s|, cur, listed);
          OriginIdentity(s[Atoi(p[0]).value], AppendKey(cur, p[0]), listed, p[1..]);
      }
      assert [p[0]] + p[1..] == p;
    }
  }

  lemma MaskKeepsKind(n: Node, cur: string, listed: string -> bool)
    ensures n.ValueNode? || n.NullNode? ==> RecursiveMask(n, cur, listed) == n
    ensures RecursiveMask(n, cur, listed).ValueNode? ==> n.ValueNode?
  {}

  /** The leaves of the masked tree are exactly the leaves with no listed ancestor-or-self. */
  lemma MaskLeaves(n: Node, cur: string, listed: string -> bool, p: Path, v: Scalar)
    requires NoListedElement(n, cur, listed)
    ensures HasLeaf(RecursiveMask(n, cur, listed), p, v) <==> HasLeaf(n, p, v) && Unlisted(cur, p, listed)
  {
    hide Origin, RecursiveMask, Unlisted;
    MaskAt(n, cur, listed, p);
    if Origin(n, cur, listed, p).Some? {
      OriginIdentity(n, cur, listed, p);
      MaskKeepsKind(At(n, p).value, RenderFrom(cur, p), listed);
    } else if HasLeaf(n, p, v) && Unlisted(cur, p, listed) {
      var p' := MaskOnto(n, cur, listed, p);
      OriginIdentity(n, cur, listed, p');
    }
  }

  lemma {:induction false} MaskElemsFixed(n: Node, cnt: nat, cur: string, listed: string -> bool)
    requires n.SliceNode? && cnt <= |n.elems|
    requires forall i :: 0 <= i < cnt ==>
               !listed(AppendKey(cur, Itoa(i))) &&
                   RecursiveMask(n.elems[i], AppendKey(cur, Itoa(i)), listed) == n.elems[i]
    ensures MaskElems(n, cnt, cur, listed) == n.elems[..cnt]
  {
    hide RecursiveMask, Itoa, AppendKey;
    if cnt > 0 {
      MaskElemsFixed(n, cnt - 1, cur, listed);
      assert n.elems[..cnt] == n.elems[..cnt - 1] + [n.elems[cnt - 1]];
    }
  }

  predicate Settled(n: Node, cur: string, listed: string -> bool) { RecursiveMask(n, cur, listed) == n }

  lemma MapSettles(n: Node, cur: string, listed: string -> bool)
    requires n.MapNode?
    requires forall k :: k in n.children ==>
               !listed(AppendKey(cur, k)) && Settled(n.children[k], AppendKey(cur, k), listed)
    ensures Settled(n, cur, listed)
  {
    hide AppendKey;
    assert RecursiveMask(n, cur, listed).children == n.children;
  }

  lemma SliceSettles(n: Node, cur: string, listed: string -> bool)
    requires n.SliceNode?
    requires forall i :: 0 <= i < |n.elems| ==>
               !listed(AppendKey(cur, Itoa(i))) && Settled(n.elems[i], AppendKey(cur, Itoa(i)), listed)
    ensures Settled(n, cur, listed)
  {
    MaskElemsFixed(n, |n.elems|, cur, listed);
    assert n.elems[..|n.elems|] == n.elems;
  }

  /** Masking a masked tree with the same keys changes nothing. */
  lemma {:induction false} MaskIdempotent(n: Node, cur: string, listed: string -> bool)
    requires NoListedElement(n, cur, listed)
    ensures Settled(RecursiveMask(n, cur, listed), cur, listed)
    decreases n
  {
    hide Settled, Itoa, AppendKey;
    var once := RecursiveMask(n, cur, listed);
    match n
    case MapNode(m) =>
      forall k | k in once.children ensures Settled(once.children[k], AppendKey(cur, k), listed) {
        MaskIdempotent(m[k], AppendKey(cur, k), listed);
      }
      MapSettles(once, cur, listed);
    case SliceNode(s) =>
      SurvivorsAll(|s|, cur, listed);
      MaskElemsAt(n, |s|, cur, listed);
      forall i | 0 <= i < |s| ensures Settled(once.elems[i], AppendKey(cur, Itoa(i)), listed) {
        MaskIdempotent(s[i], AppendKey(cur, Itoa(i)), listed);
      }
      SliceSettles(once, cur, listed);
    case _ => LeafSettles(n, cur, listed);
  }

  lemma LeafSettles(n: Node, cur: string, listed: string -> bool)
    requires !n.MapNode? && !n.SliceNode?
    ensures Settled(n, cur, listed)
  {}

  // ---- Mask ----

  function ListedBy(rx: Regex, keys: seq<string>): string -> bool { k => Listed(rx, keys, k) }

  /** `Mask` rewrites the caller's key list in place and prunes by the concrete keys. */
  method MaskNode(rx: Regex, t: Node, keys: array<string>) returns (node: Node)
    requires AllStop(t, Rewritten(keys[..]))
    modifies keys
    ensures keys[..] == Rewritten(old(keys[..]))
    ensures node == RecursiveMask(t, "", ListedBy(rx, Concrete(t, keys[..])))
  {
    var validKeys := ValidateKeyList(t, keys);
    node := RecursiveMask(t, "", ListedBy(rx, validKeys));
  }
}
