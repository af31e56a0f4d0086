/** The object tree of `shield/pkg/util/mapnode/node.go`: nodes, structural paths,
    their dotted rendering, lookup, and the flattening `Ravel`. */
module Tree {
  import opened Text

  datatype Scalar = Str(s: string) | Num(r: real) | Bool(b: bool)

  /** A decoded JSON value, Go's `interface{}`. */
  datatype Json = Null | Leaf(v: Scalar) | Object(fields: map<string, Json>) | Array(items: seq<Json>)

  /** A `*Node`: the original's (Value, Children) pair has exactly these four shapes. */
  datatype Node =
    | NullNode
    | ValueNode(v: Scalar)
    | MapNode(children: map<string, Node>)
    | SliceNode(elems: seq<Node>)

  type Path = seq<string>

  function NewNode(j: Json): Node {
    match j
    case Null => NullNode
    case Leaf(v) => ValueNode(v)
    case Object(m) => MapNode(map k | k in m :: NewNode(m[k]))
    case Array(s) => SliceNode(seq(|s|, i requires 0 <= i < |s| => NewNode(s[i])))
  }

  function Interface(n: Node): Json {
    match n
    case NullNode => Null
    case ValueNode(v) => Leaf(v)
    case MapNode(m) => Object(map k | k in m :: Interface(m[k]))
    case SliceNode(s) => Array(seq(|s|, i requires 0 <= i < |s| => Interface(s[i])))
  }

  lemma {:induction false} NodeRoundTrip(n: Node)
    ensures NewNode(Interface(n)) == n
  {
    match n
    case MapNode(m) =>
      forall k | k in m ensures NewNode(Interface(m[k])) == m[k] { NodeRoundTrip(m[k]); }
      assert NewNode(Interface(n)).children == m;
    case SliceNode(s) =>
      forall i | 0 <= i < |s| ensures NewNode(Interface(s[i])) == s[i] { NodeRoundTrip(s[i]); }
      assert NewNode(Interface(n)).elems == s;
    case _ =>
  }

  lemma {:induction false} JsonRoundTrip(j: Json)
    ensures Interface(NewNode(j)) == j
  {
    match j
    case Object(m) =>
      forall k | k in m ensures Interface(NewNode(m[k])) == m[k] { JsonRoundTrip(m[k]); }
      assert Interface(NewNode(j)).fields == m;
    case Array(s) =>
      forall i | 0 <= i < |s| ensures Interface(NewNode(s[i])) == s[i] { JsonRoundTrip(s[i]); }
      assert Interface(NewNode(j)).items == s;
    case _ =>
  }

  // ---- Structural paths ----

  /** The child a segment names: a map key, or the decimal form of a slice index. */
  function Child(n: Node, seg: string): Option<Node> {
    match n
    case MapNode(m) => if seg in m then Some(m[seg]) else None
    case SliceNode(s) =>
      var i := Atoi(seg);
      if i.Some? && 0 <= i.value < |s| && Itoa(i.value) == seg then Some(s[i.value]) else None
    case _ => None
  }

  function At(n: Node, p: Path): Option<Node> {
    if p == [] then Some(n)
    else
      var c := Child(n, p[0]);
      if c.None? then None else At(c.value, p[1..])
  }

  predicate HasLeaf(n: Node, p: Path, v: Scalar) { At(n, p) == Some(ValueNode(v)) }

  lemma {:induction false} AtConcat(n: Node, p: Path, q: Path)
    ensures At(n, p + q) == if At(n, p).None? then None else At(At(n, p).value, q)
  {
    if p == [] {
      assert p + q == q;
    } else {
      assert (p + q)[0] == p[0] && (p + q)[1..] == p[1..] + q;
      var c := Child(n, p[0]);
      if c.Some? { AtConcat(c.value, p[1..], q); }
    }
  }

  /** How the original extends a rendered path by one segment. */
  function AppendKey(cur: string, k: string): string { if cur == "" then k else cur + "." + k }

  function RenderFrom(cur: string, p: Path): string
    decreases |p|
  {
    if p == [] then cur else RenderFrom(AppendKey(cur, p[0]), p[1..])
  }

  function Render(p: Path): string { RenderFrom("", p) }

  lemma {:induction false} RenderFromConcat(cur: string, p: Path, q: Path)
    ensures RenderFrom(cur, p + q) == RenderFrom(RenderFrom(cur, p), q)
    decreases |p|
  {
    if p == [] {
      assert p + q == q;
    } else {
      assert (p + q)[1..] == p[1..] + q;
      RenderFromConcat(AppendKey(cur, p[0]), p[1..], q);
    }
  }

  /** A rendered path starts with the rendering of each of its ancestors. */
  lemma {:induction false} RenderFromPrefix(cur: string, p: Path)
    ensures HasPrefix(RenderFrom(cur, p), cur)
    decreases |p|
  {
    if p != [] { RenderFromPrefix(AppendKey(cur, p[0]), p[1..]); }
  }

  /** With non-empty segments the rendering is the dotted join. */
  lemma {:induction false} RenderFromIsJoin(cur: string, p: Path)
    requires forall i :: 0 <= i < |p| ==> p[i] != ""
    ensures cur != "" ==> RenderFrom(cur, p) == Join([cur] + p, '.')
    ensures cur == "" ==> RenderFrom(cur, p) == Join(p, '.')
    decreases |p|
  {
    if p != [] {
      RenderFromIsJoin(AppendKey(cur, p[0]), p[1..]);
      assert [p[0]] + p[1..] == p;
      if cur != "" {
        assert ([cur] + p)[1..] == p;
        assert ([AppendKey(cur, p[0])] + p[1..])[1..] == p[1..];
      }
    }
  }

  // ---- Ravel ----

  /** `GetChildrenMap`: the children by segment, slice elements under their index. */
  function ChildrenMap(n: Node): (m: map<string, Node>)
    ensures forall seg :: seg in m <==> Child(n, seg).Some?
    ensures forall seg :: seg in m ==> Child(n, seg) == Some(m[seg]) && m[seg] < n
  {
    match n
    case MapNode(m) => m
    case SliceNode(s) =>
      IndicesAreChildren(n);
      map seg | seg in (set i: nat {:trigger Itoa(i)} | i < |s| :: Itoa(i)) :: s[Atoi(seg).value]
    case _ => map[]
  }

  predicate IsIndex(seg: string, len: nat) { exists i: nat :: i < len && Itoa(i) == seg }

  lemma IndicesAreChildren(n: Node)
    requires n.SliceNode?
    ensures forall i: nat {:trigger Itoa(i)} :: i < |n.elems| ==> Child(n, Itoa(i)) == Some(n.elems[i])
    ensures forall seg :: Child(n, seg).Some? ==> IsIndex(seg, |n.elems|)
  {
    forall i: nat ensures Atoi(Itoa(i)) == Some(i) { AtoiItoa(i); }
    forall seg | Child(n, seg).Some? ensures IsIndex(seg, |n.elems|) {
      var i: nat := Atoi(seg).value;
      assert Itoa(i) == seg;
    }
  }

  /** Some leaf below `n` holds `v` and renders to `k` when `n` itself renders to `cur`. */
  ghost predicate FromLeaf(n: Node, cur: string, k: string, v: Scalar) {
    exists p :: HasLeaf(n, p, v) && RenderFrom(cur, p) == k
  }

  lemma FromLeafStep(n: Node, cur: string, k: string, v: Scalar)
    requires !n.ValueNode?
    ensures FromLeaf(n, cur, k, v) <==>
            exists seg :: seg in ChildrenMap(n) && FromLeaf(ChildrenMap(n)[seg], AppendKey(cur, seg), k, v)
  {
    hide ChildrenMap, Child, AppendKey;
    if FromLeaf(n, cur, k, v) {
      var p :| HasLeaf(n, p, v) && RenderFrom(cur, p) == k;
      assert HasLeaf(ChildrenMap(n)[p[0]], p[1..], v);
    }
    if seg :| seg in ChildrenMap(n) && FromLeaf(ChildrenMap(n)[seg], AppendKey(cur, seg), k, v) {
      var q :| HasLeaf(ChildrenMap(n)[seg], q, v) && RenderFrom(AppendKey(cur, seg), q) == k;
      var p := [seg] + q;
      assert p[1..] == q;
      assert HasLeaf(n, p, v) && RenderFrom(cur, p) == k;
    }
  }

  /** What flattening `n` under `cur` into `m0` may produce.  Go visits the children of
      a map in an unspecified order, so when several leaves render to one key any of
      their values may survive. */
  ghost predicate RavelInto(n: Node, cur: string, m0: map<string, Scalar>, m: map<string, Scalar>) {
    && (forall k :: k in m0 ==> k in m)
    && (forall k, v :: FromLeaf(n, cur, k, v) ==> k in m)
    && (forall k :: k in m ==> (k in m0 && m[k] == m0[k]) || FromLeaf(n, cur, k, m[k]))
  }

  ghost predicate RavelOf(n: Node, m: map<string, Scalar>) { RavelInto(n, "", map[], m) }

  method RecursiveRavel(n: Node, cur: string, m0: map<string, Scalar>) returns (m: map<string, Scalar>)
    ensures RavelInto(n, cur, m0, m)
    decreases n
  {
    m := m0;
    if n.ValueNode? {
      assert HasLeaf(n, [], n.v) && RenderFrom(cur, []) == cur;
      return m[cur := n.v];
    }
    var children := ChildrenMap(n);
    var todo := children.Keys;
    while todo != {}
      invariant todo <= children.Keys
      invariant forall k :: k in m0 ==> k in m
      invariant forall k, v, seg ::
                  seg in children.Keys - todo && FromLeaf(children[seg], AppendKey(cur, seg), k, v) ==> k in m
      invariant forall k :: k in m ==> (k in m0 && m[k] == m0[k]) || FromLeaf(n, cur, k, m[k])
      decreases todo
    {
      var seg :| seg in todo;
      ghost var before := m;
      m := RecursiveRavel(children[seg], AppendKey(cur, seg), m);
      forall k | k in m ensures (k in m0 && m[k] == m0[k]) || FromLeaf(n, cur, k, m[k]) {
        if FromLeaf(children[seg], AppendKey(cur, seg), k, m[k]) { FromLeafStep(n, cur, k, m[k]); }
      }
      todo := todo - {seg};
    }
    forall k, v | FromLeaf(n, cur, k, v) ensures k in m { FromLeafStep(n, cur, k, v); }
  }

  method Ravel(n: Node) returns (m: map<string, Scalar>)
    ensures RavelOf(n, m)
  {
    m := RecursiveRavel(n, "", map[]);
  }

  /** No two leaves share a rendered key. */
  ghost predicate DistinctLeaves(n: Node) {
    forall p, q, v, w :: HasLeaf(n, p, v) && HasLeaf(n, q, w) && Render(p) == Render(q) ==> p == q
  }

  /** Then flattening is a function of the tree, and says exactly what the leaves say. */
  lemma RavelExact(n: Node, m: map<string, Scalar>)
    requires RavelOf(n, m) && DistinctLeaves(n)
    ensures forall k, v :: (k in m && m[k] == v) <==> FromLeaf(n, "", k, v)
  {
    forall k, v | FromLeaf(n, "", k, v) ensures k in m && m[k] == v {
      var p :| HasLeaf(n, p, v) && RenderFrom("", p) == k;
      var q :| HasLeaf(n, q, m[k]) && RenderFrom("", q) == k;
      assert Render(p) == Render(q);
    }
  }

  lemma RavelDeterministic(n: Node, m1: map<string, Scalar>, m2: map<string, Scalar>)
    requires RavelOf(n, m1) && RavelOf(n, m2) && DistinctLeaves(n)
    ensures m1 == m2
  {
    RavelExact(n, m1);
    RavelExact(n, m2);
    assert forall k :: k in m1 ==> k in m2 && m1[k] == m2[k];
    assert forall k :: k in m2 ==> k in m1;
  }
}
