/** Dotted keys of `mapnode/node.go`: parsing a key into segments (`splitConcatKey`),
    the in-place rewrite to normal form (`parseConcatKey`), lookup (`GetNode`) and
    its agreement with the flattened tree. */
module Keys {
  import opened Text
  import opened Tree

  // ---- The trailing list index of a segment: the regular expression \[\d+\]$ ----

  function TrailingDigits(s: string): (d: nat)
    ensures d <= |s|
    ensures forall i :: |s| - d <= i < |s| ==> IsDigit(s[i])
    ensures d < |s| ==> !IsDigit(s[|s| - d - 1])
  {
    if s == "" || !IsDigit(s[|s| - 1]) then 0 else 1 + TrailingDigits(s[..|s| - 1])
  }

  /** Where the trailing "[n]" of a segment starts, if there is one. */
  function IndexStart(k: string): (r: Option<nat>)
    ensures r.Some? ==>
              r.value + 3 <= |k| && k[r.value] == '[' && k[|k| - 1] == ']' && AllDigits(k[r.value + 1..|k| - 1])
  {
    if |k| < 3 || k[|k| - 1] != ']' then None
    else
      var body := k[..|k| - 1];
      var d := TrailingDigits(body);
      if 1 <= d < |body| && body[|body| - 1 - d] == '[' then Some(|body| - 1 - d) else None
  }

  predicate Indexed(k: string) { IndexStart(k).Some? }

  /** `strings.ReplaceAll(s, f, "")`. */
  function RemoveAll(s: string, f: string): (r: string)
    requires f != ""
    ensures |r| <= |s|
    ensures HasSuffix(s, f) ==> |r| <= |s| - |f|
    decreases |s|
  {
    if |s| < |f| then s
    else if f <= s then
      assert HasSuffix(s, f) && |s| >= 2 * |f| ==> s[|f|..][|s| - 2 * |f|..] == f;
      RemoveAll(s[|f|..], f)
    else
      assert s[0..] == s;
      assert HasSuffix(s, f) ==> |s| > |f| && s[1..][|s| - 1 - |f|..] == f;
      [s[0]] + RemoveAll(s[1..], f)
  }

  /** One segment: "foo[1]" becomes foo and 1, "[1]" becomes 1, anything else is kept. */
  function ParseSegment(k: string): (r: seq<string>)
    ensures |r| >= 1
  {
    var i := IndexStart(k);
    if i.None? then [k]
    else
      var name := RemoveAll(k, k[i.value..]);
      var index := k[i.value + 1..|k| - 1];
      if name != "" then [name, index] else [index]
  }

  lemma {:induction false} RemoveAllOnce(name: string, f: string)
    requires f != "" && f[0] !in name
    ensures RemoveAll(name + f, f) == name
  {
    var s := name + f;
    if name == "" {
      assert s == f && s[|f|..] == "";
    } else {
      assert !(f <= s) by { assert s[0] == name[0]; }
      assert s[1..] == name[1..] + f;
      RemoveAllOnce(name[1..], f);
    }
  }

  lemma {:induction false} TrailingDigitsAre(name: string, d: string)
    requires AllDigits(d)
    ensures TrailingDigits(name + "[" + d) == |d|
  {
    var s := name + "[" + d;
    if d == "" {
      assert s[|s| - 1] == '[';
    } else {
      assert s[|s| - 1] == d[|d| - 1] && s[..|s| - 1] == name + "[" + d[..|d| - 1];
      TrailingDigitsAre(name, d[..|d| - 1]);
    }
  }

  /** A name with an index becomes the two, a bare index itself. */
  lemma IndexedSegment(name: string, d: string)
    requires '[' !in name && d != "" && AllDigits(d)
    ensures ParseSegment(name + "[" + d + "]") == if name == "" then [d] else [name, d]
  {
    hide TrailingDigits, RemoveAll;
    var k, index := name + "[" + d + "]", "[" + d + "]";
    assert k[..|k| - 1] == name + "[" + d && k == name + index;
    TrailingDigitsAre(name, d);
    assert k[|name|..] == index && k[|name| + 1..|k| - 1] == d && k[|name|] == '[';
    RemoveAllOnce(name, index);
  }

  function ParseSegments(ks: seq<string>): (r: seq<string>)
    ensures |r| >= |ks|
  {
    if ks == [] then [] else ParseSegment(ks[0]) + ParseSegments(ks[1..])
  }

  // ---- Quoted keys: one record of Go's csv.Reader with '.' as the delimiter ----

  /** The rest of a quoted field: its text, and what follows the delimiter (None at the
      end of the record).  None for a quote that neither ends nor escapes. */
  function QuotedField(s: string, acc: string): (r: Option<(string, Option<string>)>)
    ensures r.Some? && r.value.1.Some? ==> |r.value.0| + |r.value.1.value| + 2 <= |acc| + |s|
    ensures r.Some? && r.value.1.None? ==> |r.value.0| + 1 <= |acc| + |s|
    decreases |s|
  {
    if s == "" then None
    else if s[0] != '"' then QuotedField(s[1..], acc + [s[0]])
    else if |s| == 1 then Some((acc, None))
    else if s[1] == '"' then QuotedField(s[2..], acc + ['"'])
    else if s[1] == '.' then Some((acc, Some(s[2..])))
    else None
  }

  function CsvFields(s: string): (r: Option<seq<string>>)
    ensures r.Some? ==> |r.value| >= 1
    decreases |s|
  {
    if s != "" && s[0] == '"' then
      var f := QuotedField(s[1..], "");
      if f.None? then None
      else if f.value.1.None? then Some([f.value.0])
      else
        var rest := CsvFields(f.value.1.value);
        if rest.None? then None else Some([f.value.0] + rest.value)
    else
      var field := UpToDot(s);
      if '"' in field then None
      else if field == s then Some([field])
      else
        var rest := CsvFields(s[|field| + 1..]);
        if rest.None? then None else Some([field] + rest.value)
  }

  function UpToDot(s: string): (r: string)
    ensures r <= s && '.' !in r
    ensures r != s ==> |r| < |s| && s[|r|] == '.'
  {
    if s == "" || s[0] == '.' then "" else [s[0]] + UpToDot(s[1..])
  }

  /** `splitConcatKey`; a key whose quotes do not parse yields no segment at all. */
  function SplitConcatKey(key: string): seq<string> {
    if '"' !in key then ParseSegments(Split(key, '.'))
    else
      var fields := CsvFields(key);
      if fields.None? then [] else ParseSegments(fields.value)
  }

  function ParseConcatKey(key: string): string { Join(SplitConcatKey(key), '.') }

  // ---- The rewrite is idempotent exactly on stable keys ----

  lemma {:induction false} JoinConcat(a: seq<string>, b: seq<string>, c: char)
    requires a != [] && b != []
    ensures Join(a + b, c) == Join(a, c) + [c] + Join(b, c)
  {
    if |a| == 1 {
      assert (a + b)[1..] == b;
    } else {
      JoinConcat(a[1..], b, c);
      assert (a + b)[1..] == a[1..] + b;
    }
  }

  lemma ParseSegmentShrinks(k: string)
    ensures |Join(ParseSegment(k), '.')| <= |k|
    ensures Indexed(k) ==> |Join(ParseSegment(k), '.')| < |k|
  {
    var i := IndexStart(k);
    if i.Some? {
      assert HasSuffix(k, k[i.value..]);
      var r := ParseSegment(k);
      if |r| == 2 { assert r[1..] == [r[1]]; }
    }
  }

  lemma {:induction false} ParseSegmentsShrinks(ks: seq<string>)
    requires ks != []
    ensures |Join(ParseSegments(ks), '.')| <= |Join(ks, '.')|
    ensures (exists i :: 0 <= i < |ks| && Indexed(ks[i])) ==> |Join(ParseSegments(ks), '.')| < |Join(ks, '.')|
    ensures (forall i :: 0 <= i < |ks| ==> !Indexed(ks[i])) ==> ParseSegments(ks) == ks
  {
    ParseSegmentShrinks(ks[0]);
    if |ks| == 1 {
      assert ParseSegments(ks) == ParseSegment(ks[0]);
    } else {
      ParseSegmentsShrinks(ks[1..]);
      JoinConcat(ParseSegment(ks[0]), ParseSegments(ks[1..]), '.');
    }
  }

  lemma {:induction false} CsvShrinks(s: string)
    ensures CsvFields(s).Some? ==> |Join(CsvFields(s).value, '.')| <= |s|
    ensures CsvFields(s).Some? && '"' in s ==> |Join(CsvFields(s).value, '.')| < |s|
    decreases |s|
  {
    hide QuotedField, UpToDot;
    if CsvFields(s).Some? {
      if s != "" && s[0] == '"' {
        var f := QuotedField(s[1..], "").value;
        if f.1.Some? {
          CsvShrinks(f.1.value);
          JoinFirst(f.0, CsvFields(f.1.value).value);
        }
      } else if UpToDot(s) != s {
        var field := UpToDot(s);
        var rest := s[|field| + 1..];
        CsvShrinks(rest);
        assert s == field + ['.'] + rest;
        JoinFirst(field, CsvFields(rest).value);
      }
    }
  }

  lemma JoinFirst(field: string, rest: seq<string>)
    requires rest != []
    ensures |Join([field] + rest, '.')| == |field| + 1 + |Join(rest, '.')|
  {
    assert ([field] + rest)[1..] == rest;
  }

  predicate NormalKey(r: string) {
    '"' !in r && forall i :: 0 <= i < |Split(r, '.')| ==> !Indexed(Split(r, '.')[i])
  }

  /** A key is left alone by the rewrite exactly when it has no quote and no dotted
      piece that ends in a list index; every other key gets shorter. */
  lemma RewriteFixpoint(r: string)
    ensures ParseConcatKey(r) == r <==> NormalKey(r)
    ensures NormalKey(r) ==> SplitConcatKey(r) == Split(r, '.')
  {
    if '"' !in r {
      ParseSegmentsShrinks(Split(r, '.'));
      JoinSplit(r, '.');
    } else if CsvFields(r).Some? {
      CsvShrinks(r);
      ParseSegmentsShrinks(CsvFields(r).value);
    }
  }

  /** Rewriting a key a second time changes nothing exactly when no parsed segment holds
      a quote or a dotted piece that still ends in a list index. */
  predicate StableKey(key: string) {
    forall i :: 0 <= i < |SplitConcatKey(key)| ==> NormalKey(SplitConcatKey(key)[i])
  }

  lemma {:induction false} JoinNormal(ks: seq<string>)
    ensures NormalKey(Join(ks, '.')) <==> forall i :: 0 <= i < |ks| ==> NormalKey(ks[i])
  {
    if ks == [] {
    } else if |ks| > 1 {
      JoinNormal(ks[1..]);
      var rest := Join(ks[1..], '.');
      SplitConcat(ks[0], '.', rest);
      var a, b := Split(ks[0], '.'), Split(rest, '.');
      var joined := ks[0] + ['.'] + rest;
      assert forall i :: 0 <= i < |a| ==> (a + b)[i] == a[i];
      assert forall i :: 0 <= i < |b| ==> (a + b)[|a| + i] == b[i];
      assert '"' in joined <==> '"' in ks[0] || '"' in rest;
      assert NormalKey(joined) <==> NormalKey(ks[0]) && NormalKey(rest);
      assert (forall i :: 0 <= i < |ks| ==> NormalKey(ks[i])) <==>
             NormalKey(ks[0]) && forall i :: 0 <= i < |ks[1..]| ==> NormalKey(ks[1..][i]) by {
        assert forall i :: 1 <= i < |ks| ==> ks[i] == ks[1..][i - 1];
      }
    }
  }

  lemma RewriteIdempotent(key: string)
    ensures ParseConcatKey(ParseConcatKey(key)) == ParseConcatKey(key) <==> StableKey(key)
  {
    RewriteFixpoint(ParseConcatKey(key));
    JoinNormal(SplitConcatKey(key));
  }

  lemma DoubleIndexStart()
    ensures IndexStart("a[1][2]") == Some(4) && Indexed("a[1]")
  {
    assert "a[1][2]"[..6] == "a[1][2" && "a[1][2"[..5] == "a[1][";
    assert TrailingDigits("a[1][") == 0;
    assert TrailingDigits("a[1][2") == 1;
    assert "a[1]"[..3] == "a[1" && "a[1"[..2] == "a[";
    assert TrailingDigits("a[") == 0;
    assert TrailingDigits("a[1") == 1;
  }

  lemma DoubleIndexName()
    ensures RemoveAll("a[1][2]", "[2]") == "a[1]"
  {
    assert "[2]"[3..] == "" && RemoveAll("[2]", "[2]") == "";
    assert "][2]"[1..] == "[2]" && RemoveAll("][2]", "[2]") == "]";
    assert "1][2]"[1..] == "][2]" && RemoveAll("1][2]", "[2]") == "1]";
    assert "[1][2]"[1..] == "1][2]" && RemoveAll("[1][2]", "[2]") == "[1]";
    assert "a[1][2]"[1..] == "[1][2]";
  }

  lemma DoubleIndexSegments()
    ensures SplitConcatKey("a[1][2]") == ["a[1]", "2"]
  {
    hide IndexStart, RemoveAll, Split;
    var k := "a[1][2]";
    SplitPlain(k, '.');
    DoubleIndexStart();
    DoubleIndexName();
    assert k[4..] == "[2]" && k[5..6] == "2";
    assert ParseSegment(k) == ["a[1]", "2"];
    assert ParseSegments([k]) == ["a[1]", "2"] by { assert ParseSegments([k][1..]) == []; }
  }

  /** A key with two indices at its end is rewritten further by a second pass. */
  lemma DoubleIndexUnstable()
    ensures ParseConcatKey(ParseConcatKey("a[1][2]")) != ParseConcatKey("a[1][2]")
  {
    hide SplitConcatKey, Indexed;
    DoubleIndexStart();
    DoubleIndexSegments();
    RewriteIdempotent("a[1][2]");
    SplitPlain("a[1]", '.');
    assert !NormalKey(SplitConcatKey("a[1][2]")[0]);
  }

  // ---- Quoting makes every path addressable ----

  function EscapeQuotes(s: string): string {
    if s == "" then "" else (if s[0] == '"' then "\"\"" else [s[0]]) + EscapeQuotes(s[1..])
  }

  function QuoteSegment(s: string): string { "\"" + EscapeQuotes(s) + "\"" }

  function QuotePath(p: Path): string {
    if p == [] then "" else if |p| == 1 then QuoteSegment(p[0]) else QuoteSegment(p[0]) + "." + QuotePath(p[1..])
  }

  lemma {:induction false} QuotedFieldRoundTrip(s: string, rest: string, acc: string)
    requires rest == "" || rest[0] == '.'
    ensures QuotedField(EscapeQuotes(s) + "\"" + rest, acc) ==
            Some((acc + s, if rest == "" then None else Some(rest[1..])))
    decreases |s|
  {
    var text := EscapeQuotes(s) + "\"" + rest;
    if s == "" {
      assert text == "\"" + rest;
      assert acc + s == acc;
      if rest != "" { assert text[2..] == rest[1..]; }
    } else {
      var tail := EscapeQuotes(s[1..]) + "\"" + rest;
      QuotedFieldRoundTrip(s[1..], rest, acc + [s[0]]);
      assert acc + [s[0]] + s[1..] == acc + s;
      if s[0] == '"' {
        assert text[2..] == tail && text[0] == '"' && text[1] == '"';
      } else {
        assert text[1..] == tail && text[0] == s[0];
      }
    }
  }

  lemma {:induction false} CsvRoundTrip(p: Path)
    requires p != []
    ensures CsvFields(QuotePath(p)) == Some(p)
    ensures '"' in QuotePath(p)
  {
    hide CsvFields, EscapeQuotes;
    var rest := if |p| == 1 then "" else "." + QuotePath(p[1..]);
    assert QuotePath(p) == QuoteSegment(p[0]) + rest;
    CsvQuotedFirst(p[0], rest);
    if |p| > 1 {
      CsvRoundTrip(p[1..]);
      assert rest[1..] == QuotePath(p[1..]);
      assert [p[0]] + p[1..] == p;
    } else {
      assert [p[0]] == p;
    }
  }

  /** A quoted segment is the first field; what follows its dot are the others. */
  lemma CsvQuotedFirst(x: string, rest: string)
    requires rest == "" || rest[0] == '.'
    ensures '"' in QuoteSegment(x) + rest
    ensures CsvFields(QuoteSegment(x) + rest) ==
            if rest == "" then Some([x])
            else if CsvFields(rest[1..]).None? then None
            else Some([x] + CsvFields(rest[1..]).value)
  {
    hide QuotedField, EscapeQuotes;
    var s, text := QuoteSegment(x) + rest, EscapeQuotes(x) + "\"" + rest;
    assert s == "\"" + text && s[0] == '"' && s[1..] == text;
    QuotedFieldRoundTrip(x, rest, "");
    assert "" + x == x;
  }

  // ---- GetNode ----

  /** `GetChild`: slice indices go through `strconv.Atoi`, so "+1" and "01" also name element 1. */
  function GetChild(n: Node, key: string): Option<Node> {
    match n
    case MapNode(m) => if key in m then Some(m[key]) else None
    case SliceNode(s) =>
      var i := Atoi(key);
      if i.None? || i.value < 0 || i.value >= |s| then None else Some(s[i.value])
    case _ => None
  }

  function Walk(n: Node, segs: seq<string>): Option<Node> {
    if segs == [] then Some(n)
    else
      var c := GetChild(n, segs[0]);
      if c.None? then None else Walk(c.value, segs[1..])
  }

  function GetNode(n: Node, key: string): Option<Node> { Walk(n, SplitConcatKey(key)) }

  predicate KeyExists(n: Node, key: string) { GetNode(n, key).Some? }

  lemma {:induction false} WalkConcat(n: Node, a: seq<string>, b: seq<string>)
    ensures Walk(n, a + b) == if Walk(n, a).None? then None else Walk(Walk(n, a).value, b)
  {
    if a == [] {
      assert a + b == b;
    } else {
      assert (a + b)[1..] == a[1..] + b;
      var c := GetChild(n, a[0]);
      if c.Some? { WalkConcat(c.value, a[1..], b); }
    }
  }

  /** The structural path that a lookup follows: every slice step in decimal normal form. */
  function CanonicalPath(n: Node, segs: seq<string>): Path {
    if segs == [] then []
    else
      var c := GetChild(n, segs[0]);
      if c.None? then segs
      else [if n.SliceNode? then Itoa(Atoi(segs[0]).value) else segs[0]] + CanonicalPath(c.value, segs[1..])
  }

  lemma {:induction false} WalkIsAt(n: Node, segs: seq<string>)
    ensures Walk(n, segs).Some? ==> At(n, CanonicalPath(n, segs)) == Walk(n, segs)
  {
    if segs != [] {
      var c := GetChild(n, segs[0]);
      if c.Some? {
        WalkIsAt(c.value, segs[1..]);
        var p := CanonicalPath(n, segs);
        assert p[1..] == CanonicalPath(c.value, segs[1..]);
        if n.SliceNode? { AtoiItoa(Atoi(segs[0]).value); }
      }
    }
  }

  lemma {:induction false} AtIsWalk(n: Node, p: Path)
    requires At(n, p).Some?
    ensures Walk(n, p) == At(n, p) && CanonicalPath(n, p) == p
  {
    if p != [] {
      AtIsWalk(Child(n, p[0]).value, p[1..]);
    }
  }

  /** A quoted path reaches its node, whatever dots and quotes its segments hold, as long
      as no segment ends in a list index. */
  lemma QuotedLookup(n: Node, p: Path)
    requires p != [] && forall i :: 0 <= i < |p| ==> !Indexed(p[i])
    requires At(n, p).Some?
    ensures GetNode(n, QuotePath(p)) == At(n, p)
  {
    CsvRoundTrip(p);
    ParseSegmentsShrinks(p);
    AtIsWalk(n, p);
  }

  // ---- The flattened tree and GetNode agree ----

  predicate PlainSegment(k: string) { k != "" && '.' !in k && '"' !in k && !Indexed(k) }

  predicate PlainKeys(n: Node) {
    match n
    case MapNode(m) => forall k :: k in m ==> PlainSegment(k) && PlainKeys(m[k])
    case SliceNode(s) => forall i :: 0 <= i < |s| ==> PlainKeys(s[i])
    case _ => true
  }

  lemma ItoaPlain(i: nat)
    ensures PlainSegment(Itoa(i))
  {
    var s := Itoa(i);
    assert IsDigit(s[|s| - 1]);
  }

  lemma {:induction false} PlainPaths(n: Node, p: Path)
    requires PlainKeys(n) && At(n, p).Some?
    ensures forall i :: 0 <= i < |p| ==> PlainSegment(p[i])
  {
    if p != [] {
      var c := Child(n, p[0]).value;
      if n.SliceNode? { ItoaPlain(Atoi(p[0]).value); }
      assert PlainKeys(c);
      PlainPaths(c, p[1..]);
      assert p == [p[0]] + p[1..];
    }
  }

  /** In a tree with plain keys, splitting a rendered path gives the path back. */
  lemma PlainRoundTrip(n: Node, p: Path)
    requires PlainKeys(n) && At(n, p).Some? && p != []
    ensures SplitConcatKey(Render(p)) == p
  {
    PlainPaths(n, p);
    RenderFromIsJoin("", p);
    SplitJoin(p, '.');
    JoinNoQuote(p);
    ParseSegmentsShrinks(p);
  }

  lemma {:induction false} JoinNoQuote(p: seq<string>)
    requires forall i :: 0 <= i < |p| ==> '"' !in p[i]
    ensures '"' !in Join(p, '.')
  {
    if |p| > 1 { JoinNoQuote(p[1..]); }
  }

  lemma PlainDistinct(n: Node)
    requires PlainKeys(n) && !n.ValueNode?
    ensures DistinctLeaves(n)
  {
    forall p, q, v, w | HasLeaf(n, p, v) && HasLeaf(n, q, w) && Render(p) == Render(q) ensures p == q {
      PlainRoundTrip(n, p);
      PlainRoundTrip(n, q);
    }
  }

  /** The key a lookup ends at, as `Ravel` writes it. */
  function CanonicalKey(n: Node, key: string): string { Render(CanonicalPath(n, SplitConcatKey(key))) }

  lemma RavelReaches(n: Node, p: Path, v: Scalar)
    requires PlainKeys(n) && !n.ValueNode? && HasLeaf(n, p, v)
    ensures GetNode(n, Render(p)) == Some(ValueNode(v)) && CanonicalKey(n, Render(p)) == Render(p)
  {
    PlainRoundTrip(n, p);
    AtIsWalk(n, p);
  }

  lemma ReachesRavel(n: Node, key: string, v: Scalar)
    requires GetNode(n, key) == Some(ValueNode(v))
    ensures FromLeaf(n, "", CanonicalKey(n, key), v)
  {
    WalkIsAt(n, SplitConcatKey(key));
    assert HasLeaf(n, CanonicalPath(n, SplitConcatKey(key)), v);
  }

  /** The flattened map holds `v` at `key` exactly when `GetNode(key)` reaches a value node
      holding `v` and `key` is written in canonical form. */
  lemma PathIndex(n: Node, m: map<string, Scalar>, key: string, v: Scalar)
    requires PlainKeys(n) && !n.ValueNode? && RavelOf(n, m)
    ensures (key in m && m[key] == v) <==> (GetNode(n, key) == Some(ValueNode(v)) && CanonicalKey(n, key) == key)
  {
    assert (key in m && m[key] == v) <==> FromLeaf(n, "", key, v) by {
      PlainDistinct(n);
      RavelExact(n, m);
    }
    if FromLeaf(n, "", key, v) {
      var p :| HasLeaf(n, p, v) && RenderFrom("", p) == key;
      RavelReaches(n, p, v);
    } else if GetNode(n, key) == Some(ValueNode(v)) {
      ReachesRavel(n, key, v);
    }
  }

  /** Without the canonical-form condition the agreement fails: "a.01" finds element 1. */
  lemma NonCanonicalLookup(m: map<string, Scalar>)
    requires RavelOf(MapNode(map["a" := SliceNode([NullNode, ValueNode(Bool(true))])]), m)
    ensures var n := MapNode(map["a" := SliceNode([NullNode, ValueNode(Bool(true))])]);
            GetNode(n, "a.01") == Some(ValueNode(Bool(true))) && "a.01" !in m
  {
    hide SplitConcatKey, RavelOf, Atoi, Itoa, PlainSegment;
    var list := SliceNode([NullNode, ValueNode(Bool(true))]);
    var n := MapNode(map["a" := list]);
    NonCanonicalSegments();
    assert ["a", "01"][1..] == ["01"];
    assert Walk(list, ["01"]) == Some(ValueNode(Bool(true)));
    assert CanonicalPath(list, ["01"]) == ["1"];
    assert CanonicalPath(n, ["a", "01"]) == ["a", "1"];
    RenderFromIsJoin("", ["a", "1"]);
    assert |CanonicalKey(n, "a.01")| == 3;
    assert PlainKeys(list);
    if "a.01" in m { PathIndex(n, m, "a.01", m["a.01"]); }
  }

  lemma NonCanonicalSegments()
    ensures SplitConcatKey("a.01") == ["a", "01"] && Atoi("01") == Some(1) && Itoa(1) == "1" && PlainSegment("a")
  {
    SplitPlain("01", '.');
    SplitPlain("a", '.');
    SplitConcat("a", '.', "01");
    assert "a" + ['.'] + "01" == "a.01";
    ParseSegmentsShrinks(["a", "01"]);
    assert DigitsValue("01") == 1 by { assert "01"[..1] == "0"; assert "0"[..0] == ""; }
  }
}
