/** `generateKeyList` and `validateKeyList` of `mapnode/node.go`: expanding "foo[].bar"
    to the concrete keys a tree has, and the in-place rewrite of a caller's key list. */
module Wildcards {
  import opened Text
  import opened Tree
  import opened Keys

  /** `strings.Split(s, "[]")`. */
  function SplitBrackets(s: string): (r: seq<string>)
    ensures |r| >= 1
  {
    if "[]" <= s then [""] + SplitBrackets(s[2..])
    else if s == "" then [""]
    else
      var rest := SplitBrackets(s[1..]);
      [[s[0]] + rest[0]] + rest[1..]
  }

  lemma {:induction false} BracketsSplit(s: string)
    ensures Contains(s, "[]") <==> |SplitBrackets(s)| >= 2
  {
    if "[]" <= s {
      assert OccursAt(s, "[]", 0);
    } else if s == "" {
    } else {
      ContainsTail(s, "[]");
      BracketsSplit(s[1..]);
    }
  }

  lemma ContainsTail(s: string, sub: string)
    requires s != "" && !(sub <= s)
    ensures Contains(s, sub) <==> Contains(s[1..], sub)
  {
    if Contains(s, sub) {
      var i :| 0 <= i <= |s| && OccursAt(s, sub, i);
      assert OccursAt(s[1..], sub, i - 1);
    }
    if Contains(s[1..], sub) {
      var i :| 0 <= i <= |s[1..]| && OccursAt(s[1..], sub, i);
      assert OccursAt(s, sub, i + 1);
    }
  }

  lemma {:induction false} BracketFree(s: string)
    requires '[' !in s
    ensures SplitBrackets(s) == [s]
  {
    if s != "" {
      BracketFree(s[1..]);
      assert s[0] in s && !("[]" <= s) && [s[0]] + s[1..] == s;
    }
  }

  lemma {:induction false} FirstBrackets(a: string, rest: string)
    requires '[' !in a
    ensures SplitBrackets(a + "[]" + rest) == [a] + SplitBrackets(rest)
  {
    var s := a + "[]" + rest;
    if a == "" {
      assert s[2..] == rest;
    } else {
      FirstBrackets(a[1..], rest);
      assert s[1..] == a[1..] + "[]" + rest && s[0] == a[0];
      assert ([a[1..]] + SplitBrackets(rest))[1..] == SplitBrackets(rest);
      assert [a[0]] + a[1..] == a;
      assert !("[]" <= s);
    }
  }

  lemma {:induction false} BracketsNoQuote(s: string)
    requires '"' !in s
    ensures forall i :: 0 <= i < |SplitBrackets(s)| ==> '"' !in SplitBrackets(s)[i]
  {
    if "[]" <= s { BracketsNoQuote(s[2..]); } else if s != "" { BracketsNoQuote(s[1..]); }
  }

  /** `strings.Trim(s, ".")`. */
  function TrimDots(s: string): (r: string)
    ensures r != "" ==> r[|r| - 1] != '.'
    ensures forall c :: c in r ==> c in s
  {
    if s != "" && s[0] == '.' then TrimDots(s[1..])
    else if s != "" && s[|s| - 1] == '.' then TrimDots(s[..|s| - 1])
    else s
  }

  /** `strings.TrimSuffix(s, ".")`. */
  function DropDot(s: string): string { if s != "" && s[|s| - 1] == '.' then s[..|s| - 1] else s }

  function Parts(key: string): (r: seq<string>)
    ensures |r| >= 1
    ensures |r| >= 2 <==> Contains(key, "[]")
    ensures forall i :: 0 <= i < |r| ==> r[i] == "" || r[i][|r[i]| - 1] != '.'
  {
    BracketsSplit(key);
    var pieces := SplitBrackets(key);
    seq(|pieces|, i requires 0 <= i < |pieces| => TrimDots(pieces[i]))
  }

  /** The first `cnt` parts, each followed by its index. */
  function Indexing(parts: seq<string>, idx: seq<nat>, cnt: nat): string
    requires cnt <= |parts| && cnt <= |idx|
  {
    if cnt == 0 then "" else Indexing(parts, idx, cnt - 1) + parts[cnt - 1] + ("." + Itoa(idx[cnt - 1]) + ".")
  }

  /** All slots at index 0 except the last one, at `j`. */
  function Slots(cnt: nat, j: nat): seq<nat> { seq(cnt, t => if t == cnt - 1 then j else 0) }

  function KeyAt(parts: seq<string>, j: nat): string
    requires |parts| >= 2
  {
    DropDot(Indexing(parts, Slots(|parts| - 1, j), |parts| - 1) + parts[|parts| - 1])
  }

  function CheckAt(parts: seq<string>, j: nat): string
    requires |parts| >= 2
  {
    DropDot(Indexing(parts, Slots(|parts| - 1, j), |parts| - 1))
  }

  /** What stands before the last index. */
  function Base(parts: seq<string>): string
    requires |parts| >= 2
  {
    Indexing(parts, Slots(|parts| - 1, 0), |parts| - 2) + parts[|parts| - 2]
  }

  lemma {:induction false} IndexingAgrees(parts: seq<string>, a: seq<nat>, b: seq<nat>, cnt: nat)
    requires cnt <= |parts| && cnt <= |a| && cnt <= |b|
    requires forall t :: 0 <= t < cnt ==> a[t] == b[t]
    ensures Indexing(parts, a, cnt) == Indexing(parts, b, cnt)
  {
    if cnt > 0 { IndexingAgrees(parts, a, b, cnt - 1); }
  }

  lemma KeyShapes(parts: seq<string>, j: nat)
    requires |parts| >= 2 && (parts[|parts| - 1] != "" ==> parts[|parts| - 1][|parts[|parts| - 1]| - 1] != '.')
    ensures CheckAt(parts, j) == Base(parts) + "." + Itoa(j)
    ensures var tail := parts[|parts| - 1];
            KeyAt(parts, j) == CheckAt(parts, j) + (if tail == "" then "" else "." + tail)
  {
    hide Itoa;
    var cnt := |parts| - 1;
    IndexingAgrees(parts, Slots(cnt, j), Slots(cnt, 0), cnt - 1);
    assert Indexing(parts, Slots(cnt, j), cnt) == Base(parts) + ("." + Itoa(j) + ".");
    DropDotShapes(Base(parts), Itoa(j), parts[cnt]);
  }

  lemma DropDotShapes(base: string, index: string, tail: string)
    requires tail != "" ==> tail[|tail| - 1] != '.'
    ensures DropDot(base + ("." + index + ".")) == base + "." + index
    ensures DropDot(base + ("." + index + ".") + tail) == base + "." + index + (if tail == "" then "" else "." + tail)
  {
    var stem := base + "." + index;
    assert base + ("." + index + ".") == stem + ".";
    assert (stem + ".")[..|stem|] == stem;
    assert stem + "." + tail == stem + ("." + tail);
    if tail == "" { assert stem + "." + tail == stem + "."; }
  }

  /** The keys that `[]` expands to: consecutive indices of the last slot, starting at 0 and
      ending before the first one the tree does not have; every other slot stays at 0. */
  ghost predicate IsExtent(t: Node, parts: seq<string>, m: nat)
    requires |parts| >= 2
  {
    (forall j: nat :: j < m ==> KeyExists(t, CheckAt(parts, j))) && !KeyExists(t, CheckAt(parts, m))
  }

  /** The search stops at all. */
  ghost predicate Stops(t: Node, key: string) {
    Contains(key, "[]") ==> exists j: nat :: !KeyExists(t, CheckAt(Parts(key), j))
  }

  lemma {:induction false} ExtentExists(t: Node, parts: seq<string>, j: nat)
    requires |parts| >= 2 && !KeyExists(t, CheckAt(parts, j))
    ensures exists m: nat :: IsExtent(t, parts, m)
  {
    if i: nat :| i < j && !KeyExists(t, CheckAt(parts, i)) {
      ExtentExists(t, parts, i);
    } else {
      assert IsExtent(t, parts, j);
    }
  }

  ghost function Extent(t: Node, key: string): (m: nat)
    requires Contains(key, "[]") && Stops(t, key)
    ensures IsExtent(t, Parts(key), m)
  {
    var j: nat :| !KeyExists(t, CheckAt(Parts(key), j));
    ExtentExists(t, Parts(key), j);
    var m: nat :| IsExtent(t, Parts(key), m);
    m
  }

  /** The exact result of `generateKeyList`. */
  ghost function Expansion(t: Node, key: string): seq<string>
    requires Stops(t, key)
  {
    if Contains(key, "[]") then KeysUpTo(Parts(key), Extent(t, key)) else []
  }

  function KeysUpTo(parts: seq<string>, m: nat): (r: seq<string>)
    requires |parts| >= 2
    ensures |r| == m && forall j :: 0 <= j < m ==> r[j] == KeyAt(parts, j)
  {
    if m == 0 then [] else KeysUpTo(parts, m - 1) + [KeyAt(parts, m - 1)]
  }

  method BuildKeys(parts: seq<string>, indexList: seq<nat>) returns (key: string, checkKey: string)
    requires |parts| >= 2 && |indexList| == |parts| - 1
    ensures key == DropDot(Indexing(parts, indexList, |indexList|) + parts[|indexList|])
    ensures checkKey == DropDot(Indexing(parts, indexList, |indexList|))
  {
    key, checkKey := "", "";
    for i := 0 to |parts|
      invariant i <= |indexList| ==> key == checkKey == Indexing(parts, indexList, i)
      invariant i == |parts| ==> key == Indexing(parts, indexList, |indexList|) + parts[|indexList|]
      invariant i == |parts| ==> checkKey == Indexing(parts, indexList, |indexList|)
    {
      key := key + parts[i];
      if i < |parts| - 1 {
        key := key + ("." + Itoa(indexList[i]) + ".");
        checkKey := checkKey + parts[i];
        checkKey := checkKey + ("." + Itoa(indexList[i]) + ".");
      }
    }
    key, checkKey := DropDot(key), DropDot(checkKey);
  }

  method GenerateKeyList(t: Node, concatKey: string) returns (keys: seq<string>)
    requires Stops(t, concatKey)
    ensures keys == Expansion(t, concatKey)
  {
    hide KeyExists, Contains, Parts, Indexing, DropDot, Itoa;
    if !Contains(concatKey, "[]") { return []; }
    var parts := Parts(concatKey);
    var slots := |parts| - 1;
    var indexList: seq<nat> := seq(slots, _ => 0);
    var finished := seq(slots, _ => false);
    ghost var m := Extent(t, concatKey);
    ghost var done := 0;
    keys := [];
    var allFinished := false;
    while !allFinished
      invariant 0 <= done <= slots && (allFinished <==> done == slots)
      invariant |finished| == slots == |indexList|
      invariant forall i :: 0 <= i < slots ==> (finished[i] <==> i >= slots - done)
      invariant |keys| <= m && (done > 0 ==> |keys| == m)
      invariant forall i :: 0 <= i < slots ==> indexList[i] == if i == slots - 1 then |keys| else 0
      invariant keys == KeysUpTo(parts, |keys|)
      decreases slots - done, m - |keys|
    {
      assert indexList == Slots(slots, |keys|);
      var key, checkKey := BuildKeys(parts, indexList);
      assert key == KeyAt(parts, |keys|) && checkKey == CheckAt(parts, |keys|);
      var ok := KeyExists(t, checkKey);
      var notFinished := slots - 1;
      while notFinished >= 0 && finished[notFinished]
        invariant slots - done - 1 <= notFinished < slots
      {
        notFinished := notFinished - 1;
      }
      if ok {
        keys := keys + [key];
        indexList := indexList[notFinished := indexList[notFinished] + 1];
      } else {
        finished := finished[notFinished := true];
        done := done + 1;
        if finished[0] { allFinished := true; }
      }
    }
  }

  // ---- Every quote-free key stops ----

  lemma {:induction false} IndicesBounded(j: nat, s: set<string>)
    requires forall i: nat :: i < j ==> Itoa(i) in s
    ensures j <= |s|
  {
    if j > 0 {
      forall i: nat | i < j - 1 ensures Itoa(i) in s - {Itoa(j - 1)} { ItoaInjective(i, j - 1); }
      IndicesBounded(j - 1, s - {Itoa(j - 1)});
    }
  }

  lemma {:induction false} ParseSegmentsConcat(a: seq<string>, b: seq<string>)
    ensures ParseSegments(a + b) == ParseSegments(a) + ParseSegments(b)
  {
    hide ParseSegment;
    if a == [] {
      assert a + b == b;
    } else {
      ParseSegmentsConcat(a[1..], b);
      assert (a + b)[0] == a[0] && (a + b)[1..] == a[1..] + b;
      var x, y, z := ParseSegment(a[0]), ParseSegments(a[1..]), ParseSegments(b);
      assert x + (y + z) == (x + y) + z;
    }
  }

  // ---- A delimiter and an index after a quoted key ----

  lemma {:induction false} QuotedFieldAppend(s: string, acc: string, d: string)
    requires '"' !in d
    ensures QuotedField(s + ("." + d), acc) ==
            match QuotedField(s, acc)
            case None => None
            case Some((f, None)) => Some((f, Some(d)))
            case Some((f, Some(rest))) => Some((f, Some(rest + ("." + d))))
    decreases |s|
  {
    var tail := "." + d;
    if s == "" {
      assert s + tail == tail;
      UnbalancedQuote(tail, acc);
    } else if s[0] != '"' {
      assert (s + tail)[1..] == s[1..] + tail;
      QuotedFieldAppend(s[1..], acc + [s[0]], d);
    } else {
      assert |s| >= 2 ==> (s + tail)[2..] == s[2..] + tail;
      assert |s| == 1 ==> (s + tail)[2..] == d;
      if |s| >= 2 && s[1] == '"' { QuotedFieldAppend(s[2..], acc + ['"'], d); }
    }
  }

  lemma {:induction false} UpToDotAppend(s: string, d: string)
    ensures UpToDot(s + ("." + d)) == UpToDot(s)
  {
    if s != "" && s[0] != '.' {
      assert (s + ("." + d))[1..] == s[1..] + ("." + d);
      UpToDotAppend(s[1..], d);
    }
  }

  lemma PlainField(d: string)
    requires '"' !in d && '.' !in d
    ensures CsvFields(d) == Some([d])
  {
    assert UpToDot(d) == d;
  }

  lemma AppendInside(field: string, rest: Option<seq<string>>, d: string)
    ensures rest.Some? ==> [field] + (rest.value + [d]) == [field] + rest.value + [d]
  {
    if rest.Some? { assert [field] + (rest.value + [d]) == [field] + rest.value + [d]; }
  }

  /** An index after a key that parses is one more field, and no index mends a key that does not. */
  lemma {:induction false} CsvAppend(base: string, d: string)
    requires '"' !in d && '.' !in d
    ensures CsvFields(base + ("." + d)) == if CsvFields(base).None? then None else Some(CsvFields(base).value + [d])
    decreases |base|
  {
    hide QuotedField, UpToDot;
    var s := base + ("." + d);
    PlainField(d);
    if base != "" && base[0] == '"' {
      assert s[1..] == base[1..] + ("." + d);
      QuotedFieldAppend(base[1..], "", d);
      var f := QuotedField(base[1..], "");
      if f.Some? && f.value.1.Some? {
        var rest := f.value.1.value;
        CsvAppend(rest, d);
        AppendInside(f.value.0, CsvFields(rest), d);
      }
    } else {
      UpToDotAppend(base, d);
      var field := UpToDot(base);
      if '"' !in field {
        if field == base {
          assert s[|field| + 1..] == d;
        } else {
          var rest := base[|field| + 1..];
          assert s[|field| + 1..] == rest + ("." + d);
          CsvAppend(rest, d);
          AppendInside(field, CsvFields(rest), d);
        }
      }
    }
  }

  /** The quotes of a key, if any, parse. */
  predicate WellFormed(key: string) { '"' in key ==> CsvFields(key).Some? }

  lemma SplitAppend(base: string, d: string)
    requires '"' !in d && PlainSegment(d)
    ensures SplitConcatKey(base + "." + d) == if WellFormed(base) then SplitConcatKey(base) + [d] else []
  {
    hide CsvFields, ParseSegments, Split;
    assert base + "." + d == base + ("." + d) == base + ['.'] + d;
    assert ParseSegments([d]) == [d] by { OneSegment(d); }
    if '"' in base {
      CsvAppend(base, d);
      assert '"' in base + "." + d;
      if CsvFields(base).Some? { ParseSegmentsConcat(CsvFields(base).value, [d]); }
    } else {
      SplitConcat(base, '.', d);
      SplitPlain(d, '.');
      ParseSegmentsConcat(Split(base, '.'), [d]);
    }
  }

  lemma OneSegment(d: string)
    requires PlainSegment(d)
    ensures ParseSegments([d]) == [d]
  {
    assert ParseSegments([d][1..]) == [];
  }

  /** A check key names the `j`-th child of the node its base names; if the quotes of the base do
      not parse it names the root. */
  lemma CheckMeansChild(t: Node, base: string, j: nat)
    ensures KeyExists(t, base + "." + Itoa(j)) <==>
            (WellFormed(base) ==> GetNode(t, base).Some? && Child(GetNode(t, base).value, Itoa(j)).Some?)
  {
    hide SplitConcatKey, WellFormed;
    ItoaPlain(j);
    AtoiItoa(j);
    var d := Itoa(j);
    SplitAppend(base, d);
    WalkConcat(t, SplitConcatKey(base), [d]);
    if GetNode(t, base).Some? {
      assert [d][1..] == [];
      assert Walk(GetNode(t, base).value, [d]) == GetChild(GetNode(t, base).value, d);
    }
  }

  lemma {:induction false} IndexingNoQuote(parts: seq<string>, idx: seq<nat>, cnt: nat)
    requires cnt <= |parts| && cnt <= |idx| && forall i :: 0 <= i < |parts| ==> '"' !in parts[i]
    ensures '"' !in Indexing(parts, idx, cnt)
  {
    if cnt > 0 { IndexingNoQuote(parts, idx, cnt - 1); }
  }

  lemma BaseNoQuote(key: string)
    requires '"' !in key && Contains(key, "[]")
    ensures '"' !in Base(Parts(key))
  {
    var parts := Parts(key);
    BracketsNoQuote(key);
    IndexingNoQuote(parts, Slots(|parts| - 1, 0), |parts| - 2);
  }

  lemma CheckAtMeansChild(t: Node, key: string, j: nat)
    requires Contains(key, "[]")
    ensures var base := GetNode(t, Base(Parts(key)));
            KeyExists(t, CheckAt(Parts(key), j)) <==>
            (WellFormed(Base(Parts(key))) ==> base.Some? && Child(base.value, Itoa(j)).Some?)
  {
    hide KeyExists, WellFormed, GetNode, CheckAt, Base;
    KeyShapes(Parts(key), j);
    CheckMeansChild(t, Base(Parts(key)), j);
  }

  /** The expansion stops if and only if the quotes in front of the last brackets parse, whatever
      the tree. */
  lemma StopsExactly(t: Node, key: string)
    ensures Stops(t, key) <==> (Contains(key, "[]") ==> WellFormed(Base(Parts(key))))
  {
    hide KeyExists, WellFormed, GetNode, CheckAt, Base, Parts, Contains;
    if Contains(key, "[]") {
      forall j: nat
        ensures KeyExists(t, CheckAt(Parts(key), j)) <==>
                (WellFormed(Base(Parts(key))) ==>
                      GetNode(t, Base(Parts(key))).Some? && Child(GetNode(t, Base(Parts(key))).value, Itoa(j)).Some?)
      {
        CheckAtMeansChild(t, key, j);
      }
      if WellFormed(Base(Parts(key))) && !Stops(t, key) {
        assert KeyExists(t, CheckAt(Parts(key), 0));
        var n := GetNode(t, Base(Parts(key))).value;
        var s := ChildrenMap(n).Keys;
        forall i: nat ensures Itoa(i) in s { assert KeyExists(t, CheckAt(Parts(key), i)); }
        IndicesBounded(|s| + 1, s);
      }
    }
  }

  lemma QuoteFreeStops(t: Node, key: string)
    requires '"' !in key
    ensures Stops(t, key)
  {
    StopsExactly(t, key);
    if Contains(key, "[]") { BaseNoQuote(key); }
  }

  /** Such keys exist: with an open quote every check key parses to no segment and names the
      root. */
  lemma UnbalancedQuoteNeverStops(t: Node)
    ensures !Stops(t, "\"a[]")
  {
    hide SplitBrackets, TrimDots, QuotedField;
    assert OccursAt("\"a[]", "[]", 2);
    UnbalancedParts();
    EmptyIndexing(["\"a", ""]);
    assert Base(["\"a", ""]) == "\"a";
    assert "\"a"[1..] == "a";
    UnbalancedQuote("a", "");
    StopsExactly(t, "\"a[]");
  }

  lemma UnbalancedParts()
    ensures Parts("\"a[]") == ["\"a", ""]
  {
    var key, k1, k2 := "\"a[]", "a[]", "[]";
    assert key[1..] == k1 && k1[1..] == k2 && k2[2..] == "";
    assert SplitBrackets(k2) == ["", ""];
    assert k1[0] == 'a' && k2[0] == '[' && key[0] == '"';
    assert SplitBrackets(k1) == ["a", ""] by { assert ["", ""][1..] == [""] && ['a'] + "" == "a"; }
    assert SplitBrackets(key) == ["\"a", ""] by { assert ["a", ""][1..] == [""] && ['"'] + "a" == "\"a"; }
  }

  lemma EmptyIndexing(parts: seq<string>)
    ensures Indexing(parts, Slots(1, 0), 0) == ""
  {}

  lemma {:induction false} UnbalancedQuote(s: string, acc: string)
    requires forall i :: 0 <= i < |s| ==> s[i] != '"'
    ensures QuotedField(s, acc) == None
    decreases |s|
  {
    if s != "" { UnbalancedQuote(s[1..], acc + [s[0]]); }
  }

  // ---- What the expansion contains ----

  lemma MiddleInjective(pre: string, a: string, b: string, end: string)
    ensures pre + a + end == pre + b + end ==> a == b
  {
    assert (pre + a + end)[|pre|..|pre| + |a|] == a;
    assert (pre + b + end)[|pre|..|pre| + |b|] == b;
  }

  /** Every expanded key extends an existing list element, and no key is listed twice. */
  lemma ExpansionSound(t: Node, key: string)
    requires Stops(t, key)
    ensures var r := Expansion(t, key);
            (forall i :: 0 <= i < |r| ==>
                  HasPrefix(r[i], CheckAt(Parts(key), i)) && KeyExists(t, CheckAt(Parts(key), i))) &&
            (forall i, j :: 0 <= i < j < |r| ==> r[i] != r[j])
  {
    hide KeyExists, Contains, Parts, KeyAt, CheckAt, Base;
    var r := Expansion(t, key);
    if Contains(key, "[]") {
      var parts := Parts(key);
      forall i | 0 <= i < |r| ensures HasPrefix(r[i], CheckAt(parts, i)) { KeyShapes(parts, i); }
      forall i, j | 0 <= i < j < |r| ensures r[i] != r[j] {
        KeyShapes(parts, i);
        KeyShapes(parts, j);
        ItoaInjective(i, j);
        var tail := parts[|parts| - 1];
        MiddleInjective(Base(parts) + ".", Itoa(i), Itoa(j), if tail == "" then "" else "." + tail);
      }
    }
  }

  /** Over an `n`-element list the expansion is the `n` concrete keys, in order. */
  lemma ExpansionOverList(t: Node, key: string, s: seq<Node>)
    requires Contains(key, "[]") && WellFormed(Base(Parts(key)))
    requires GetNode(t, Base(Parts(key))) == Some(SliceNode(s))
    ensures Stops(t, key) && Expansion(t, key) == KeysUpTo(Parts(key), |s|)
  {
    hide KeyExists, Contains, Parts, CheckAt, GetNode, Base, KeyAt, WellFormed;
    StopsExactly(t, key);
    var m := Extent(t, key);
    forall j: nat ensures KeyExists(t, CheckAt(Parts(key), j)) <==> j < |s| {
      CheckAtMeansChild(t, key, j);
      AtoiItoa(j);
    }
    assert !KeyExists(t, CheckAt(Parts(key), m)) && !KeyExists(t, CheckAt(Parts(key), |s|));
  }

  // ---- validateKeyList ----

  function Rewritten(keys: seq<string>): (r: seq<string>)
    ensures |r| == |keys| && forall i :: 0 <= i < |keys| ==> r[i] == ParseConcatKey(keys[i])
  {
    seq(|keys|, i requires 0 <= i < |keys| => ParseConcatKey(keys[i]))
  }

  ghost predicate AllStop(t: Node, keys: seq<string>) { forall i :: 0 <= i < |keys| ==> Stops(t, keys[i]) }

  /** The concrete keys of a list already in normal form: each key's expansion, or the key
      itself when it has none. */
  ghost function Concrete(t: Node, keys: seq<string>): seq<string>
    requires AllStop(t, keys)
  {
    if keys == [] then []
    else
      var last := keys[|keys| - 1];
      Concrete(t, keys[..|keys| - 1]) + (if Expansion(t, last) != [] then Expansion(t, last) else [last])
  }

  /** The caller's array is overwritten with the rewritten keys. */
  method ValidateKeyList(t: Node, keys: array<string>) returns (newKeys: seq<string>)
    requires AllStop(t, Rewritten(keys[..]))
    modifies keys
    ensures keys[..] == Rewritten(old(keys[..]))
    ensures newKeys == Concrete(t, keys[..])
  {
    hide ParseConcatKey, Expansion, Stops;
    ghost var was := keys[..];
    newKeys := [];
    for i := 0 to keys.Length
      invariant forall j :: 0 <= j < i ==> keys[j] == ParseConcatKey(was[j])
      invariant forall j :: i <= j < keys.Length ==> keys[j] == was[j]
    {
      var keyAlt := ParseConcatKey(keys[i]);
      if keys[i] != keyAlt { keys[i] := keyAlt; }
    }
    assert keys[..] == Rewritten(was);
    for i := 0 to keys.Length
      invariant keys[..] == Rewritten(was)
      invariant newKeys == Concrete(t, keys[..i])
    {
      var tmpList := GenerateKeyList(t, keys[i]);
      assert keys[..i + 1][..i] == keys[..i];
      if |tmpList| > 0 { newKeys := newKeys + tmpList; } else { newKeys := newKeys + [keys[i]]; }
    }
    assert keys[..keys.Length] == keys[..];
  }

  /** On stable keys a second rewrite of the same array finds nothing to change. */
  lemma RewriteTwice(keys: seq<string>)
    ensures Rewritten(Rewritten(keys)) == Rewritten(keys) <==> forall i :: 0 <= i < |keys| ==> StableKey(keys[i])
  {
    var r := Rewritten(keys);
    forall i | 0 <= i < |keys| ensures Rewritten(r)[i] == r[i] <==> StableKey(keys[i]) { RewriteIdempotent(keys[i]); }
    assert Rewritten(r) == r <==> forall i :: 0 <= i < |keys| ==> Rewritten(r)[i] == r[i];
  }

  predicate NoWildcard(keys: seq<string>) { forall i :: 0 <= i < |keys| ==> !Contains(keys[i], "[]") }

  /** Keys without "[]" stand for themselves in every tree. */
  lemma {:induction false} ConcreteNoWildcard(t: Node, keys: seq<string>)
    requires NoWildcard(keys)
    ensures AllStop(t, keys) && Concrete(t, keys) == keys
  {
    if keys != [] {
      ConcreteNoWildcard(t, keys[..|keys| - 1]);
      assert keys == keys[..|keys| - 1] + [keys[|keys| - 1]];
    }
  }
}
