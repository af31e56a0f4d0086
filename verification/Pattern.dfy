/** Pattern and rule matching: `shield/pkg/common/pattern.go` and `profile.go`. */
module Pattern {
  import opened Text

  // ---- pattern.go ----

  predicate IsSpace(c: char) { c == ' ' || '\t' <= c <= '\r' }

  /** `strings.TrimSpace`, for the ASCII white space. */
  function TrimSpace(s: string): (r: string)
    ensures |r| <= |s|
    ensures ',' in s <==> ',' in r
    decreases |s|
  {
    if s != "" && IsSpace(s[0]) then TrimSpace(s[1..])
    else if s != "" && IsSpace(s[|s| - 1]) then TrimSpace(s[..|s| - 1])
    else s
  }

  /** `strings.TrimRight(s, "*")`. */
  function TrimStars(s: string): (r: string)
    ensures r <= s
    ensures ',' in s <==> ',' in r
  {
    if s != "" && s[|s| - 1] == '*' then TrimStars(s[..|s| - 1]) else s
  }

  function SplitRule(rules: string): (r: seq<string>)
    ensures |r| == |Split(rules, ',')|
    ensures forall i :: 0 <= i < |r| ==> r[i] == TrimSpace(Split(rules, ',')[i]) && ',' !in r[i]
    ensures ',' in rules ==> forall i :: 0 <= i < |r| ==> |r[i]| < |rules|
  {
    var pieces := Split(rules, ',');
    SplitPieces(rules, ',');
    seq(|pieces|, i requires 0 <= i < |pieces| => TrimSpace(pieces[i]))
  }

  predicate MatchPattern(pattern: string, value: string)
    decreases |pattern|
  {
    var p := TrimSpace(pattern);
    if p == "" || p == "*" then true
    else if p == "-" && value == "" then true
    else if p[|p| - 1] == '*' then HasPrefix(value, TrimStars(p))
    else if p == value then true
    else if ',' in p then
      var rules := SplitRule(p);
      exists i :: 0 <= i < |rules| && MatchPattern(rules[i], value)
    else false
  }

  predicate MatchWithPatternArray(value: string, patterns: seq<string>) {
    exists i :: 0 <= i < |patterns| && MatchPattern(patterns[i], value)
  }

  predicate MatchPatternWithArray(pattern: string, values: seq<string>) {
    exists i :: 0 <= i < |values| && MatchPattern(pattern, values[i])
  }

  // ---- What a pattern means ----

  /** White space is the blank and the control characters from tab to carriage return. */
  lemma SpaceExactly(c: char)
    ensures IsSpace(c) <==> c as int == 32 || 9 <= c as int <= 13
  {}

  predicate Blank(s: string) { forall i :: 0 <= i < |s| ==> IsSpace(s[i]) }

  /** Nothing to trim: no white space at either end. */
  predicate Tight(x: string) { x != "" ==> !IsSpace(x[0]) && !IsSpace(x[|x| - 1]) }

  lemma {:induction false} FrontTrimmed(a: string, y: string)
    requires Blank(a)
    ensures TrimSpace(a + y) == TrimSpace(y)
  {
    hide IsSpace;
    if a == "" {
      assert a + y == y;
    } else {
      assert (a + y)[1..] == a[1..] + y && (a + y)[0] == a[0];
      FrontTrimmed(a[1..], y);
    }
  }

  lemma {:induction false} EndTrimmed(x: string, b: string)
    requires Blank(b) && Tight(x) && x != ""
    ensures TrimSpace(x + b) == x
  {
    hide IsSpace;
    if b == "" {
      assert x + b == x;
    } else {
      var s, front := x + b, b[..|b| - 1];
      assert s[..|s| - 1] == x + front && s[|s| - 1] == b[|b| - 1] && s[0] == x[0];
      EndTrimmed(x, front);
    }
  }

  /** Trimming takes white space off both ends and nothing else. */
  lemma TrimmedExactly(a: string, x: string, b: string)
    requires Blank(a) && Blank(b) && Tight(x)
    ensures TrimSpace(a + x + b) == x
  {
    hide IsSpace, TrimSpace;
    assert a + x + b == a + (x + b);
    FrontTrimmed(a, x + b);
    if x == "" {
      assert x + b == b + "" == b;
      FrontTrimmed(b, "");
      NothingTrimmed();
    } else {
      EndTrimmed(x, b);
    }
  }

  lemma NothingTrimmed()
    ensures TrimSpace("") == ""
  {}

  lemma {:induction false} StarsTrimmed(x: string, stars: string)
    requires (x != "" ==> x[|x| - 1] != '*') && forall i :: 0 <= i < |stars| ==> stars[i] == '*'
    ensures TrimStars(x + stars) == x
  {
    var s := x + stars;
    if stars == "" {
      assert s == x;
    } else {
      assert s[..|s| - 1] == x + stars[..|stars| - 1];
      StarsTrimmed(x, stars[..|stars| - 1]);
    }
  }

  /** White space around a pattern does not count. */
  lemma PaddedPattern(a: string, x: string, b: string, value: string)
    requires Blank(a) && Blank(b) && Tight(x)
    ensures MatchPattern(a + x + b, value) <==> MatchPattern(x, value)
  {
    TrimmedExactly(a, x, b);
    TrimmedExactly("", x, "");
    assert "" + x + "" == x;
  }

  lemma TightTrims(x: string)
    requires Tight(x)
    ensures TrimSpace(x) == x
  {
    TrimmedExactly("", x, "");
    assert "" + x + "" == x;
  }

  /** Without comma and without a star at its end a pattern is the value itself; "-" is also the
      empty value. */
  lemma ExactPattern(x: string, value: string)
    requires x != "" && Tight(x) && ',' !in x && x[|x| - 1] != '*'
    ensures MatchPattern(x, value) <==> value == x || (x == "-" && value == "")
  {
    TightTrims(x);
  }

  /** With stars at its end it is a prefix. */
  lemma PrefixPattern(x: string, stars: string, value: string)
    requires Tight(x + stars) && (x != "" ==> x[|x| - 1] != '*')
    requires stars != "" && forall i :: 0 <= i < |stars| ==> stars[i] == '*'
    ensures MatchPattern(x + stars, value) <==> x <= value
  {
    var p := x + stars;
    assert p[|p| - 1] == stars[|stars| - 1];
    TightTrims(p);
    StarsTrimmed(x, stars);
    if p == "*" { assert x == "" by { assert |p| == 1; } }
  }

  /** The empty pattern matches everything. */
  lemma EmptyPattern(value: string)
    ensures MatchPattern("", value)
  {}

  method AnyValueMatches(pattern: string, values: seq<string>) returns (b: bool)
    ensures b <==> MatchPatternWithArray(pattern, values)
  {
    hide MatchPattern;
    b := false;
    for i := 0 to |values|
      invariant b <==> exists j :: 0 <= j < i && MatchPattern(pattern, values[j])
    {
      if MatchPattern(pattern, values[i]) { b := true; }
    }
  }

  method AnyPatternMatches(value: string, patterns: seq<string>) returns (b: bool)
    ensures b <==> MatchWithPatternArray(value, patterns)
  {
    hide MatchPattern;
    b := false;
    for i := 0 to |patterns|
      invariant b <==> exists j :: 0 <= j < i && MatchPattern(patterns[j], value)
    {
      if MatchPattern(patterns[i], value) { b := true; }
    }
  }

  /** A comma list means "one of these patterns" for every value without commas, unless the
      list as a whole ends in a star: then it is taken as one prefix and matches nothing. */
  lemma CommaListMeaning(pattern: string, value: string)
    requires ',' in pattern && ',' !in value
    ensures MatchPattern(pattern, value) <==>
            !HasSuffix(TrimSpace(pattern), "*") && MatchWithPatternArray(value, SplitRule(TrimSpace(pattern)))
  {
    hide SplitRule;
    var p := TrimSpace(pattern);
    assert HasSuffix(p, "*") <==> p[|p| - 1] == '*' by {
      assert p[|p| - 1..] == [p[|p| - 1]];
    }
    assert p != "-";
    assert ',' in TrimStars(p) && !HasPrefix(value, TrimStars(p));
  }

  /** One of the patterns of "a,b*" matches "b1", and the list does not. */
  lemma StarredListMisses()
    ensures MatchPattern("b*", "b1") && !MatchPattern("a,b*", "b1")
  {
    assert TrimSpace("b*") == "b*" && TrimSpace("a,b*") == "a,b*";
    assert "b*"[..1] == "b" && "a,b*"[..3] == "a,b";
    assert TrimStars("b") == "b" && TrimStars("a,b") == "a,b";
    assert TrimStars("b*") == "b" && TrimStars("a,b*") == "a,b";
    assert "b1"[..1] == "b";
  }

  // ---- profile.go ----

  /** The request fields a pattern is matched against; absent fields read as "". */
  type Fields = map<string, string>

  function Field(fields: Fields, name: string): string { if name in fields then fields[name] else "" }

  predicate ClusterScoped(fields: Fields) { Field(fields, "ResourceScope") == "Cluster" }

  datatype RequestPattern = RequestPattern(
    scope: Option<string>, apiGroup: Option<string>, apiVersion: Option<string>, kind: Option<string>,
    name: Option<string>, operation: Option<string>, userName: Option<string>, userGroup: Option<string>)

  /** The pattern's fields under the names the original finds by reflection. */
  function NamedFields(r: RequestPattern): (ps: seq<(string, Option<string>)>) {
    [("Scope", r.scope), ("ApiGroup", r.apiGroup), ("ApiVersion", r.apiVersion), ("Kind", r.kind),
     ("Name", r.name), ("Operation", r.operation), ("UserName", r.userName), ("UserGroup", r.userGroup)]
  }

  predicate FieldMatches(p: (string, Option<string>), fields: Fields, exactName: bool) {
    p.1.Some? ==>
      if p.0 == "Name" && exactName then p.1.value == Field(fields, p.0)
      else MatchPattern(p.1.value, Field(fields, p.0))
  }

  predicate AllFieldsMatch(ps: seq<(string, Option<string>)>, fields: Fields, exactName: bool) {
    && (exists i :: 0 <= i < |ps| && ps[i].1.Some?)
    && (forall i :: 0 <= i < |ps| ==> FieldMatches(ps[i], fields, exactName))
  }

  predicate RequestMatches(r: RequestPattern, fields: Fields, strict: bool) {
    && !(strict && ClusterScoped(fields) && r.name.None?)
    && AllFieldsMatch(NamedFields(r), fields, strict)
  }

  /** Field by field: at least one field is given, and each one given matches the request's field of
      the same name; the name itself literally where that is asked for. */
  lemma RequestMatchesExactly(r: RequestPattern, fields: Fields, strict: bool)
    ensures RequestMatches(r, fields, strict) <==>
            && !(strict && Field(fields, "ResourceScope") == "Cluster" && r.name.None?)
            && (r.scope.Some? || r.apiGroup.Some? || r.apiVersion.Some? || r.kind.Some? || r.name.Some? ||
                r.operation.Some? || r.userName.Some? || r.userGroup.Some?)
            && (r.scope.Some? ==> MatchPattern(r.scope.value, Field(fields, "Scope")))
            && (r.apiGroup.Some? ==> MatchPattern(r.apiGroup.value, Field(fields, "ApiGroup")))
            && (r.apiVersion.Some? ==> MatchPattern(r.apiVersion.value, Field(fields, "ApiVersion")))
            && (r.kind.Some? ==> MatchPattern(r.kind.value, Field(fields, "Kind")))
            && (r.name.Some? && strict ==> r.name.value == Field(fields, "Name"))
            && (r.name.Some? && !strict ==> MatchPattern(r.name.value, Field(fields, "Name")))
            && (r.operation.Some? ==> MatchPattern(r.operation.value, Field(fields, "Operation")))
            && (r.userName.Some? ==> MatchPattern(r.userName.value, Field(fields, "UserName")))
            && (r.userGroup.Some? ==> MatchPattern(r.userGroup.value, Field(fields, "UserGroup")))
  {
    hide MatchPattern, Field;
    var ps := NamedFields(r);
    assert ps[0] == ("Scope", r.scope) && ps[1] == ("ApiGroup", r.apiGroup) && ps[2] == ("ApiVersion", r.apiVersion);
    assert ps[3] == ("Kind", r.kind) && ps[4] == ("Name", r.name) && ps[5] == ("Operation", r.operation);
    assert ps[6] == ("UserName", r.userName) && ps[7] == ("UserGroup", r.userGroup);
    assert forall i :: 0 <= i < 8 && i != 4 ==> ps[i].0 != "Name";
  }

  method MatchRequest(r: RequestPattern, fields: Fields, exactMatchForName: bool) returns (ok: bool)
    ensures ok <==> RequestMatches(r, fields, exactMatchForName)
  {
    hide FieldMatches, MatchPattern;
    if exactMatchForName && ClusterScoped(fields) && r.name.None? { return false; }
    var ps := NamedFields(r);
    var matched, patternCount := true, 0;
    for i := 0 to |ps|
      invariant patternCount > 0 <==> exists j :: 0 <= j < i && ps[j].1.Some?
      invariant patternCount >= 0
      invariant matched <==> forall j :: 0 <= j < i ==> FieldMatches(ps[j], fields, exactMatchForName)
    {
      if ps[i].1.Some? { patternCount := patternCount + 1; }
      matched := matched && FieldMatches(ps[i], fields, exactMatchForName);
    }
    ok := patternCount > 0 && matched;
  }

  datatype Rule = Rule(match_: seq<RequestPattern>, exclude: seq<RequestPattern>)

  predicate SomeMatches(ps: seq<RequestPattern>, fields: Fields, strict: bool) {
    exists i :: 0 <= i < |ps| && RequestMatches(ps[i], fields, strict)
  }

  predicate RuleMatches(rule: Rule, fields: Fields, strict: bool) {
    SomeMatches(rule.match_, fields, strict) && !SomeMatches(rule.exclude, fields, strict)
  }

  method AnyPattern(ps: seq<RequestPattern>, fields: Fields, strict: bool) returns (found: bool)
    ensures found <==> SomeMatches(ps, fields, strict)
  {
    hide RequestMatches;
    for i := 0 to |ps|
      invariant forall j :: 0 <= j < i ==> !RequestMatches(ps[j], fields, strict)
    {
      var m := MatchRequest(ps[i], fields, strict);
      if m { return true; }
    }
    return false;
  }

  method MatchWithRequest(rule: Rule, fields: Fields, strict: bool) returns (ok: bool)
    ensures ok <==> RuleMatches(rule, fields, strict)
  {
    var matched := AnyPattern(rule.match_, fields, strict);
    var excluded := false;
    if matched { excluded := AnyPattern(rule.exclude, fields, strict); }
    ok := matched && !excluded;
  }

  /** Strict matching of a cluster request needs a concrete name in a match pattern: a rule
      whose patterns leave the name out, or write another name, never applies. */
  lemma StrictNeedsName(rule: Rule, fields: Fields)
    requires ClusterScoped(fields) && RuleMatches(rule, fields, true)
    ensures exists i :: 0 <= i < |rule.match_| && rule.match_[i].name == Some(Field(fields, "Name"))
  {
    var i :| 0 <= i < |rule.match_| && RequestMatches(rule.match_[i], fields, true);
    var p := NamedFields(rule.match_[i])[4];
    assert FieldMatches(p, fields, true);
  }
}
