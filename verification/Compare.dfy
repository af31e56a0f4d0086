/** Comparing a signed message with a requested object: `matchContents` of
    `shield/pkg/shield/signVerifier.go`. */
module Compare {
  import opened Text
  import opened Tree
  import opened Keys
  import opened Wildcards
  import opened Mask
  import opened Extract
  import opened Shifting
  import opened Diff

  // ---- DiffPattern.Match and DiffResult.Remove ----

  predicate PatternMatches(rx: Regex, p: Difference, d: Difference) {
    p.key == d.key && (p == d ||
    match (p.before, d.before, p.after, d.after)
    case (Some(Str(pb)), Some(Str(db)), Some(Str(pa)), Some(Str(da))) => IsListed(rx, db, pb) && IsListed(rx, da, pa)
    case _ => false)
  }

  predicate SomePattern(rx: Regex, patterns: seq<Difference>, d: Difference) {
    exists i :: 0 <= i < |patterns| && PatternMatches(rx, patterns[i], d)
  }

  /** `DiffPattern.Match`: the same key, and the same values or patterns for both. */
  method MatchDifference(rx: Regex, p: Difference, d: Difference) returns (b: bool)
    ensures b <==> PatternMatches(rx, p, d)
  {
    if p.key != d.key { return false; }
    if p.before == d.before && p.after == d.after { return true; }
    if p.before.Some? && d.before.Some? && p.after.Some? && d.after.Some? {
      var pb, db, pa, da := p.before.value, d.before.value, p.after.value, d.after.value;
      if pb.Str? && db.Str? && pa.Str? && da.Str? {
        return IsListed(rx, db.s, pb.s) && IsListed(rx, da.s, pa.s);
      }
    }
    return false;
  }

  method AnyPatternMatches(rx: Regex, patterns: seq<Difference>, d: Difference) returns (b: bool)
    ensures b <==> SomePattern(rx, patterns, d)
  {
    hide PatternMatches;
    for i := 0 to |patterns|
      invariant forall j :: 0 <= j < i ==> !PatternMatches(rx, patterns[j], d)
    {
      var matched := MatchDifference(rx, patterns[i], d);
      if matched { return true; }
    }
    return false;
  }

  method Remove(rx: Regex, items: seq<Difference>, patterns: seq<Difference>) returns (kept: seq<Difference>)
    ensures kept == Filter(items, d => !SomePattern(rx, patterns, d))
  {
    hide SomePattern;
    kept := [];
    for i := 0 to |items|
      invariant kept == Filter(items[..i], d => !SomePattern(rx, patterns, d))
    {
      assert items[..i + 1][..i] == items[..i];
      var patternMatched := AnyPatternMatches(rx, patterns, items[i]);
      if !patternMatched { kept := kept + [items[i]]; }
    }
    assert items[..|items|] == items;
  }

  // ---- matchContents ----

  /** After the rewrite no key holds a quote, so expanding wildcards terminates. */
  predicate WellQuoted(keys: seq<string>) { forall i :: 0 <= i < |keys| ==> '"' !in ParseConcatKey(keys[i]) }

  lemma WellQuotedStops(t: Node, keys: seq<string>)
    requires WellQuoted(keys)
    ensures AllStop(t, Rewritten(keys)) && WellQuoted(Rewritten(keys))
  {
    hide ParseConcatKey, Stops;
    forall i | 0 <= i < |keys| ensures Stops(t, Rewritten(keys)[i]) && '"' !in ParseConcatKey(Rewritten(keys)[i]) {
      var r := ParseConcatKey(keys[i]);
      QuoteFreeStops(t, r);
      RewriteNoQuote(r);
    }
  }

  lemma RewriteNoQuote(r: string)
    requires '"' !in r
    ensures '"' !in ParseConcatKey(r)
  {
    hide Split, ParseSegments;
    SplitAvoids(r, '.', '"');
    ParseSegmentsAvoid(Split(r, '.'), '"');
    JoinNoQuote(SplitConcatKey(r));
  }

  /** What a node is narrowed to before comparison, for key lists already in normal form: the
      focused keys when there are any, otherwise everything that is not masked. */
  ghost predicate Narrowed(rx: Regex, n: Node, focus: seq<string>, mask: seq<string>, r: Node) {
    if focus == [] then
      AllStop(n, mask) && r == RecursiveMask(n, "", ListedBy(rx, Concrete(n, mask)))
    else
      exists m, dropped :: FocusedBy(rx, n, focus, r, m, dropped)
  }

  ghost predicate FocusedBy(rx: Regex, n: Node, focus: seq<string>, r: Node, m: Flat, dropped: seq<string>) {
    && AllStop(n, focus) && AllStop(n, Rewritten(dropped)) && RavelOf(n, m)
    && (forall x :: x in dropped <==> Drops(m, Concrete(n, focus), x))
    && r == RecursiveMask(n, "", ListedBy(rx, Concrete(n, Rewritten(dropped))))
  }

  /** The two sides of a comparison and their flattened forms. */
  datatype Sides = Sides(org: Node, req: Node, m1: Flat, m2: Flat)

  /** One and the same key array serves both objects: the first use rewrites it in place, the
      second one rewrites the result again. */
  ghost predicate Compared(rx: Regex, org: Node, req: Node, focus: seq<string>, mask: seq<string>, s: Sides) {
    && Narrowed(rx, org, Rewritten(focus), Rewritten(mask), s.org)
    && Narrowed(rx, req, Rewritten(Rewritten(focus)), Rewritten(Rewritten(mask)), s.req)
    && RavelOf(s.org, s.m1) && RavelOf(s.req, s.m2)
  }

  /** Narrowing terminates, for key lists already in normal form. */
  ghost predicate CanNarrow(n: Node, focus: seq<string>, mask: seq<string>) {
    if focus == [] then AllStop(n, mask) else AllStop(n, focus) && MasksStop(n, Concrete(n, focus))
  }

  /** It does for well-quoted keys and, if there are focus keys, objects without quotes in
      their flattened keys. */
  lemma WellQuotedCanNarrow(n: Node, focus: seq<string>, mask: seq<string>)
    requires WellQuoted(focus) && WellQuoted(mask) && (focus != [] ==> LeafAvoid(n, '"'))
    ensures CanNarrow(n, Rewritten(focus), Rewritten(mask)) &&
            CanNarrow(n, Rewritten(Rewritten(focus)), Rewritten(Rewritten(mask)))
  {
    hide WellQuoted, LeafAvoid, MasksStop, AllStop, Concrete;
    WellQuotedStops(n, focus);
    WellQuotedStops(n, Rewritten(focus));
    WellQuotedStops(n, mask);
    WellQuotedStops(n, Rewritten(mask));
    if focus != [] {
      QuoteFreeMasksStop(n, Concrete(n, Rewritten(focus)));
      QuoteFreeMasksStop(n, Concrete(n, Rewritten(Rewritten(focus))));
    }
  }

  method Narrow(rx: Regex, n: Node, focus: array<string>, mask: array<string>) returns (r: Node)
    requires focus != mask && CanNarrow(n, Rewritten(focus[..]), Rewritten(mask[..]))
    modifies focus, mask
    ensures focus[..] == if focus.Length > 0 then Rewritten(old(focus[..])) else []
    ensures mask[..] == if focus.Length > 0 then old(mask[..]) else Rewritten(old(mask[..]))
    ensures Narrowed(rx, n, focus[..], mask[..], r)
  {
    hide Drops, RavelOf, AllStop, MasksStop, Rewritten, Concrete;
    assert |Rewritten(focus[..])| == focus.Length;
    if focus.Length > 0 {
      ghost var m, dropped;
      r, m, dropped := ExtractNode(rx, n, focus);
      assert FocusedBy(rx, n, focus[..], r, m, dropped);
    } else {
      r := MaskNode(rx, n, mask);
    }
  }

  /** The verdict is "no difference at all": removing allowed differences yields an empty
      result, never an absent one, so the allowed patterns cannot turn a mismatch into a match. */
  method MatchContents(rx: Regex, pr: Printer, org: Option<Node>, req: Option<Node>,
                       focus: array<string>, mask: array<string>, patterns: seq<Difference>)
    returns (matched: bool, ghost s: Sides)
    requires focus != mask
    requires org.Some? && req.Some? ==>
               && CanNarrow(org.value, Rewritten(focus[..]), Rewritten(mask[..]))
               && CanNarrow(req.value, Rewritten(Rewritten(focus[..])), Rewritten(Rewritten(mask[..])))
    modifies focus, mask
    ensures focus[..] == if org.Some? && req.Some? then Rewritten(Rewritten(old(focus[..]))) else old(focus[..])
    ensures org.None? || req.None? ==> !matched
    ensures org.Some? && req.Some? ==>
              Compared(rx, org.value, req.value, old(focus[..]), old(mask[..]), s) && (matched <==> s.m1 == s.m2)
  {
    hide Narrowed, RavelOf, IsDiff, AllStop, MasksStop, Concrete;
    s := Sides(NullNode, NullNode, map[], map[]);
    if org.None? || req.None? { return false, s; }
    var a := Narrow(rx, org.value, focus, mask);
    var b := Narrow(rx, req.value, focus, mask);
    var m1 := Ravel(a);
    var m2 := Ravel(b);
    s := Sides(a, b, m1, m2);
    var dr := FindDiff(pr, m1, m2);
    DiffNone(pr, m1, m2, dr);
    if dr.Some? && |patterns| > 0 {
      var kept := Remove(rx, dr.value, patterns);
      dr := Some(kept);
    }
    matched := dr.None?;
    if old(focus[..]) != [] {
      NarrowedIgnoresMask(rx, org.value, Rewritten(old(focus[..])), old(mask[..]), Rewritten(old(mask[..])), a);
      NarrowedIgnoresMask(rx, req.value, Rewritten(Rewritten(old(focus[..]))), old(mask[..]),
                          Rewritten(Rewritten(old(mask[..]))), b);
    }
  }

  /** With focus keys the mask keys play no part. */
  lemma NarrowedIgnoresMask(rx: Regex, n: Node, focus: seq<string>, mask: seq<string>, mask': seq<string>, r: Node)
    requires focus != []
    ensures Narrowed(rx, n, focus, mask, r) <==> Narrowed(rx, n, focus, mask', r)
  {}

  lemma DiffNone(pr: Printer, m1: Flat, m2: Flat, dr: Option<seq<Difference>>)
    requires IsDiff(pr, m1, m2, dr)
    ensures dr.None? <==> m1 == m2
  {}

  // ---- What a match means ----

  predicate Holds(m: Flat, k: string, v: Scalar) { k in m && m[k] == v }

  /** The leaf `v` shows under key `k` once everything `listed` is masked. */
  ghost predicate Visible(n: Node, listed: string -> bool, k: string, v: Scalar) {
    exists p :: HasLeaf(n, p, v) && Unlisted("", p, listed) && Render(p) == k
  }

  /** The leaf `v` of the masked tree shows under key `k`: slice elements under the indices they
      have once the listed ones are gone. */
  ghost predicate Shown(n: Node, listed: string -> bool, k: string, v: Scalar) {
    exists p :: Origin(n, "", listed, p).Some? && HasLeaf(n, Origin(n, "", listed, p).value, v) && Render(p) == k
  }

  lemma ShownLeaf(n: Node, listed: string -> bool, p: Path, v: Scalar)
    ensures HasLeaf(RecursiveMask(n, "", listed), p, v) <==>
            Origin(n, "", listed, p).Some? && HasLeaf(n, Origin(n, "", listed, p).value, v)
  {
    hide Origin, RecursiveMask, Unlisted;
    MaskAt(n, "", listed, p);
    if Origin(n, "", listed, p).Some? {
      var q := Origin(n, "", listed, p).value;
      MaskKeepsKind(At(n, q).value, RenderFrom("", q), listed);
    }
  }

  /** A masked tree flattens to what it shows. */
  lemma ShownFlat(n: Node, listed: string -> bool, m: Flat)
    requires DistinctLeaves(RecursiveMask(n, "", listed)) && RavelOf(RecursiveMask(n, "", listed), m)
    ensures forall k, v :: Holds(m, k, v) <==> Shown(n, listed, k, v)
  {
    hide Origin, RecursiveMask, HasLeaf, RenderFrom, DistinctLeaves, RavelOf;
    var masked := RecursiveMask(n, "", listed);
    RavelExact(masked, m);
    forall k, v ensures FromLeaf(masked, "", k, v) <==> Shown(n, listed, k, v) { ShownFrom(n, listed, k, v); }
  }

  /** While no shown slice element comes after a masked one, keys stay as they are. */
  lemma ShownIsVisible(n: Node, listed: string -> bool, k: string, v: Scalar)
    requires InPlace(n, "", listed)
    ensures Shown(n, listed, k, v) <==> Visible(n, listed, k, v)
  {
    hide HasLeaf, RenderFrom, InPlace, Unlisted, RecursiveMask, Origin;
    StaysExactly(n, "", listed);
    ShownFrom(n, listed, k, v);
    if Shown(n, listed, k, v) {
      var p :| HasLeaf(RecursiveMask(n, "", listed), p, v) && RenderFrom("", p) == k;
      assert HasLeaf(n, p, v) && Unlisted("", p, listed) && Render(p) == k;
    }
    if Visible(n, listed, k, v) {
      var p :| HasLeaf(n, p, v) && Unlisted("", p, listed) && Render(p) == k;
      assert HasLeaf(RecursiveMask(n, "", listed), p, v) && RenderFrom("", p) == k;
    }
  }

  lemma DistinctWhenMasked(n: Node, listed: string -> bool)
    requires InPlace(n, "", listed) && DistinctLeaves(n)
    ensures DistinctLeaves(RecursiveMask(n, "", listed))
  {
    hide InPlace, RecursiveMask, Unlisted, HasLeaf, RenderFrom;
    StaysExactly(n, "", listed);
  }

  lemma SameEntries(m1: Flat, m2: Flat)
    ensures m1 == m2 <==> forall k, v :: Holds(m1, k, v) <==> Holds(m2, k, v)
  {
    if forall k, v :: Holds(m1, k, v) <==> Holds(m2, k, v) {
      forall k | k in m1 ensures k in m2 && m2[k] == m1[k] { assert Holds(m1, k, m1[k]); }
      forall k | k in m2 ensures k in m1 { assert Holds(m2, k, m2[k]); }
    }
  }

  /** The rules by which a masked comparison masks its two objects. */
  ghost function OrgRule(rx: Regex, org: Node, mask: seq<string>): string -> bool
    requires AllStop(org, Rewritten(mask))
  {
    ListedBy(rx, Concrete(org, Rewritten(mask)))
  }

  ghost function ReqRule(rx: Regex, req: Node, mask: seq<string>): string -> bool
    requires AllStop(req, Rewritten(Rewritten(mask)))
  {
    ListedBy(rx, Concrete(req, Rewritten(Rewritten(mask))))
  }

  lemma MaskedSides(rx: Regex, org: Node, req: Node, mask: seq<string>, s: Sides)
    requires Compared(rx, org, req, [], mask, s)
    ensures AllStop(org, Rewritten(mask)) && AllStop(req, Rewritten(Rewritten(mask)))
    ensures s.org == RecursiveMask(org, "", OrgRule(rx, org, mask)) &&
            s.req == RecursiveMask(req, "", ReqRule(rx, req, mask))
  {
    assert Rewritten([]) == [];
  }

  /** Masked comparison, for every mask, wildcards and list elements included: it succeeds exactly
      when the two objects show the same values under the same keys. */
  lemma MaskedMatchShown(rx: Regex, org: Node, req: Node, mask: seq<string>, s: Sides)
    requires Compared(rx, org, req, [], mask, s) && DistinctLeaves(s.org) && DistinctLeaves(s.req)
    ensures AllStop(org, Rewritten(mask)) && AllStop(req, Rewritten(Rewritten(mask)))
    ensures s.m1 == s.m2 <==>
            forall k, v :: Shown(org, OrgRule(rx, org, mask), k, v) <==> Shown(req, ReqRule(rx, req, mask), k, v)
  {
    hide DistinctLeaves, Narrowed, RavelOf, Shown, OrgRule, ReqRule;
    MaskedSides(rx, org, req, mask, s);
    ShownFlat(org, OrgRule(rx, org, mask), s.m1);
    ShownFlat(req, ReqRule(rx, req, mask), s.m2);
    SameEntries(s.m1, s.m2);
  }

  /** Whatever is masked and however keys are written, a match means something shows under the
      same keys in both objects, and a common value under each. */
  lemma MaskedMatchCommon(rx: Regex, org: Node, req: Node, mask: seq<string>, s: Sides)
    requires Compared(rx, org, req, [], mask, s) && s.m1 == s.m2
    ensures AllStop(org, Rewritten(mask)) && AllStop(req, Rewritten(Rewritten(mask)))
    ensures forall k, v :: Shown(org, OrgRule(rx, org, mask), k, v) || Shown(req, ReqRule(rx, req, mask), k, v) ==>
                             exists w :: Shown(org, OrgRule(rx, org, mask), k, w) &&
                                         Shown(req, ReqRule(rx, req, mask), k, w)
  {
    hide Narrowed, RavelOf, Shown, OrgRule, ReqRule, Holds;
    MaskedSides(rx, org, req, mask, s);
    var l1, l2 := OrgRule(rx, org, mask), ReqRule(rx, req, mask);
    ShownHeld(org, l1, s.m1);
    ShownHeld(req, l2, s.m2);
    forall k, v | Shown(org, l1, k, v) || Shown(req, l2, k, v)
      ensures exists w :: Shown(org, l1, k, w) && Shown(req, l2, k, w)
    {
      assert k in s.m1;
      assert Shown(org, l1, k, s.m1[k]) && Shown(req, l2, k, s.m2[k]);
    }
  }

  /** A masked tree flattens to its keys, each with a value it shows there. */
  lemma ShownHeld(n: Node, listed: string -> bool, m: Flat)
    requires RavelOf(RecursiveMask(n, "", listed), m)
    ensures forall k, v :: Shown(n, listed, k, v) ==> k in m
    ensures forall k :: k in m ==> Shown(n, listed, k, m[k])
  {
    hide Origin, RecursiveMask, HasLeaf, RenderFrom;
    var masked := RecursiveMask(n, "", listed);
    forall k, v ensures FromLeaf(masked, "", k, v) <==> Shown(n, listed, k, v) { ShownFrom(n, listed, k, v); }
  }

  lemma ShownFrom(n: Node, listed: string -> bool, k: string, v: Scalar)
    ensures FromLeaf(RecursiveMask(n, "", listed), "", k, v) <==> Shown(n, listed, k, v)
  {
    hide Origin, RecursiveMask, HasLeaf, RenderFrom;
    var masked := RecursiveMask(n, "", listed);
    if FromLeaf(masked, "", k, v) {
      var p :| HasLeaf(masked, p, v) && RenderFrom("", p) == k;
      ShownLeaf(n, listed, p, v);
      assert Render(p) == k;
    }
    if Shown(n, listed, k, v) {
      var p :| Origin(n, "", listed, p).Some? && HasLeaf(n, Origin(n, "", listed, p).value, v) && Render(p) == k;
      ShownLeaf(n, listed, p, v);
      assert RenderFrom("", p) == k;
    }
  }

  /** In particular for all objects with plain leaves. */
  lemma MaskedMatchPlain(rx: Regex, org: Node, req: Node, mask: seq<string>, s: Sides)
    requires Compared(rx, org, req, [], mask, s) && PlainLeaves(org) && PlainLeaves(req)
    ensures AllStop(org, Rewritten(mask)) && AllStop(req, Rewritten(Rewritten(mask)))
    ensures s.m1 == s.m2 <==>
            forall k, v :: Shown(org, OrgRule(rx, org, mask), k, v) <==> Shown(req, ReqRule(rx, req, mask), k, v)
  {
    hide PlainLeaves, Compared, Shown, OrgRule, ReqRule, AllStop, RecursiveMask;
    MaskedSides(rx, org, req, mask, s);
    PlainMaskedDistinct(org, OrgRule(rx, org, mask));
    PlainMaskedDistinct(req, ReqRule(rx, req, mask));
    MaskedMatchShown(rx, org, req, mask, s);
  }

  /** Where no shown slice element comes after a masked one: the same values under the same keys of
      the objects themselves, everything under a masked key left aside. */
  lemma MaskedMatchMeaning(rx: Regex, org: Node, req: Node, mask: seq<string>, s: Sides)
    requires Compared(rx, org, req, [], mask, s) && DistinctLeaves(org) && DistinctLeaves(req)
    requires AllStop(org, Rewritten(mask)) && AllStop(req, Rewritten(Rewritten(mask)))
    requires InPlace(org, "", OrgRule(rx, org, mask)) && InPlace(req, "", ReqRule(rx, req, mask))
    ensures s.m1 == s.m2 <==>
            forall k, v :: Visible(org, OrgRule(rx, org, mask), k, v) <==> Visible(req, ReqRule(rx, req, mask), k, v)
  {
    hide DistinctLeaves, InPlace, Narrowed, RavelOf, Visible, Shown, OrgRule, ReqRule;
    var l1, l2 := OrgRule(rx, org, mask), ReqRule(rx, req, mask);
    MaskedSides(rx, org, req, mask, s);
    DistinctWhenMasked(org, l1);
    DistinctWhenMasked(req, l2);
    MaskedMatchShown(rx, org, req, mask, s);
    forall k, v
      ensures Shown(org, l1, k, v) <==> Visible(org, l1, k, v)
      ensures Shown(req, l2, k, v) <==> Visible(req, l2, k, v)
    {
      ShownIsVisible(org, l1, k, v);
      ShownIsVisible(req, l2, k, v);
    }
  }

  /** Stable keys without "[]" mask both objects with one and the same rule. */
  lemma SameKeysBothSides(rx: Regex, org: Node, req: Node, mask: seq<string>)
    requires (forall i :: 0 <= i < |mask| ==> StableKey(mask[i])) && NoWildcard(Rewritten(mask))
    ensures AllStop(org, Rewritten(mask)) && AllStop(req, Rewritten(Rewritten(mask)))
    ensures OrgRule(rx, org, mask) == ReqRule(rx, req, mask) == ListedBy(rx, Rewritten(mask))
  {
    hide StableKey, ListedBy, ParseConcatKey;
    RewriteTwice(mask);
    ConcreteNoWildcard(org, Rewritten(mask));
    ConcreteNoWildcard(req, Rewritten(mask));
  }

  /** Then the comparison speaks of one rule: the same values under the same unmasked keys. */
  lemma MaskedMatchOneRule(rx: Regex, org: Node, req: Node, mask: seq<string>, s: Sides)
    requires Compared(rx, org, req, [], mask, s) && DistinctLeaves(org) && DistinctLeaves(req)
    requires (forall i :: 0 <= i < |mask| ==> StableKey(mask[i])) && NoWildcard(Rewritten(mask))
    requires InPlace(org, "", ListedBy(rx, Rewritten(mask))) && InPlace(req, "", ListedBy(rx, Rewritten(mask)))
    ensures s.m1 == s.m2 <==>
            forall k, v :: Visible(org, ListedBy(rx, Rewritten(mask)), k, v) <==>
                Visible(req, ListedBy(rx, Rewritten(mask)), k, v)
  {
    hide StableKey, NoWildcard, DistinctLeaves, InPlace, Compared, Visible, ListedBy, OrgRule, ReqRule;
    SameKeysBothSides(rx, org, req, mask);
    MaskedMatchMeaning(rx, org, req, mask, s);
  }

  /** On plain objects whose slices lose no element in front of a kept one, a focused object
      flattens to its values under the keys that have a focus key as prefix. */
  lemma FocusedFlat(rx: Regex, n: Node, focus: seq<string>, mask: seq<string>, r: Node, m: Flat)
    requires focus != [] && Narrowed(rx, n, focus, mask, r) && RavelOf(r, m) && AllStop(n, focus)
    requires Focusable(n, Concrete(n, focus))
    ensures forall k, v :: Holds(m, k, v) <==> FromLeaf(n, "", k, v) && Kept(Concrete(n, focus), k)
  {
    hide PlainChars, KeepsPlaces, Drops, Kept, InPlace, RavelOf, Concrete, FromLeaf, AllStop;
    var all, dropped :| FocusedBy(rx, n, focus, r, all, dropped);
    KeepsPlacesMeaning(rx, n, all, Concrete(n, focus), dropped);
    ExtractRestricts(rx, n, all, Concrete(n, focus), dropped, m);
    DistinctPathsLeaves(n);
    RavelExact(n, all);
    forall k, v ensures Holds(m, k, v) <==> FromLeaf(n, "", k, v) && Kept(Concrete(n, focus), k) {
      assert (k in all && all[k] == v) <==> FromLeaf(n, "", k, v);
    }
  }

  /** Plain characters, distinct paths, and slices that lose no element in front of a kept one. */
  ghost predicate Focusable(n: Node, filters: seq<string>) {
    PlainChars(n) && DistinctPaths(n) && !n.ValueNode? && KeepsPlaces(n, filters)
  }

  lemma FocusedStops(rx: Regex, org: Node, req: Node, focus: seq<string>, mask: seq<string>, s: Sides)
    requires focus != [] && Compared(rx, org, req, focus, mask, s)
    ensures AllStop(org, Rewritten(focus)) && AllStop(req, Rewritten(Rewritten(focus)))
  {
    hide AllStop, RavelOf, Drops;
    assert |Rewritten(focus)| == |Rewritten(Rewritten(focus))| == |focus|;
  }

  /** Focused comparison succeeds exactly when the objects hold the same values under the
      same focused keys. */
  lemma FocusedMatchMeaning(rx: Regex, org: Node, req: Node, focus: seq<string>, mask: seq<string>, s: Sides)
    requires focus != [] && Compared(rx, org, req, focus, mask, s)
    requires AllStop(org, Rewritten(focus)) && AllStop(req, Rewritten(Rewritten(focus)))
    requires Focusable(org, Concrete(org, Rewritten(focus))) &&
             Focusable(req, Concrete(req, Rewritten(Rewritten(focus))))
    ensures s.m1 == s.m2 <==>
            forall k, v :: (FromLeaf(org, "", k, v) && Kept(Concrete(org, Rewritten(focus)), k)) <==>
                           (FromLeaf(req, "", k, v) && Kept(Concrete(req, Rewritten(Rewritten(focus))), k))
  {
    hide Focusable, Narrowed, RavelOf, FromLeaf, Kept, Concrete, AllStop;
    FocusedFlat(rx, org, Rewritten(focus), Rewritten(mask), s.org, s.m1);
    FocusedFlat(rx, req, Rewritten(Rewritten(focus)), Rewritten(Rewritten(mask)), s.req, s.m2);
    SameEntries(s.m1, s.m2);
  }

  /** Slice-free objects have no slice to take apart. */
  lemma SliceFreeFocusable(n: Node, filters: seq<string>)
    requires PlainChars(n) && DistinctPaths(n) && SliceFree(n) && !n.ValueNode?
    ensures Focusable(n, filters)
  {
    hide PlainChars, DistinctPaths, SliceFree, RavelOf, NoListedElement, InPlace;
    forall m | RavelOf(n, m) ensures InPlace(n, "", DroppedBy(m, filters)) {
      SliceFreeNoElement(n, "", DroppedBy(m, filters));
      NothingMoves(n, "", DroppedBy(m, filters));
    }
  }

  /** Stable focus keys without "[]" focus both objects on one and the same prefixes. */
  lemma FocusedMatchOneRule(rx: Regex, org: Node, req: Node, focus: seq<string>, mask: seq<string>, s: Sides)
    requires focus != [] && Compared(rx, org, req, focus, mask, s)
    requires (forall i :: 0 <= i < |focus| ==> StableKey(focus[i])) && NoWildcard(Rewritten(focus))
    requires Focusable(org, Rewritten(focus)) && Focusable(req, Rewritten(focus))
    ensures s.m1 == s.m2 <==>
            forall k, v :: Kept(Rewritten(focus), k) ==> (FromLeaf(org, "", k, v) <==> FromLeaf(req, "", k, v))
  {
    hide StableKey, Focusable, Compared, FromLeaf, Kept, Concrete, AllStop, ParseConcatKey;
    RewriteTwice(focus);
    ConcreteNoWildcard(org, Rewritten(focus));
    ConcreteNoWildcard(req, Rewritten(focus));
    FocusedMatchMeaning(rx, org, req, focus, mask, s);
  }
}
