/** Matching a request with a signed message: `MatchMessage` and `IsPatchWithScopeKey` of
    `shield/pkg/shield/signVerifier.go`.  Parsing and the API server's dry run are parameters. */
module Matching {
  import opened Text
  import Tree
  import Keys
  import W = Wildcards
  import Mask
  import Diff
  import Extract
  import opened Compare
  import opened MaskLists

  /** A raw object or message, as bytes. */
  type Doc = string

  datatype SignType = ResourceSig | ApplyingResourceSig | PatchSig | HelmSig

  datatype Kube = Kube(
    rx: Mask.Regex,
    printer: Diff.Printer,
    yaml: Doc -> Option<Tree.Node>,                      // a message or simulated object, parsed
    json: Doc -> Option<Tree.Node>,                      // a requested object, parsed
    maskNamespace: Doc -> Doc,
    dryRunCreate: Doc -> Option<Doc>,
    applyPatch: (Doc, Doc) -> Option<Doc>,               // message, requested object
    mergePatch: (Doc, Doc) -> Option<Doc>)               // requested object, message

  datatype Request = Request(
    operation: string, namespace: string, scope: string, kind: string, obj: Doc, oldObj: Doc, oldVerified: bool)

  /** What the profile asks for: the protected attributes, or else the ignored ones. */
  datatype Attrs = Attrs(protect: seq<string>, ignore: seq<string>)

  // ---- MatchMessage ----

  function MaskKeys(attrs: Attrs): seq<string> { MessageMask() + (if attrs.protect == [] then attrs.ignore else []) }

  function DryRunMaskKeys(attrs: Attrs): seq<string> { MaskKeys(attrs) + ["metadata.name", "status"] }

  /** One comparison of the request with an object, and what it rests on. */
  datatype Trial = Trial(org: Option<Tree.Node>, focus: seq<string>, mask: seq<string>, sides: Sides, matched: bool)

  /** The trial compared as `matchContents` does. */
  ghost predicate TrialOf(kube: Kube, req: Request, t: Trial) {
    var obj := kube.json(req.obj);
    if t.org.None? || obj.None? then !t.matched
    else
      && Compared(kube.rx, t.org.value, obj.value, t.focus, t.mask, t.sides)
      && (t.matched <==> t.sides.m1 == t.sides.m2)
  }

  /** A comparison that took place has rewritten the focus keys twice. */
  function NextFocus(kube: Kube, req: Request, t: Trial): seq<string> {
    if t.org.None? || kube.json(req.obj).None? then t.focus else W.Rewritten(W.Rewritten(t.focus))
  }

  function FocusAt(focus: seq<string>, n: nat): seq<string> {
    if n == 0 then focus else W.Rewritten(W.Rewritten(FocusAt(focus, n - 1)))
  }

  /** The comparison of the request with this document ends. */
  ghost predicate ComparisonEnds(kube: Kube, doc: Doc, req: Request, focus: seq<string>, mask: seq<string>) {
    kube.yaml(doc).Some? && kube.json(req.obj).Some? ==>
      && CanNarrow(kube.yaml(doc).value, W.Rewritten(focus), W.Rewritten(mask))
      && CanNarrow(kube.json(req.obj).value, W.Rewritten(W.Rewritten(focus)), W.Rewritten(W.Rewritten(mask)))
  }

  method Try(kube: Kube, doc: Doc, req: Request, focus: array<string>, maskKeys: seq<string>,
             patterns: seq<Diff.Difference>)
    returns (matched: bool, ghost t: Trial)
    requires ComparisonEnds(kube, doc, req, focus[..], maskKeys)
    modifies focus
    ensures TrialOf(kube, req, t) && t.matched == matched
    ensures t.org == kube.yaml(doc) && t.focus == old(focus[..]) && t.mask == maskKeys
    ensures focus[..] == NextFocus(kube, req, t)
  {
    hide CanNarrow, Compared;
    var mask := new string[|maskKeys|](i requires 0 <= i < |maskKeys| => maskKeys[i]);
    assert mask[..] == maskKeys;
    ghost var s;
    ghost var was := focus[..];
    matched, s := MatchContents(kube.rx, kube.printer, kube.yaml(doc), kube.json(req.obj), focus, mask, patterns);
    t := Trial(kube.yaml(doc), was, maskKeys, s, matched);
  }

  function Simulated(kube: Kube, doc: Option<Doc>): Option<Doc> {
    if doc.None? then None else kube.dryRunCreate(kube.maskNamespace(doc.value))
  }

  /** The objects a message may stand for: itself, what the API server would make of creating it,
      of applying it, and, for a patch, of merging it into the request. */
  function CaseDoc(kube: Kube, message: Doc, obj: Doc, i: nat): Option<Doc> {
    match i
    case 0 => Some(message)
    case 1 => Simulated(kube, Some(message))
    case 2 => Simulated(kube, kube.applyPatch(message, obj))
    case _ => Simulated(kube, kube.mergePatch(obj, message))
  }

  function CaseMask(attrs: Attrs, i: nat): seq<string> { if i == 0 then MaskKeys(attrs) else DryRunMaskKeys(attrs) }

  function CaseCount(signType: SignType): nat { if signType == PatchSig then 4 else 3 }

  predicate NoDryRun(req: Request) { req.scope == "Cluster" && req.kind != "CustomResourceDefinition" }

  /** The comparison with the document of case `i`, if the search can get there, ends. */
  ghost predicate CaseEnds(kube: Kube, message: Doc, req: Request, attrs: Attrs, signType: SignType, i: nat, n: nat) {
    var doc := CaseDoc(kube, message, req.obj, i);
    i < CaseCount(signType) && (i > 0 ==> !NoDryRun(req)) && doc.Some? ==>
      ComparisonEnds(kube, doc.value, req, FocusAt(attrs.protect, n), CaseMask(attrs, i))
  }

  /** All comparisons of a search end. */
  ghost predicate MatchingEnds(kube: Kube, message: Doc, req: Request, attrs: Attrs, signType: SignType) {
    forall i: nat, n: nat :: n <= i ==> CaseEnds(kube, message, req, attrs, signType, i, n)
  }

  /** The trials that were made, in order, each on the focus keys the one before left behind: none
      if the message does not parse; more than one only where a dry run is allowed; up to the
      first that matches, or that cannot be simulated. */
  ghost predicate Searched(kube: Kube, message: Doc, req: Request, attrs: Attrs, signType: SignType,
                           trials: seq<Trial>, matched: bool) {
    && (trials == [] <==> kube.yaml(message).None?) && |trials| <= CaseCount(signType)
    && (forall i :: 0 <= i < |trials| ==> TrialAt(kube, message, req, attrs, trials, i))
    && (forall i :: 0 <= i < |trials| - 1 ==> !trials[i].matched)
    && (|trials| > 1 ==> !NoDryRun(req))
    && (matched <==> trials != [] && trials[|trials| - 1].matched)
    && (!matched && 0 < |trials| < CaseCount(signType) ==>
          NoDryRun(req) || CaseDoc(kube, message, req.obj, |trials|).None?)
  }

  /** The search ends without a match. */
  ghost predicate SearchFails(kube: Kube, message: Doc, req: Request, attrs: Attrs, signType: SignType) {
    exists trials :: Searched(kube, message, req, attrs, signType, trials, false)
  }

  ghost predicate TrialAt(kube: Kube, message: Doc, req: Request, attrs: Attrs, trials: seq<Trial>, i: nat)
    requires i < |trials|
  {
    var t, doc := trials[i], CaseDoc(kube, message, req.obj, i);
    && doc.Some? && t.org == kube.yaml(doc.value) && t.mask == CaseMask(attrs, i)
    && t.focus == (if i == 0 then attrs.protect else NextFocus(kube, req, trials[i - 1]))
    && TrialOf(kube, req, t)
  }

  /** The trials so far, of which at most the last one matched, and the focus keys they left. */
  ghost predicate SoFar(kube: Kube, message: Doc, req: Request, attrs: Attrs, trials: seq<Trial>, focus: seq<string>,
                        matched: bool) {
    && (forall i :: 0 <= i < |trials| ==> TrialAt(kube, message, req, attrs, trials, i))
    && (forall i :: 0 <= i < |trials| - 1 ==> !trials[i].matched)
    && (matched <==> trials != [] && trials[|trials| - 1].matched)
    && focus == (if trials == [] then attrs.protect else NextFocus(kube, req, trials[|trials| - 1]))
    && exists n: nat :: n <= |trials| && focus == FocusAt(attrs.protect, n)
  }

  method TryNext(kube: Kube, message: Doc, doc: Doc, req: Request, attrs: Attrs, ghost signType: SignType,
                 focus: array<string>, maskKeys: seq<string>, patterns: seq<Diff.Difference>,
                 ghost trials: seq<Trial>)
    returns (matched: bool, ghost trials': seq<Trial>)
    requires MatchingEnds(kube, message, req, attrs, signType) && |trials| < CaseCount(signType)
    requires SoFar(kube, message, req, attrs, trials, focus[..], false) && (trials != [] ==> !NoDryRun(req))
    requires CaseDoc(kube, message, req.obj, |trials|) == Some(doc) && maskKeys == CaseMask(attrs, |trials|)
    modifies focus
    ensures |trials'| == |trials| + 1 && SoFar(kube, message, req, attrs, trials', focus[..], matched)
  {
    hide ComparisonEnds, TrialOf, MaskKeys, DryRunMaskKeys, CaseDoc, CaseMask, NextFocus, SoFar, MatchingEnds;
    SoFarEnds(kube, message, req, attrs, signType, trials, focus[..]);
    ghost var t;
    matched, t := Try(kube, doc, req, focus, maskKeys, patterns);
    SoFarExtends(kube, message, req, attrs, trials, t);
    trials' := trials + [t];
  }

  lemma SoFarEnds(kube: Kube, message: Doc, req: Request, attrs: Attrs, signType: SignType, trials: seq<Trial>,
                  focus: seq<string>)
    requires MatchingEnds(kube, message, req, attrs, signType) && |trials| < CaseCount(signType)
    requires SoFar(kube, message, req, attrs, trials, focus, false) && (trials != [] ==> !NoDryRun(req))
    ensures var doc := CaseDoc(kube, message, req.obj, |trials|);
            doc.Some? ==> ComparisonEnds(kube, doc.value, req, focus, CaseMask(attrs, |trials|))
  {
    hide ComparisonEnds, MaskKeys, DryRunMaskKeys, TrialAt, CaseDoc, NoDryRun;
    var n: nat :| n <= |trials| && focus == FocusAt(attrs.protect, n);
    assert CaseEnds(kube, message, req, attrs, signType, |trials|, n);
  }

  lemma SoFarExtends(kube: Kube, message: Doc, req: Request, attrs: Attrs, trials: seq<Trial>, t: Trial)
    requires SoFar(kube, message, req, attrs, trials, t.focus, false) && TrialOf(kube, req, t)
    requires var doc := CaseDoc(kube, message, req.obj, |trials|); doc.Some? && t.org == kube.yaml(doc.value)
    requires t.mask == CaseMask(attrs, |trials|)
    ensures SoFar(kube, message, req, attrs, trials + [t], NextFocus(kube, req, t), t.matched)
  {
    hide TrialAt, NextFocus, FocusAt, CaseDoc, CaseMask, TrialOf;
    var n: nat :| n <= |trials| && t.focus == FocusAt(attrs.protect, n);
    var n' := FocusNext(kube, req, attrs, t, n);
    var trials' := trials + [t];
    forall i | 0 <= i < |trials'| ensures TrialAt(kube, message, req, attrs, trials', i) {
      if i < |trials| {
        TrialAtKept(kube, message, req, attrs, trials, t, i);
      } else {
        TrialAtLast(kube, message, req, attrs, trials, t);
      }
    }
  }

  lemma TrialAtKept(kube: Kube, message: Doc, req: Request, attrs: Attrs, trials: seq<Trial>, t: Trial, i: nat)
    requires i < |trials| && TrialAt(kube, message, req, attrs, trials, i)
    ensures TrialAt(kube, message, req, attrs, trials + [t], i)
  {}

  lemma TrialAtLast(kube: Kube, message: Doc, req: Request, attrs: Attrs, trials: seq<Trial>, t: Trial)
    requires var doc := CaseDoc(kube, message, req.obj, |trials|); doc.Some? && t.org == kube.yaml(doc.value)
    requires t.mask == CaseMask(attrs, |trials|) && TrialOf(kube, req, t)
    requires t.focus == if trials == [] then attrs.protect else NextFocus(kube, req, trials[|trials| - 1])
    ensures TrialAt(kube, message, req, attrs, trials + [t], |trials|)
  {}

  /** The common part of the dry-run cases: what cannot be simulated ends the search. */
  method TrySimulated(kube: Kube, message: Doc, doc: Option<Doc>, req: Request, attrs: Attrs,
                      ghost signType: SignType, focus: array<string>, patterns: seq<Diff.Difference>,
                      ghost trials: seq<Trial>)
    returns (stop: bool, matched: bool, ghost trials': seq<Trial>)
    requires MatchingEnds(kube, message, req, attrs, signType) && 0 < |trials| < CaseCount(signType)
    requires SoFar(kube, message, req, attrs, trials, focus[..], false) && !NoDryRun(req)
    requires CaseDoc(kube, message, req.obj, |trials|) == Simulated(kube, doc)
    modifies focus
    ensures stop <==> CaseDoc(kube, message, req.obj, |trials|).None?
    ensures if stop then trials' == trials && !matched else |trials'| == |trials| + 1
    ensures SoFar(kube, message, req, attrs, trials', focus[..], matched)
  {
    hide SoFar, MatchingEnds, MaskKeys, DryRunMaskKeys, CaseDoc;
    if doc.None? { return true, false, trials; }
    var sim := kube.dryRunCreate(kube.maskNamespace(doc.value));
    if sim.None? { return true, false, trials; }
    stop := false;
    matched, trials' :=
      TryNext(kube, message, sim.value, req, attrs, signType, focus, DryRunMaskKeys(attrs), patterns, trials);
  }

  lemma SearchDone(kube: Kube, message: Doc, req: Request, attrs: Attrs, signType: SignType, trials: seq<Trial>,
                   focus: seq<string>, matched: bool)
    requires SoFar(kube, message, req, attrs, trials, focus, matched) && 0 < |trials| <= CaseCount(signType)
    requires kube.yaml(message).Some? && (|trials| > 1 ==> !NoDryRun(req))
    requires !matched && |trials| < CaseCount(signType) ==>
               NoDryRun(req) || CaseDoc(kube, message, req.obj, |trials|).None?
    ensures Searched(kube, message, req, attrs, signType, trials, matched)
  {}

  method MatchMessage(kube: Kube, message: Doc, req: Request, attrs: Attrs, signType: SignType,
                      patterns: seq<Diff.Difference>)
    returns (matched: bool, ghost trials: seq<Trial>)
    requires MatchingEnds(kube, message, req, attrs, signType)
    ensures Searched(kube, message, req, attrs, signType, trials, matched)
    ensures if matched then MessageAgrees(kube, message, req, attrs, signType)
            else SearchFails(kube, message, req, attrs, signType)
  {
    hide SoFar, MaskKeys, DryRunMaskKeys, MatchingEnds, Searched, MessageAgrees;
    trials := [];
    NothingTried(kube, message, req, attrs, signType);
    if kube.yaml(message).None? { return false, trials; }
    var focus := new string[|attrs.protect|](i requires 0 <= i < |attrs.protect| => attrs.protect[i]);
    assert focus[..] == attrs.protect;
    matched, trials := TryNext(kube, message, message, req, attrs, signType, focus, MaskKeys(attrs), patterns, trials);
    if req.scope == "Cluster" && req.kind != "CustomResourceDefinition" {
      SearchDone(kube, message, req, attrs, signType, trials, focus[..], matched);
      if matched { MatchAgrees(kube, message, req, attrs, signType, trials); }
      return;
    }
    var stop := false;
    if !matched && !stop {
      stop, matched, trials :=
        TrySimulated(kube, message, Some(message), req, attrs, signType, focus, patterns, trials);
    }
    if !matched && !stop {
      var patched := kube.applyPatch(message, req.obj);
      stop, matched, trials := TrySimulated(kube, message, patched, req, attrs, signType, focus, patterns, trials);
    }
    if !matched && !stop && signType == PatchSig {
      var merged := kube.mergePatch(req.obj, message);
      stop, matched, trials := TrySimulated(kube, message, merged, req, attrs, signType, focus, patterns, trials);
    }
    SearchDone(kube, message, req, attrs, signType, trials, focus[..], matched);
    if matched { MatchAgrees(kube, message, req, attrs, signType, trials); }
  }

  lemma NothingTried(kube: Kube, message: Doc, req: Request, attrs: Attrs, signType: SignType)
    ensures SoFar(kube, message, req, attrs, [], attrs.protect, false)
    ensures kube.yaml(message).None? ==> Searched(kube, message, req, attrs, signType, [], false)
  {
    assert FocusAt(attrs.protect, 0) == attrs.protect;
  }

  // ---- Scoped signatures ----

  function WithoutNewlines(s: string): string {
    if s == "" then "" else (if s[0] == '\n' then "" else [s[0]]) + WithoutNewlines(s[1..])
  }

  function TrimBlanks(s: string): string
    decreases |s|
  {
    if s != "" && s[0] == ' ' then TrimBlanks(s[1..])
    else if s != "" && s[|s| - 1] == ' ' then TrimBlanks(s[..|s| - 1])
    else s
  }

  function TrimEach(parts: seq<string>): (r: seq<string>)
    ensures |r| == |parts| && forall i :: 0 <= i < |r| ==> r[i] == TrimBlanks(parts[i])
  {
    seq(|parts|, i requires 0 <= i < |parts| => TrimBlanks(parts[i]))
  }

  function SplitCommaSeparatedKeys(key: string): seq<string> { TrimEach(Split(WithoutNewlines(key), ',')) }

  lemma {:induction false} BlanksTrimmed(a: string, x: string, b: string)
    requires (forall i :: 0 <= i < |a| ==> a[i] == ' ') && (forall i :: 0 <= i < |b| ==> b[i] == ' ')
    requires x != "" && x[0] != ' ' && x[|x| - 1] != ' '
    ensures TrimBlanks(a + x + b) == x
    decreases |a| + |b|
  {
    var s := a + x + b;
    if a != "" {
      assert s[1..] == a[1..] + x + b && s[0] == ' ';
      BlanksTrimmed(a[1..], x, b);
    } else if b != "" {
      assert s[..|s| - 1] == a + x + b[..|b| - 1] && s[|s| - 1] == ' ' && s[0] == x[0];
      BlanksTrimmed(a, x, b[..|b| - 1]);
    } else {
      assert s == x;
    }
  }

  lemma {:induction false} NewlinesGone(s: string)
    ensures '\n' !in s ==> WithoutNewlines(s) == s
    ensures '\n' !in WithoutNewlines(s)
  {
    if s != "" { NewlinesGone(s[1..]); }
  }

  lemma {:induction false} NewlineDropped(a: string, b: string)
    requires '\n' !in a
    ensures WithoutNewlines(a + "\n" + b) == a + WithoutNewlines(b)
  {
    var s := a + "\n" + b;
    if a == "" {
      assert s[1..] == b;
    } else {
      assert s[1..] == a[1..] + "\n" + b && s[0] == a[0];
      NewlineDropped(a[1..], b);
    }
  }

  predicate PlainScopeKey(k: string) {
    k != "" && ',' !in k && '\n' !in k && k[0] != ' ' && k[|k| - 1] != ' '
  }

  lemma {:induction false} JoinAvoidsNewline(keys: seq<string>)
    requires forall i :: 0 <= i < |keys| ==> PlainScopeKey(keys[i])
    ensures '\n' !in Join(keys, ',')
  {
    if |keys| > 1 { JoinAvoidsNewline(keys[1..]); }
  }

  /** A scope written as a comma list is read as its keys. */
  lemma ScopeKeysRoundTrip(keys: seq<string>)
    requires keys != [] && forall i :: 0 <= i < |keys| ==> PlainScopeKey(keys[i])
    ensures SplitCommaSeparatedKeys(Join(keys, ',')) == keys
  {
    hide Split, Join, TrimEach, WithoutNewlines;
    JoinAvoidsNewline(keys);
    NewlinesGone(Join(keys, ','));
    NoCommas(keys);
    SplitJoin(keys, ',');
    PlainKeysTrim(keys);
  }

  lemma NoCommas(keys: seq<string>)
    requires forall i :: 0 <= i < |keys| ==> PlainScopeKey(keys[i])
    ensures forall i :: 0 <= i < |keys| ==> ',' !in keys[i]
  {}

  lemma PlainKeysTrim(keys: seq<string>)
    requires forall i :: 0 <= i < |keys| ==> PlainScopeKey(keys[i])
    ensures TrimEach(keys) == keys
  {
    hide TrimBlanks, PlainScopeKey;
    forall i | 0 <= i < |keys| ensures TrimBlanks(keys[i]) == keys[i] { PlainKeyTrims(keys[i]); }
  }

  lemma PlainKeyTrims(k: string)
    requires PlainScopeKey(k)
    ensures TrimBlanks(k) == k
  {
    BlanksTrimmed("", k, "");
    assert "" + k + "" == k;
  }

  function ScopeMask(scope: string): seq<string> { MessageMask() + SplitCommaSeparatedKeys(scope) }

  /** A scoped signature counts for a creation, and for an update of a verified object that
      matches the old one under the scope mask. */
  ghost predicate ScopeVerdict(kube: Kube, scope: string, req: Request, t: Trial, holds: bool) {
    if req.operation == "CREATE" then holds
    else if req.operation == "UPDATE" && req.oldVerified then
      && t.org == kube.yaml(req.oldObj) && t.focus == [] && t.mask == ScopeMask(scope) && TrialOf(kube, req, t)
      && (holds <==> t.matched)
    else !holds
  }

  const NO_TRIAL := Trial(None, [], [], Sides(Tree.NullNode, Tree.NullNode, map[], map[]), false)

  /** The request is no creation, and no update of a verified object that matches it. */
  ghost predicate ScopeFails(kube: Kube, scope: string, req: Request) {
    exists t :: ScopeVerdict(kube, scope, req, t, false)
  }

  /** The comparison that a scope calls for ends. */
  ghost predicate ScopeEnds(kube: Kube, scope: string, req: Request) {
    req.operation == "UPDATE" && req.oldVerified ==> ComparisonEnds(kube, req.oldObj, req, [], ScopeMask(scope))
  }

  /** `IsPatchWithScopeKey` and the conditions around it. */
  method CheckScope(kube: Kube, scope: string, req: Request) returns (holds: bool, ghost t: Trial)
    requires ScopeEnds(kube, scope, req)
    ensures ScopeVerdict(kube, scope, req, t, holds)
    ensures if holds then ScopeAgrees(kube, scope, req) else ScopeFails(kube, scope, req)
  {
    hide ComparisonEnds, Compared, ScopeMask;
    t := NO_TRIAL;
    holds := false;
    if req.operation == "CREATE" {
      holds := true;
    } else if req.operation == "UPDATE" {
      if req.oldVerified {
        var focus := new string[0];
        assert focus[..] == [];
        holds, t := Try(kube, req.oldObj, req, focus, ScopeMask(scope), []);
      }
    }
  }

  // ---- What a match says ----

  /** The request agrees with the document as `matchContents` compares them. */
  ghost predicate Agrees(kube: Kube, doc: Doc, req: Request, focus: seq<string>, mask: seq<string>) {
    && kube.yaml(doc).Some? && kube.json(req.obj).Some?
    && exists s :: Compared(kube.rx, kube.yaml(doc).value, kube.json(req.obj).value, focus, mask, s) && s.m1 == s.m2
  }

  /** The request agrees with the message or with an object the message stands for. */
  ghost predicate MessageAgrees(kube: Kube, message: Doc, req: Request, attrs: Attrs, signType: SignType) {
    exists i: nat, n: nat :: AgreesAt(kube, message, req, attrs, signType, i, n)
  }

  ghost predicate AgreesAt(kube: Kube, message: Doc, req: Request, attrs: Attrs, signType: SignType, i: nat, n: nat) {
    var doc := CaseDoc(kube, message, req.obj, i);
    && i < CaseCount(signType) && (i > 0 ==> !NoDryRun(req)) && n <= i
    && doc.Some? && Agrees(kube, doc.value, req, FocusAt(attrs.protect, n), CaseMask(attrs, i))
  }

  lemma {:induction false} TrialFocus(kube: Kube, message: Doc, req: Request, attrs: Attrs, trials: seq<Trial>, i: nat)
    returns (n: nat)
    requires i < |trials| && forall j :: 0 <= j <= i ==> TrialAt(kube, message, req, attrs, trials, j)
    ensures n <= i && trials[i].focus == FocusAt(attrs.protect, n)
  {
    hide TrialAt, NextFocus, FocusAt;
    FocusSteps(attrs.protect, 0);
    TrialFocusAt(kube, message, req, attrs, trials, i);
    n := 0;
    if i > 0 {
      n := TrialFocus(kube, message, req, attrs, trials, i - 1);
      n := FocusNext(kube, req, attrs, trials[i - 1], n);
    }
  }

  lemma TrialFocusAt(kube: Kube, message: Doc, req: Request, attrs: Attrs, trials: seq<Trial>, i: nat)
    requires i < |trials| && TrialAt(kube, message, req, attrs, trials, i)
    ensures trials[i].focus == if i == 0 then attrs.protect else NextFocus(kube, req, trials[i - 1])
  {}

  lemma FocusNext(kube: Kube, req: Request, attrs: Attrs, t: Trial, n: nat) returns (n': nat)
    requires t.focus == FocusAt(attrs.protect, n)
    ensures n' <= n + 1 && NextFocus(kube, req, t) == FocusAt(attrs.protect, n')
  {
    hide FocusAt, W.Rewritten;
    FocusSteps(attrs.protect, n);
    n' := if t.org.None? || kube.json(req.obj).None? then n else n + 1;
  }

  lemma FocusSteps(focus: seq<string>, n: nat)
    ensures FocusAt(focus, 0) == focus && FocusAt(focus, n + 1) == W.Rewritten(W.Rewritten(FocusAt(focus, n)))
  {}

  lemma MatchAgrees(kube: Kube, message: Doc, req: Request, attrs: Attrs, signType: SignType, trials: seq<Trial>)
    requires Searched(kube, message, req, attrs, signType, trials, true)
    ensures MessageAgrees(kube, message, req, attrs, signType)
  {
    hide Compared, FocusAt, CaseMask;
    var i := |trials| - 1;
    var n := TrialFocus(kube, message, req, attrs, trials, i);
    assert TrialAt(kube, message, req, attrs, trials, i);
    assert AgreesAt(kube, message, req, attrs, signType, i, n);
  }

  /** The update agrees with the old object under the scope mask, or the request is a creation. */
  ghost predicate ScopeAgrees(kube: Kube, scope: string, req: Request) {
    || req.operation == "CREATE"
    || (req.operation == "UPDATE" && req.oldVerified && Agrees(kube, req.oldObj, req, [], ScopeMask(scope)))
  }

  // ---- What agreement says about values ----

  /** The masked forms of document and request. */
  ghost predicate Masking(kube: Kube, doc: Doc, req: Request, mask: seq<string>) {
    && kube.yaml(doc).Some? && kube.json(req.obj).Some?
    && W.AllStop(kube.yaml(doc).value, W.Rewritten(mask))
    && W.AllStop(kube.json(req.obj).value, W.Rewritten(W.Rewritten(mask)))
  }

  ghost predicate DocShows(kube: Kube, doc: Doc, req: Request, mask: seq<string>, k: string, v: Tree.Scalar)
    requires Masking(kube, doc, req, mask)
  {
    Shown(kube.yaml(doc).value, OrgRule(kube.rx, kube.yaml(doc).value, mask), k, v)
  }

  ghost predicate ReqShows(kube: Kube, doc: Doc, req: Request, mask: seq<string>, k: string, v: Tree.Scalar)
    requires Masking(kube, doc, req, mask)
  {
    Shown(kube.json(req.obj).value, ReqRule(kube.rx, kube.json(req.obj).value, mask), k, v)
  }

  /** Neither masked form has two leaves under one key. */
  ghost predicate KeysApart(kube: Kube, doc: Doc, req: Request, mask: seq<string>) {
    Masking(kube, doc, req, mask) ==>
      var a, b := kube.yaml(doc).value, kube.json(req.obj).value;
      && Tree.DistinctLeaves(Mask.RecursiveMask(a, "", OrgRule(kube.rx, a, mask)))
      && Tree.DistinctLeaves(Mask.RecursiveMask(b, "", ReqRule(kube.rx, b, mask)))
  }

  /** Document and request show something under the same keys once both are masked, and a common
      value under each; where no key stands for two leaves, the same values altogether. */
  ghost predicate ShowsSame(kube: Kube, doc: Doc, req: Request, mask: seq<string>) {
    && Masking(kube, doc, req, mask)
    && (forall k, v :: DocShows(kube, doc, req, mask, k, v) ==> Common(kube, doc, req, mask, k))
    && (forall k, v :: ReqShows(kube, doc, req, mask, k, v) ==> Common(kube, doc, req, mask, k))
    && (KeysApart(kube, doc, req, mask) ==>
          forall k, v :: DocShows(kube, doc, req, mask, k, v) <==> ReqShows(kube, doc, req, mask, k, v))
  }

  ghost predicate Common(kube: Kube, doc: Doc, req: Request, mask: seq<string>, k: string)
    requires Masking(kube, doc, req, mask)
  {
    exists v :: DocShows(kube, doc, req, mask, k, v) && ReqShows(kube, doc, req, mask, k, v)
  }

  lemma AgreesShows(kube: Kube, doc: Doc, req: Request, mask: seq<string>)
    requires Agrees(kube, doc, req, [], mask)
    ensures kube.yaml(doc).Some? && kube.json(req.obj).Some? && ShowsSame(kube, doc, req, mask)
  {
    hide Compared, Shown, OrgRule, ReqRule, W.AllStop, Tree.DistinctLeaves, Mask.RecursiveMask;
    var a, b := kube.yaml(doc).value, kube.json(req.obj).value;
    var s :| Compared(kube.rx, a, b, [], mask, s) && s.m1 == s.m2;
    MaskedSides(kube.rx, a, b, mask, s);
    MaskedMatchCommon(kube.rx, a, b, mask, s);
    forall k, v | DocShows(kube, doc, req, mask, k, v) || ReqShows(kube, doc, req, mask, k, v)
      ensures Common(kube, doc, req, mask, k)
    {
      var w :| Shown(a, OrgRule(kube.rx, a, mask), k, w) && Shown(b, ReqRule(kube.rx, b, mask), k, w);
      assert DocShows(kube, doc, req, mask, k, w) && ReqShows(kube, doc, req, mask, k, w);
    }
    if KeysApart(kube, doc, req, mask) { MaskedMatchShown(kube.rx, a, b, mask, s); }
  }

  /** Both objects are masked by one and the same rule. */
  ghost predicate ByOneRule(kube: Kube, doc: Doc, req: Request, mask: seq<string>) {
    && Masking(kube, doc, req, mask)
    && OrgRule(kube.rx, kube.yaml(doc).value, mask) == ReqRule(kube.rx, kube.json(req.obj).value, mask)
       == Mask.ListedBy(kube.rx, W.Rewritten(mask))
  }

  lemma OneRuleMasks(kube: Kube, doc: Doc, req: Request, mask: seq<string>)
    requires kube.yaml(doc).Some? && kube.json(req.obj).Some? && OneRule(mask)
    ensures ByOneRule(kube, doc, req, mask)
  {
    hide Keys.StableKey, W.NoWildcard, OrgRule, ReqRule, W.AllStop;
    SameKeysBothSides(kube.rx, kube.yaml(doc).value, kube.json(req.obj).value, mask);
  }

  lemma CaseMaskOneRule(attrs: Attrs, i: nat)
    requires attrs.protect == [] && OneRule(attrs.ignore)
    ensures OneRule(CaseMask(attrs, i))
  {
    hide OneRule, MessageMask;
    MessageMaskOneRule();
    OneRuleConcat(MessageMask(), attrs.ignore);
    DryRunKeysOneRule();
    OneRuleConcat(MaskKeys(attrs), ["metadata.name", "status"]);
  }

  lemma DryRunKeysOneRule()
    ensures OneRule(["metadata.name", "status"])
  {
    hide OneRule;
    assert '"' !in "metadata.name" && '"' !in "status";
    assert '[' !in "metadata.name" && '[' !in "status";
    PlainOneRule(["metadata.name", "status"]);
  }

  lemma {:induction false} NoFocus(n: nat)
    ensures FocusAt([], n) == []
  {
    if n > 0 { NoFocus(n - 1); }
  }

  /** What a case masks, key by key: the twenty built-in keys, the ignored attributes where none is
      protected, and for a simulated object its name and status. */
  lemma CaseMaskExactly(attrs: Attrs, i: nat, k: string)
    ensures k in CaseMask(attrs, i) <==>
            || k in MessageMask() || (attrs.protect == [] && k in attrs.ignore)
            || (i > 0 && (k == "metadata.name" || k == "status"))
  {
    hide MessageMask;
  }

  /** Stable focus keys read the same in every case. */
  lemma {:induction false} StableFocus(focus: seq<string>, n: nat)
    requires OneRule(focus)
    ensures W.Rewritten(FocusAt(focus, n)) == W.Rewritten(focus)
    ensures n > 0 ==> FocusAt(focus, n) == W.Rewritten(focus)
  {
    hide Keys.StableKey, W.NoWildcard, WellQuoted;
    W.RewriteTwice(focus);
    if n > 0 { StableFocus(focus, n - 1); }
  }

  lemma StableFocusOneRule(focus: seq<string>, n: nat)
    requires OneRule(focus)
    ensures OneRule(FocusAt(focus, n))
  {
    StableFocus(focus, n);
    RewrittenOneRule(focus);
  }

  /** Document and request hold the same values under the keys with a focus prefix, the focus keys
      expanded in each, provided that both can be focused. */
  ghost predicate SharesFocus(kube: Kube, doc: Doc, req: Request, focus: seq<string>) {
    && kube.yaml(doc).Some? && kube.json(req.obj).Some?
    && var a, b := kube.yaml(doc).value, kube.json(req.obj).value;
       var fa, fb := W.Rewritten(focus), W.Rewritten(W.Rewritten(focus));
       && W.AllStop(a, fa) && W.AllStop(b, fb)
       && (Focusable(a, W.Concrete(a, fa)) && Focusable(b, W.Concrete(b, fb)) ==>
             forall k, v :: (Tree.FromLeaf(a, "", k, v) && Extract.Kept(W.Concrete(a, fa), k)) <==>
                            (Tree.FromLeaf(b, "", k, v) && Extract.Kept(W.Concrete(b, fb), k)))
  }

  lemma FocusAgreement(kube: Kube, doc: Doc, req: Request, focus: seq<string>, mask: seq<string>)
    requires focus != [] && Agrees(kube, doc, req, focus, mask)
    ensures SharesFocus(kube, doc, req, focus)
  {
    hide Compared, Focusable, W.AllStop, W.Concrete, Extract.Kept, Tree.FromLeaf;
    var a, b := kube.yaml(doc).value, kube.json(req.obj).value;
    var s :| Compared(kube.rx, a, b, focus, mask, s) && s.m1 == s.m2;
    FocusedStops(kube.rx, a, b, focus, mask, s);
    var fa, fb := W.Rewritten(focus), W.Rewritten(W.Rewritten(focus));
    if Focusable(a, W.Concrete(a, fa)) && Focusable(b, W.Concrete(b, fb)) {
      FocusedMatchMeaning(kube.rx, a, b, focus, mask, s);
    }
  }

  /** One and the same set of prefixes serves both. */
  ghost predicate SharesPrefixes(kube: Kube, doc: Doc, req: Request, focus: seq<string>) {
    && kube.yaml(doc).Some? && kube.json(req.obj).Some?
    && var a, b := kube.yaml(doc).value, kube.json(req.obj).value;
       Focusable(a, focus) && Focusable(b, focus) ==>
         forall k, v :: Extract.Kept(focus, k) ==> (Tree.FromLeaf(a, "", k, v) <==> Tree.FromLeaf(b, "", k, v))
  }

  lemma OneRuleFocus(rx: Mask.Regex, a: Tree.Node, b: Tree.Node, focus: seq<string>, mask: seq<string>, s: Sides)
    requires focus != [] && OneRule(focus) && Compared(rx, a, b, focus, mask, s) && s.m1 == s.m2
    requires Focusable(a, W.Rewritten(focus)) && Focusable(b, W.Rewritten(focus))
    ensures forall k, v :: Extract.Kept(W.Rewritten(focus), k) ==>
                             (Tree.FromLeaf(a, "", k, v) <==> Tree.FromLeaf(b, "", k, v))
  {
    hide Compared, Focusable, Keys.StableKey, Extract.Kept, Tree.FromLeaf;
    FocusedMatchOneRule(rx, a, b, focus, mask, s);
  }

  lemma PrefixAgreement(kube: Kube, doc: Doc, req: Request, protect: seq<string>, n: nat, mask: seq<string>)
    requires protect != [] && OneRule(protect) && Agrees(kube, doc, req, FocusAt(protect, n), mask)
    ensures SharesPrefixes(kube, doc, req, W.Rewritten(protect))
  {
    hide Compared, Focusable, OneRule, FocusAt, Extract.Kept, Tree.FromLeaf;
    var a, b, focus := kube.yaml(doc).value, kube.json(req.obj).value, FocusAt(protect, n);
    var s :| Compared(kube.rx, a, b, focus, mask, s) && s.m1 == s.m2;
    StableFocus(protect, n);
    StableFocusOneRule(protect, n);
    FocusLength(protect, n);
    if Focusable(a, W.Rewritten(protect)) && Focusable(b, W.Rewritten(protect)) {
      OneRuleFocus(kube.rx, a, b, focus, mask, s);
    }
  }

  lemma {:induction false} FocusLength(focus: seq<string>, n: nat)
    ensures |FocusAt(focus, n)| == |focus|
  {
    if n > 0 { FocusLength(focus, n - 1); }
  }

  // ---- When the comparisons end ----

  /** Well-quoted attributes, and no quotes in the flattened keys of the compared objects where
      attributes are protected, are enough for every comparison of a search to end. */
  lemma QuotedMatchingEnds(kube: Kube, message: Doc, req: Request, attrs: Attrs, signType: SignType)
    requires WellQuoted(attrs.protect) && WellQuoted(attrs.ignore)
    requires attrs.protect != [] ==>
               forall i: nat :: i < CaseCount(signType) ==> QuoteFreeCase(kube, message, req, i)
    ensures MatchingEnds(kube, message, req, attrs, signType)
  {
    hide WellQuoted, MessageMask, ComparisonEnds, FocusAt, CaseDoc, NoDryRun, QuoteFree;
    MessageMaskOneRule();
    QuotedConcat(MessageMask(), []);
    QuotedConcat(MessageMask(), attrs.ignore);
    QuotedConcat(MaskKeys(attrs), ["metadata.name", "status"]);
    QuotedLiterals();
    forall i: nat, n: nat | n <= i ensures CaseEnds(kube, message, req, attrs, signType, i, n) {
      var doc := CaseDoc(kube, message, req.obj, i);
      QuotedFocus(attrs.protect, n);
      if i < CaseCount(signType) && doc.Some? {
        assert attrs.protect != [] ==> QuoteFreeCase(kube, message, req, i);
        QuotedEnds(kube, doc.value, req, FocusAt(attrs.protect, n), CaseMask(attrs, i));
      }
    }
  }

  /** Well-quoted scope keys are enough for the scope comparison to end. */
  lemma QuotedScopeEnds(kube: Kube, scope: string, req: Request)
    requires WellQuoted(SplitCommaSeparatedKeys(scope))
    ensures ScopeEnds(kube, scope, req)
  {
    hide WellQuoted, MessageMask, SplitCommaSeparatedKeys, ComparisonEnds;
    MessageMaskOneRule();
    QuotedConcat(MessageMask(), SplitCommaSeparatedKeys(scope));
    QuotedConcat([], []);
    QuotedEnds(kube, req.oldObj, req, [], ScopeMask(scope));
  }

  /** Document and request, as far as they parse, have no quotes in their flattened keys. */
  ghost predicate QuoteFree(kube: Kube, doc: Doc, req: Request) {
    && (kube.yaml(doc).Some? ==> Extract.LeafAvoid(kube.yaml(doc).value, '"'))
    && (kube.json(req.obj).Some? ==> Extract.LeafAvoid(kube.json(req.obj).value, '"'))
  }

  ghost predicate QuoteFreeCase(kube: Kube, message: Doc, req: Request, i: nat) {
    var doc := CaseDoc(kube, message, req.obj, i);
    doc.Some? ==> QuoteFree(kube, doc.value, req)
  }

  lemma QuotedConcat(a: seq<string>, b: seq<string>)
    ensures WellQuoted(a) && WellQuoted(b) ==> WellQuoted(a + b)
    ensures WellQuoted([]) && a + [] == a
  {}

  lemma QuotedLiterals()
    ensures WellQuoted(["metadata.name", "status"])
  {
    hide Keys.ParseConcatKey;
    assert '"' !in "metadata.name" && '"' !in "status";
    RewriteNoQuote("metadata.name");
    RewriteNoQuote("status");
  }

  lemma {:induction false} QuotedFocus(focus: seq<string>, n: nat)
    requires WellQuoted(focus)
    ensures WellQuoted(FocusAt(focus, n)) && |FocusAt(focus, n)| == |focus|
  {
    hide WellQuoted;
    if n > 0 {
      QuotedFocus(focus, n - 1);
      WellQuotedStops(Tree.NullNode, FocusAt(focus, n - 1));
      WellQuotedStops(Tree.NullNode, W.Rewritten(FocusAt(focus, n - 1)));
    }
  }

  lemma QuotedEnds(kube: Kube, doc: Doc, req: Request, focus: seq<string>, mask: seq<string>)
    requires WellQuoted(focus) && WellQuoted(mask) && (focus != [] ==> QuoteFree(kube, doc, req))
    ensures ComparisonEnds(kube, doc, req, focus, mask)
  {
    hide WellQuoted, CanNarrow, Extract.LeafAvoid;
    if kube.yaml(doc).Some? && kube.json(req.obj).Some? {
      WellQuotedCanNarrow(kube.yaml(doc).value, focus, mask);
      WellQuotedCanNarrow(kube.json(req.obj).value, focus, mask);
    }
  }
}
