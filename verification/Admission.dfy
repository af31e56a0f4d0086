/** One request from the cached lists to the response: the modules of the shield put together
    along `Handler.Run` of `shield/pkg/shield/handler.go`. */
module Admission {
  import opened Text
  import opened Pattern
  import C = Cache
  import D = Diff
  import H = Handler
  import M = Mask
  import Mat = Matching
  import Mut = Mutation
  import Pol = Policy
  import RD = RunData
  import RT = RuleTable
  import Sig = Signature
  import Tree

  // ---- Scope ----

  /** A request that the rule table protects is never waved through as unmonitored, when scope
      test and protection test read the same table. */
  lemma ProtectedIsMonitored(run: H.Run, lm: RT.LabelMatcher, profiles: seq<RT.Profile>, nss: seq<RT.Namespace>,
                             common: seq<Rule>, shieldNs: string)
    requires run.scopeTable == run.ruleTable == RD.Derived(lm, profiles, nss, common, shieldNs)
    requires run.req.scope == "Namespaced" || H.RequestNamespace(run.req) == ""
    requires H.Matched(run) != []
    ensures !H.NotMonitored(run)
  {
    hide RT.Verdict, RT.TableOf, RT.IsTargetEmpty, RT.MatchNamespaceName;
    var fields := H.FieldsOf(run.req);
    assert Field(fields, "ResourceScope") == run.req.scope && Field(fields, "Namespace") == run.req.namespace;
    if run.req.scope == "Namespaced" { RT.ProtectedIsInScope(lm, profiles, nss, common, shieldNs, fields); }
  }

  /** A request is waved through as unmonitored exactly when it is about a namespace that the
      configuration does not name and that no profile known at the scope test targets. */
  lemma NotMonitoredExactly(run: H.Run, lm: RT.LabelMatcher, profiles: seq<RT.Profile>, nss: seq<RT.Namespace>,
                            common: seq<Rule>, shieldNs: string)
    requires run.scopeTable == RD.Derived(lm, profiles, nss, common, shieldNs)
    ensures var ns := H.RequestNamespace(run.req);
            H.NotMonitored(run) <==>
            && AsksTwice(run.req, run.config)
            && forall i :: 0 <= i < |profiles| ==> ns !in RT.Targets(lm, profiles[i], nss, shieldNs)
  {
    hide RT.TableOf, RT.MatchNamespaceName, RT.Targets;
    var ns, t := H.RequestNamespace(run.req), RT.TableOf(lm, profiles, nss, common, shieldNs);
    RT.NamespacesAreTargets(lm, profiles, nss, common, shieldNs, ns);
    assert forall i :: 0 <= i < |profiles| ==> t.items[i].targets == RT.Targets(lm, profiles[i], nss, shieldNs);
  }

  function Answer<T>(api: RD.Api<T>): seq<T> { if api.Some? then api.value else [] }

  function FirstKnown<T>(a: seq<T>, b: seq<T>): seq<T> { if a != [] then a else b }

  /** Nothing is known yet: neither lists nor cache hold anything. */
  ghost predicate Blank(data: RD.RunData)
    reads data, data.rsp, data.ns, data.rsp.cache, data.rsp.cache.clock
  {
    && data.Consistent() && data.rspList == [] && data.nsList == []
    && Cold(data.rsp.cache.log, data.rsp.key, data.rsp.cache.clock.last)
    && Cold(data.rsp.cache.log, data.ns.key, data.rsp.cache.clock.last)
  }

  /** The scope test asks for the table only about a namespace that the configuration does not
      name. */
  predicate AsksTwice(req: H.ReqContext, config: H.Config) {
    var ns := H.RequestNamespace(req);
    ns != "" && !(config.inScope.Some? && RT.MatchNamespaceName(config.inScope.value, ns))
  }

  /** The tables of the two tests of one request.  From nothing, the scope test, if it asks, sees the
      table of what the API server answers first, and the protection test that of the first
      non-empty answers; once both lists are known, both see the same table. */
  method ScopeAndProtectionTables(data: RD.RunData, req: H.ReqContext, config: H.Config,
                                  rsp1: RD.Api<RT.Profile>, ns1: RD.Api<RT.Namespace>,
                                  rsp2: RD.Api<RT.Profile>, ns2: RD.Api<RT.Namespace>)
    returns (scopeTable: Option<RT.RuleTable>, ruleTable: Option<RT.RuleTable>)
    requires data.Wired() && (data.Consistent() || data.Behind())
    modifies data, data.rsp, data.ns, data.rsp.cache, data.rsp.cache.clock
    ensures !AsksTwice(req, config) ==> scopeTable == None
    ensures old(Blank(data)) ==>
              if AsksTwice(req, config) then
                && scopeTable == RD.Derived(data.lm, Answer(rsp1), Answer(ns1), data.common, data.shieldNs)
                && ruleTable == RD.Derived(data.lm, FirstKnown(Answer(rsp1), Answer(rsp2)),
                                           FirstKnown(Answer(ns1), Answer(ns2)), data.common, data.shieldNs)
              else ruleTable == RD.Derived(data.lm, Answer(rsp2), Answer(ns2), data.common, data.shieldNs)
    ensures old(data.rspList) != [] && old(data.nsList) != [] ==>
              ruleTable == old(data.ruleTable) && (AsksTwice(req, config) ==> scopeTable == ruleTable)
  {
    hide RD.Derived, C.LogGet, AsksTwice;
    hide data.Wired;
    ghost var src;
    scopeTable := None;
    if AsksTwice(req, config) { scopeTable, src := data.GetRuleTable(rsp1, ns1); }
    ruleTable, src := data.GetRuleTable(rsp2, ns2);
  }

  /** A profile that protects the ConfigMaps of its namespace. */
  function ConfigMapProfile(): RT.Profile {
    var pattern := RequestPattern(None, None, None, Some("ConfigMap"), None, None, None, None);
    RT.Profile("q", "y", None, [Rule([pattern], [])], [], [])
  }

  /** When the profiles cannot be read at the scope test and can at the protection test, a request
      that the profile protects is let through as unmonitored. */
  lemma FailedReadWavesThrough(run: H.Run, lm: RT.LabelMatcher, nss: seq<RT.Namespace>, shieldNs: string)
    requires run.config.inScope == None && shieldNs != "y"
    requires run.req.scope == "Namespaced" && run.req.namespace == "y" && run.req.kind == "ConfigMap"
    requires run.scopeTable == RD.Derived(lm, Answer(None), nss, [], shieldNs)
    requires run.ruleTable ==
             RD.Derived(lm, FirstKnown(Answer(None), Answer(Some([ConfigMapProfile()]))), nss, [], shieldNs)
    ensures H.Matched(run) != [] && H.NotMonitored(run) && H.Permits(run)
  {
    hide RT.TableOf, RT.Verdict, RT.ProtectedBy, RT.MatchNamespaceName;
    NotMonitoredExactly(run, lm, [], nss, [], shieldNs);
    ConfigMapProtected(run, lm, nss, shieldNs);
  }

  lemma ConfigMapProtected(run: H.Run, lm: RT.LabelMatcher, nss: seq<RT.Namespace>, shieldNs: string)
    requires shieldNs != "y"
    requires run.req.scope == "Namespaced" && run.req.namespace == "y" && run.req.kind == "ConfigMap"
    requires run.ruleTable == RD.Derived(lm, [ConfigMapProfile()], nss, [], shieldNs)
    ensures H.Matched(run) != []
  {
    hide RequestMatches, MatchPattern;
    var q, fields := ConfigMapProfile(), H.FieldsOf(run.req);
    var t := RT.TableOf(lm, [q], nss, [], shieldNs);
    assert [q][..0] == [] && q.ignore + [] == q.ignore;
    assert t.items == [RT.RuleItem(q, ["y"])];
    KindMatches(q.protect[0].match_[0], fields);
    assert Field(fields, "ResourceScope") == "Namespaced" && Field(fields, "Namespace") == "y";
    assert RuleMatches(q.protect[0], fields, false);
    assert RT.Covered(q, fields, shieldNs);
    assert RT.ProtectedBy(t.items[0], fields, shieldNs);
    assert RT.VerdictUpTo(t, fields, 1) != [];
  }

  lemma KindMatches(r: RequestPattern, fields: Fields)
    requires r == RequestPattern(None, None, None, Some("ConfigMap"), None, None, None, None)
    requires Field(fields, "Kind") == "ConfigMap"
    ensures RequestMatches(r, fields, false)
  {
    var ps := NamedFields(r);
    assert ps[3].1.Some?;
    assert TrimSpace("ConfigMap") == "ConfigMap";
    assert MatchPattern("ConfigMap", "ConfigMap");
    assert forall i :: 0 <= i < |ps| ==> FieldMatches(ps[i], fields, false);
  }

  // ---- The evaluators ----

  /** Everything the two evaluations of a request read besides the request itself: what signatures
      are checked with, the old and new object, and per profile the attributes it protects or
      ignores and the ignore keys that apply to the request. */
  datatype Evidence = Evidence(
    sm: Pol.SerialMatcher, kube: Mat.Kube, crypto: Sig.Crypto, signers: Pol.SignerConfig, mounted: seq<string>,
    found: Option<Sig.Signature>, req: Mat.Request, oldRaw: Mut.Raw, newRaw: Mut.Raw,
    attrs: RT.Profile -> Mat.Attrs, ignoreKeys: RT.Profile -> seq<string>, patterns: RT.Profile -> seq<D.Difference>)

  /** The evidence is about the request of the run, its old object and its signer configuration. */
  ghost predicate About(run: H.Run, ev: Evidence) {
    && ev.req.namespace == run.req.namespace && ev.req.operation == run.req.operation
    && ev.req.scope == run.req.scope && ev.req.kind == run.req.kind
    && ev.kube.json(ev.req.obj) == Some(Tree.NewNode(run.req.rawObject))
    && (ev.newRaw.Parsed? ==> run.req.rawObject == Tree.Object(ev.newRaw.fields))
    && (ev.oldRaw.Parsed? ==> run.req.rawOldObject == Some(Tree.Object(ev.oldRaw.fields)))
    && (run.req.rawOldObject.Some? ==> ev.kube.yaml(ev.req.oldObj) == Some(Tree.NewNode(run.req.rawOldObject.value)))
    && run.signerConfig == Some(ev.signers)
  }

  /** Both objects parse, and every difference of the masked objects lies under an ignore key of
      the profile. */
  ghost predicate Unmutated(ev: Evidence, p: RT.Profile) {
    && ev.oldRaw.Parsed? && ev.newRaw.Parsed?
    && exists e :: MutationEvidence(ev, e) && Mut.AllCovered(ev.kube.rx, ev.ignoreKeys(p), e.diff)
  }

  ghost predicate MutationEvidence(ev: Evidence, e: Mut.Evidence)
    requires ev.oldRaw.Parsed? && ev.newRaw.Parsed?
  {
    Mut.MaskedEvidence(ev.kube.rx, ev.kube.printer, Tree.NewNode(Tree.Object(ev.oldRaw.fields)),
                       Tree.NewNode(Tree.Object(ev.newRaw.fields)), e)
  }

  /** The old and the new object, masked, hold the same values under the keys that have no numeric
      middle segment and that the profile does not ignore. */
  ghost predicate KeepsOld(ev: Evidence, p: RT.Profile) {
    && ev.oldRaw.Parsed? && ev.newRaw.Parsed?
    && exists e :: MutationEvidence(ev, e) &&
                   forall k :: !D.NumericMiddle(k) && !M.Listed(ev.kube.rx, Mut.Starred(ev.ignoreKeys(p)), k) ==>
                                 D.Lookup(e.m1, k) == D.Lookup(e.m2, k)
  }

  lemma UnmutatedKeepsOld(ev: Evidence, p: RT.Profile)
    requires Unmutated(ev, p)
    ensures KeepsOld(ev, p)
  {
    hide D.NumericMiddle, M.Listed, Mut.Starred, Mut.AllCovered, Mut.MaskedEvidence;
    var e :| MutationEvidence(ev, e) && Mut.AllCovered(ev.kube.rx, ev.ignoreKeys(p), e.diff);
    Mut.UnmutatedKeeps(ev.kube.rx, ev.kube.printer, Tree.NewNode(Tree.Object(ev.oldRaw.fields)),
                       Tree.NewNode(Tree.Object(ev.newRaw.fields)), e, ev.ignoreKeys(p));
  }

  ghost predicate SignatureAllowed(ev: Evidence, p: RT.Profile, paths: Sig.Paths, g: Sig.Gate) {
    && ev.found.Some? && Sig.CandidatePaths(ev.signers, ev.mounted, ev.req.namespace, paths)
    && Sig.Allowed(ev.sm, ev.kube, ev.crypto, ev.signers, ev.found.value, ev.req, ev.attrs(p), paths, g)
  }

  function SignerName(who: Pol.SignerInfo): string {
    if who.commonName != "" then who.commonName else if who.email != "" then who.email else who.name
  }

  /** `SignerInfo.GetName`. */
  method GetName(who: Pol.SignerInfo) returns (name: string)
    ensures name == SignerName(who)
  {
    if who.commonName != "" { return who.commonName; }
    if who.email != "" { return who.email; }
    if who.name != "" { return who.name; }
    return "";
  }

  /** What the evaluators answer for a profile: unmutated only if it is, and mutated only if it is;
      allowed only for a signature that is, under the name of the signer the policies were asked
      about, and refused only for one that is not. */
  ghost predicate Evaluated(ev: Evidence, p: RT.Profile, m: H.MutOutcome, s: H.SigOutcome) {
    && m.MutResult? && (m.checked <==> ev.oldRaw.Parsed? && ev.newRaw.Parsed?)
    && (m.checked && !m.isMutated ==> Unmutated(ev, p)) && (m.isMutated ==> Mutated(ev, p))
    && s.SigResult? && s.info.checked
    && (s.info.allow ==> SignedBy(ev, p, s.info.signerName) && s.info.uid == ev.found.value.uid)
    && (!s.info.allow ==> Refused(ev, p))
  }

  /** Some difference of the masked objects lies under no ignore key of the profile. */
  ghost predicate Mutated(ev: Evidence, p: RT.Profile) {
    && ev.oldRaw.Parsed? && ev.newRaw.Parsed?
    && exists e :: MutationEvidence(ev, e) && !Mut.AllCovered(ev.kube.rx, ev.ignoreKeys(p), e.diff)
  }

  /** There is no signature, it is a Helm release's, or what it demands, as the comparisons found it,
      is not met. */
  ghost predicate Refused(ev: Evidence, p: RT.Profile) {
    || ev.found.None? || ev.found.value.signType.HelmSig?
    || exists paths, g :: RefusedBy(ev, p, paths, g)
  }

  ghost predicate RefusedBy(ev: Evidence, p: RT.Profile, paths: Sig.Paths, g: Sig.Gate)
    requires ev.found.Some?
  {
    && Sig.CandidatePaths(ev.signers, ev.mounted, ev.req.namespace, paths)
    && Sig.GateOf(ev.kube, ev.found.value, ev.req, ev.attrs(p), g)
    && !Sig.Allowed(ev.sm, ev.kube, ev.crypto, ev.signers, ev.found.value, ev.req, ev.attrs(p), paths, g)
  }

  /** The signature was allowed for the profile, and this is the name of the signer that the policies
      were asked about. */
  ghost predicate SignedBy(ev: Evidence, p: RT.Profile, name: string) {
    exists paths, g :: SignatureAllowed(ev, p, paths, g) &&
                       SignerName(Sig.FinalSigner(ev.crypto, ev.found.value, paths).value) == name
  }

  /** `singleProfileCheck` calls both evaluators; neither ever returns an error. */
  method EvaluateProfile(ev: Evidence, p: RT.Profile, fields: Fields, userGroups: string,
                         ignoreAttrs: seq<Mut.AttrsPattern>, unprotectAttrs: seq<Mut.AttrsPattern>)
    returns (m: H.MutOutcome, s: H.SigOutcome)
    requires ev.found.Some? && !ev.found.value.signType.HelmSig? ==>
               Sig.GateEnds(ev.kube, ev.found.value, ev.req, ev.attrs(p))
    requires ev.ignoreKeys(p) == Mut.AttrsOf(Mut.IgnoreAttrs(ignoreAttrs, unprotectAttrs, fields),
                                             Mut.Ma4kFields(fields, userGroups))
    ensures Evaluated(ev, p, m, s)
  {
    hide Mut.AttrsOf, Mut.IgnoreAttrs, Mut.Ma4kFields, Mut.MaskedEvidence, Mut.AllCovered;
    hide Sig.GateEnds, Sig.CandidatePaths, Sig.GateOf;
    var res;
    ghost var e;
    res, e := Mut.Eval(ev.kube.rx, ev.kube.printer, ev.oldRaw, ev.newRaw, fields, userGroups, ignoreAttrs,
                       unprotectAttrs);
    m := H.MutResult(res.checked, res.isMutated);
    assert res.checked ==> MutationEvidence(ev, e);
    var r;
    ghost var paths, g;
    r, paths, g := Sig.Eval(ev.sm, ev.kube, ev.crypto, ev.signers, ev.mounted, ev.found, ev.req, ev.attrs(p),
                            ev.patterns(p));
    var name := "";
    if r.signer.Some? { name := GetName(r.signer.value); }
    s := H.SigResult(H.SigInfo(r.checked, r.allow, name, r.uid));
    assert r.allow ==> SignatureAllowed(ev, p, paths, g);
    assert r.allow ==> SignedBy(ev, p, name);
    assert !r.allow && ev.found.Some? && !ev.found.value.signType.HelmSig? ==> RefusedBy(ev, p, paths, g);
  }

  // ---- What an admitted request rests on ----

  /** A mounted key, named by a policy for the namespace, accepted the signature; the policies
      accept the signer that the verification ended with, for that key; and the signature speaks
      about this very request. */
  ghost predicate Vouched(ev: Evidence, p: RT.Profile) {
    && ev.found.Some?
    && var sig := ev.found.value;
       && (sig.matchRequired ==> Mat.MessageAgrees(ev.kube, sig.yaml, ev.req, ev.attrs(p), sig.signType))
       && (sig.scopedSignature ==> Mat.ScopeAgrees(ev.kube, sig.scope, ev.req))
       && exists paths, path, who :: VouchedBy(ev, paths, path, who)
  }

  ghost predicate VouchedBy(ev: Evidence, paths: Sig.Paths, path: string, who: Pol.SignerInfo)
    requires ev.found.Some?
  {
    && Sig.CandidatePaths(ev.signers, ev.mounted, ev.req.namespace, paths)
    && Sig.FinalSigner(ev.crypto, ev.found.value, paths) == Some(who)
    && Sig.AcceptingCandidate(ev.signers, ev.crypto, ev.found.value, ev.mounted, ev.req.namespace, path)
    && Pol.Accepts(ev.sm, ev.signers, ev.req.namespace, who, [path])
  }

  lemma AllowedIsVouched(ev: Evidence, p: RT.Profile, paths: Sig.Paths, g: Sig.Gate)
    requires SignatureAllowed(ev, p, paths, g)
    ensures Vouched(ev, p)
  {
    hide Sig.Allowed, Sig.CandidatePaths, Mat.MessageAgrees, Mat.ScopeAgrees, Sig.AcceptingCandidate, Pol.Accepts;
    hide Sig.FinalSigner;
    var path := Sig.AllowedIsJustified(ev.sm, ev.kube, ev.crypto, ev.signers, ev.mounted, ev.found.value, ev.req,
                                       ev.attrs(p), paths, g);
    assert VouchedBy(ev, paths, path, Sig.FinalSigner(ev.crypto, ev.found.value, paths).value);
  }

  lemma SignedIsVouched(ev: Evidence, p: RT.Profile, name: string)
    requires SignedBy(ev, p, name)
    ensures Vouched(ev, p) && ev.found.Some?
  {
    hide Vouched, Sig.FinalSigner, Sig.Allowed;
    var paths, g :| SignatureAllowed(ev, p, paths, g);
    AllowedIsVouched(ev, p, paths, g);
  }

  /** What the rules let through was, for every profile that protects it, an update none of whose
      differences matters to the profile, or vouched for. */
  lemma AdmittedIsJustified(run: H.Run, ev: Evidence, p: RT.Profile)
    requires About(run, ev) && H.ReachesProfiles(run) && H.Permits(run) && p in H.Matched(run)
    requires Evaluated(ev, p, run.mutation(p), run.signature(p))
    ensures (run.req.operation == "UPDATE" && Unmutated(ev, p)) || Vouched(ev, p)
  {
    hide H.Matched, H.Skipped, H.WellFormed, H.ShieldResource, H.PermittedAccount, Unmutated, Vouched;
    hide SignedBy, About;
    assert H.Allows(run, p);
    if !(run.req.operation == "UPDATE" && run.mutation(p).checked && !run.mutation(p).isMutated) {
      SignedIsVouched(ev, p, run.signature(p).info.signerName);
    }
  }

  /** The values a signature stands for are those of the request: outside the masked keys where no
      attribute is protected, else under the protected ones, and outside the scope. */
  ghost predicate CarriesSigned(ev: Evidence, p: RT.Profile) {
    && ev.found.Some?
    && var sig, attrs := ev.found.value, ev.attrs(p);
       && (sig.matchRequired && attrs.protect == [] ==> exists i :: Sig.MessageShown(ev.kube, sig, ev.req, attrs, i))
       && (sig.matchRequired && attrs.protect != [] ==> exists i :: Sig.FocusShared(ev.kube, sig, ev.req, attrs, i))
       && (sig.scopedSignature ==> Sig.ScopeShown(ev.kube, sig.scope, ev.req))
  }

  /** A request that was let through although a profile protects it keeps the old values, as an
      unmutated update, or carries the signed ones. */
  lemma AdmittedCarriesSigned(run: H.Run, ev: Evidence, p: RT.Profile)
    requires About(run, ev) && H.ReachesProfiles(run) && H.Permits(run) && p in H.Matched(run)
    requires Evaluated(ev, p, run.mutation(p), run.signature(p))
    ensures (run.req.operation == "UPDATE" && KeepsOld(ev, p)) || CarriesSigned(ev, p)
  {
    hide About, H.ReachesProfiles, H.Permits, H.Matched, Evaluated, Unmutated, KeepsOld;
    hide Mat.MessageAgrees, Mat.ScopeAgrees, Sig.MessageShown, Sig.FocusShared, Sig.ScopeShown, VouchedBy;
    AdmittedIsJustified(run, ev, p);
    if Unmutated(ev, p) { UnmutatedKeepsOld(ev, p); }
    if Vouched(ev, p) {
      var sig, attrs := ev.found.value, ev.attrs(p);
      if sig.matchRequired && attrs.protect == [] {
        var i := Sig.AgreementShows(ev.kube, sig, ev.req, attrs);
      }
      if sig.matchRequired && attrs.protect != [] {
        var i := Sig.AgreementShares(ev.kube, sig, ev.req, attrs);
      }
      if sig.scopedSignature { Sig.ScopeAgreementShows(ev.kube, sig.scope, ev.req); }
    }
  }

  /** What the label `verified` stands for: a protecting profile for which the signature was vouched
      for, and whose accepted signer is the one that the annotation names. */
  lemma VerifiedMeansVouched(run: H.Run, ev: Evidence, now: string) returns (p: RT.Profile)
    requires About(run, ev) && H.NoEvalErrors(run) && H.VerifiedRun(run)
    requires forall q :: q in H.Matched(run) ==> Evaluated(ev, q, run.mutation(q), run.signature(q))
    ensures p in H.Matched(run) && Vouched(ev, p) && ev.found.Some?
    ensures var name, annotations := H.FinalSig(run).signerName, H.AnnotationsFor("verified", H.FinalSig(run), now);
            && SignedBy(ev, p, name)
            && (H.SIGNED_BY in annotations <==> name != "")
            && (name != "" ==> annotations[H.SIGNED_BY] == name)
            && H.LAST_VERIFIED in annotations && annotations[H.LAST_VERIFIED] == now
            && (H.SIGNATURE_UID in annotations <==> ev.found.value.uid != "")
            && (ev.found.value.uid != "" ==> annotations[H.SIGNATURE_UID] == ev.found.value.uid)
  {
    hide H.Matched, H.VerifiedRun, H.NoEvalErrors, H.FinalSig, Vouched, SignedBy, About;
    p := H.VerifiedSource(run);
    assert Evaluated(ev, p, run.mutation(p), run.signature(p));
    SignedIsVouched(ev, p, H.FinalSig(run).signerName);
    H.AnnotationKeysDiffer();
  }

  // ---- After the response ----

  /** What the mutation check without a profile answers about two objects: whether the masked
      objects have a difference at all. */
  ghost predicate Changed(rx: M.Regex, pr: D.Printer, oldRaw: Mut.Raw, newRaw: Mut.Raw, changed: bool) {
    if !oldRaw.Parsed? || !newRaw.Parsed? then !changed
    else exists e :: ChangedBy(rx, pr, oldRaw, newRaw, e, changed)
  }

  ghost predicate ChangedBy(rx: M.Regex, pr: D.Printer, oldRaw: Mut.Raw, newRaw: Mut.Raw, e: Mut.Evidence,
                            changed: bool)
    requires oldRaw.Parsed? && newRaw.Parsed?
  {
    && Mut.MaskedEvidence(rx, pr, Tree.NewNode(Tree.Object(oldRaw.fields)), Tree.NewNode(Tree.Object(newRaw.fields)), e)
    && (changed <==> e.diff.Some? && e.diff.value != [])
  }

  /** `MutationCheck`: the evaluation with an empty profile. */
  method MutationCheck(rx: M.Regex, pr: D.Printer, oldRaw: Mut.Raw, newRaw: Mut.Raw, fields: Fields,
                       userGroups: string) returns (mutated: bool)
    ensures Changed(rx, pr, oldRaw, newRaw, mutated)
  {
    hide Mut.MaskedEvidence;
    var res;
    ghost var e;
    res, e := Mut.Eval(rx, pr, oldRaw, newRaw, fields, userGroups, [], []);
    mutated := res.isMutated;
    assert Mut.IgnoreAttrs([], [], fields) == [];
    assert Mut.AttrsOf([], Mut.Ma4kFields(fields, userGroups)) == [];
    NothingCovered(rx, e.diff);
    assert res.checked ==> ChangedBy(rx, pr, oldRaw, newRaw, e, mutated);
  }

  lemma NothingCovered(rx: M.Regex, diff: Option<seq<D.Difference>>)
    ensures Mut.AllCovered(rx, [], diff) <==> diff.None? || diff.value == []
  {
    if diff.Some? && diff.value != [] { assert !Mut.Covers(rx, [], diff.value[0]); }
  }

  /** Whether the request creates, deletes or changes a namespace, or touches a profile without
      coming from the shield itself. */
  predicate ChangesLists(run: H.Run, mutated: bool) {
    if run.req.kind == "Namespace" then run.req.operation != "UPDATE" || mutated
    else run.req.kind == "ResourceSigningProfile" && !H.ServerRequest(run) && !H.OperatorRequest(run)
  }

  /** `finalize`: when such a request was let through, both lists are dropped from the cache. */
  method Finalize(run: H.Run, allowed: bool, rx: M.Regex, pr: D.Printer, oldRaw: Mut.Raw, newRaw: Mut.Raw,
                  userGroups: string, data: RD.RunData)
    returns (reset: bool, ghost mutated: bool)
    requires data.Wired()
    modifies data.rsp.cache
    ensures data.Wired()
    ensures run.req.operation == "UPDATE" && run.req.kind == "Namespace" && allowed ==>
              Changed(rx, pr, oldRaw, newRaw, mutated)
    ensures reset <==> allowed && ChangesLists(run, mutated)
    ensures reset ==>
              Cold(data.rsp.cache.log, data.rsp.key, data.rsp.cache.clock.last) &&
                  Cold(data.rsp.cache.log, data.ns.key, data.rsp.cache.clock.last)
    ensures !reset ==> data.rsp.cache.log == old(data.rsp.cache.log)
  {
    hide H.ServerRequest, H.OperatorRequest, Changed, C.LogGet;
    hide data.Wired;
    reset, mutated := false, false;
    if allowed {
      var server, operator := H.ServerRequest(run), H.OperatorRequest(run);
      if run.req.kind == "Namespace" {
        if run.req.operation == "UPDATE" {
          var changed := MutationCheck(rx, pr, oldRaw, newRaw, H.FieldsOf(run.req), userGroups);
          mutated := changed;
          if changed { reset := true; }
        } else {
          reset := true;
        }
      } else if run.req.kind == "ResourceSigningProfile" && !server && !operator {
        reset := true;
      }
      if reset { data.ResetRuleTableCache(); }
    }
  }

  ghost predicate Cold(log: seq<C.Event<string>>, key: string, now: int) { C.LogGet(log, key, now) == None }

  /** The next handler starts from nothing after a reset and asks the API server for both lists,
      so its table is the table of what the server answers. */
  method NextTable(cache: C.Cache<string>, lm: RT.LabelMatcher, common: seq<Rule>, shieldNs: string,
                   pc: RD.Codec<RT.Profile>, nc: RD.Codec<RT.Namespace>, apiRsp: seq<RT.Profile>,
                   apiNs: seq<RT.Namespace>)
    returns (r: Option<RT.RuleTable>)
    requires cache.Valid() && pc.RoundTrips() && nc.RoundTrips()
    requires RD.Stamped(cache.log, "RSPLoader/list", 60, pc) && RD.Stamped(cache.log, "NamespaceLoader/list", 30, nc)
    requires Cold(cache.log, "RSPLoader/list", cache.clock.last) &&
             Cold(cache.log, "NamespaceLoader/list", cache.clock.last)
    modifies cache, cache.clock
    ensures r == RD.Derived(lm, apiRsp, apiNs, common, shieldNs)
  {
    hide RD.Derived, RD.Stamped, C.Agrees, C.LogEntry;
    var data := new RD.RunData(lm, common, shieldNs, cache, pc, nc);
    data.Init();
    ghost var src;
    r, src := data.GetRuleTable(Some(apiRsp), Some(apiNs));
  }
}
