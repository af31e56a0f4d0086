/** Signature evaluation: `shield/pkg/shield/sign.go` and `signVerifier.go`.  Cryptography,
    decoding and the API server's dry run are parameters; which answers lead to an
    allowed request is what is modelled. */
module Signature {
  import opened Text
  import opened Policy
  import opened Matching
  import opened MaskLists
  import Diff
  import opened Compare
  import W = Wildcards

  datatype Signature = Signature(
    signType: SignType, message: string, yaml: Doc, signature: string, certificate: string, scope: string, uid: string,
    matchRequired: bool, scopedSignature: bool)

  datatype PgpResult = PgpError | PgpOk(signer: SignerInfo) | PgpFail
  datatype CheckResult = CheckError | CheckOk | CheckFail

  datatype Crypto = Crypto(
    pgp: (string, string, string) -> PgpResult,          // key path, message, signature
    certificate: (string, string) -> CheckResult,        // certificate, CA path
    x509: (string, string, string) -> CheckResult,       // message, signature, certificate
    certSigner: string -> SignerInfo,
    helm: Signature -> Option<SignerInfo>,
    loads: string -> bool)                               // the key ring or certificate directory is not empty

  // ---- GetResourceSignature ----

  /** A signature as stored in the annotations or in a ResourceSignature. */
  datatype Stored = Stored(
    signType: SignType, message: string, yaml: Doc, signature: string, certificate: string, scope: string, uid: string,
    generated: string)                                   // the message generated from the requested object

  /** The first source that has a signature: annotation, ResourceSignature, Helm release.  A
      message is generated only for a scope without a message; then the scope is checked
      instead of the message. */
  function GetResourceSignature(annotation: Option<Stored>, resSig: Option<Stored>, helm: Option<Signature>)
    : (r: Option<Signature>)
    requires annotation.Some? ==> !annotation.value.signType.HelmSig?
    requires resSig.Some? ==> !resSig.value.signType.HelmSig?
    requires helm.Some? ==> helm.value.signType.HelmSig?
    ensures r.None? <==> annotation.None? && resSig.None? && helm.None?
    ensures annotation.Some? ==> TakenFrom(annotation.value, r.value)
    ensures annotation.None? && resSig.Some? ==> TakenFrom(resSig.value, r.value)
    ensures annotation.None? && resSig.None? ==> r == helm
  {
    if annotation.Some? then Some(Load(annotation.value))
    else if resSig.Some? then Some(Load(resSig.value))
    else helm
  }

  /** The signature is the stored one.  Its message has to match the request, unless there is a scope
      and no message: then the message is generated from the request, and the scope is checked. */
  predicate TakenFrom(s: Stored, sig: Signature) {
    && sig.signType == s.signType && sig.yaml == s.yaml && sig.signature == s.signature
    && sig.certificate == s.certificate && sig.scope == s.scope && sig.uid == s.uid
    && (sig.matchRequired <==> s.message != "" || s.scope == "") && (sig.scopedSignature <==> !sig.matchRequired)
    && sig.message == if sig.matchRequired then s.message else s.generated
  }

  /** That leaves no choice. */
  lemma TakenFromOnly(s: Stored, a: Signature, b: Signature)
    requires TakenFrom(s, a) && TakenFrom(s, b)
    ensures a == b
  {}

  function Load(s: Stored): Signature {
    var scoped := s.message == "" && s.scope != "";
    Signature(s.signType, if scoped then s.generated else s.message, s.yaml, s.signature, s.certificate, s.scope,
              s.uid, !scoped, scoped)
  }

  // ---- Verify ----

  predicate PgpAccepts(cr: Crypto, sig: Signature, path: string) { cr.pgp(path, sig.message, sig.signature).PgpOk? }

  predicate X509Accepts(cr: Crypto, sig: Signature, path: string) {
    cr.certificate(sig.certificate, path).CheckOk? && cr.x509(sig.message, sig.signature, sig.certificate).CheckOk?
  }

  datatype VerifyResult = VerifyResult(signer: Option<SignerInfo>, verified: seq<string>, err: bool)

  predicate PgpErrs(cr: Crypto, sig: Signature, path: string) { cr.pgp(path, sig.message, sig.signature).PgpError? }

  predicate X509Errs(cr: Crypto, sig: Signature, path: string) {
    var cert := cr.certificate(sig.certificate, path);
    cert.CheckError? || (cert.CheckOk? && cr.x509(sig.message, sig.signature, sig.certificate).CheckError?)
  }

  /** The signer that the last accepting key reported. */
  function LastPgpSigner(cr: Crypto, sig: Signature, paths: seq<string>): Option<SignerInfo> {
    if paths == [] then None
    else
      var r := cr.pgp(paths[|paths| - 1], sig.message, sig.signature);
      if r.PgpOk? then Some(r.signer) else LastPgpSigner(cr, sig, paths[..|paths| - 1])
  }

  /** The PGP candidates: a failing key leaves an earlier signer in place. */
  method VerifyPgp(cr: Crypto, sig: Signature, paths: seq<string>) returns (r: VerifyResult)
    ensures r.err <==> exists i :: 0 <= i < |paths| && PgpErrs(cr, sig, paths[i])
    ensures !r.err ==>
              r.verified == Filter(paths, p => PgpAccepts(cr, sig, p)) && r.signer == LastPgpSigner(cr, sig, paths)
  {
    var f := p => PgpAccepts(cr, sig, p);
    r := VerifyResult(None, [], false);
    for i := 0 to |paths|
      invariant !r.err && r.verified == Filter(paths[..i], f) && r.signer == LastPgpSigner(cr, sig, paths[..i])
      invariant forall j :: 0 <= j < i ==> !PgpErrs(cr, sig, paths[j])
    {
      assert paths[..i + 1][..i] == paths[..i];
      match cr.pgp(paths[i], sig.message, sig.signature)
      case PgpError => return VerifyResult(None, [], true);
      case PgpOk(signer) => r := VerifyResult(Some(signer), r.verified + [paths[i]], false);
      case PgpFail =>
    }
    assert paths[..|paths|] == paths;
  }

  /** Every failing certificate or signature clears the signer, also one that a PGP key
      reported: what counts is the last path. */
  function SignerAfterX509(cr: Crypto, sig: Signature, paths: seq<string>,
                           pgp: Option<SignerInfo>): Option<SignerInfo> {
    if paths == [] then pgp
    else if X509Accepts(cr, sig, paths[|paths| - 1]) then Some(cr.certSigner(sig.certificate))
    else None
  }

  method VerifyX509(cr: Crypto, sig: Signature, paths: seq<string>, pgp: VerifyResult) returns (r: VerifyResult)
    requires !pgp.err
    ensures r.err <==> exists i :: 0 <= i < |paths| && X509Errs(cr, sig, paths[i])
    ensures !r.err ==>
              r.verified == pgp.verified + Filter(paths, p => X509Accepts(cr, sig, p)) &&
              r.signer == SignerAfterX509(cr, sig, paths, pgp.signer)
  {
    var f := p => X509Accepts(cr, sig, p);
    r := pgp;
    for i := 0 to |paths|
      invariant !r.err && r.verified == pgp.verified + Filter(paths[..i], f) &&
                r.signer == SignerAfterX509(cr, sig, paths[..i], pgp.signer)
      invariant forall j :: 0 <= j < i ==> !X509Errs(cr, sig, paths[j])
    {
      assert paths[..i + 1][..i] == paths[..i];
      match cr.certificate(sig.certificate, paths[i])
      case CheckError => return VerifyResult(None, [], true);
      case CheckFail => r := r.(signer := None);
      case CheckOk =>
        match cr.x509(sig.message, sig.signature, sig.certificate)
        case CheckError => return VerifyResult(r.signer, [], true);
        case CheckFail => r := r.(signer := None);
        case CheckOk => r := VerifyResult(Some(cr.certSigner(sig.certificate)), r.verified + [paths[i]], false);
    }
    assert paths[..|paths|] == paths;
  }

  function MountedSigner(cr: Crypto, sig: Signature, mounted: seq<string>): Option<SignerInfo> {
    if mounted == [] then None
    else
      var r := cr.pgp(mounted[0], sig.message, sig.signature);
      if Contains(mounted[0], "/pgp/") && r.PgpOk? then Some(r.signer) else MountedSigner(cr, sig, mounted[1..])
  }

  /** The trial over all mounted PGP keys, for the error message only: it may name a signer but
      adds no verified path. */
  method VerifyMounted(cr: Crypto, sig: Signature, mounted: seq<string>) returns (signer: Option<SignerInfo>)
    ensures signer == MountedSigner(cr, sig, mounted)
  {
    hide Contains;
    for i := 0 to |mounted|
      invariant MountedSigner(cr, sig, mounted) == MountedSigner(cr, sig, mounted[i..])
    {
      assert mounted[i..][1..] == mounted[i + 1..];
      if Contains(mounted[i], "/pgp/") {
        var ok := cr.pgp(mounted[i], sig.message, sig.signature);
        if ok.PgpOk? { return Some(ok.signer); }
      }
    }
    return None;
  }

  datatype Paths = Paths(pgp: seq<string>, x509: seq<string>, mounted: seq<string>)

  /** What was found out about message and scope before any key was tried. */
  datatype Gate = Gate(trials: seq<Trial>, matched: bool, scopeTrial: Trial, inScope: bool)

  predicate Open(sig: Signature, g: Gate) { (sig.matchRequired ==> g.matched) && (sig.scopedSignature ==> g.inScope) }

  /** The message was searched for if it has to match, and then the scope checked if there is one. */
  ghost predicate GateOf(kube: Kube, sig: Signature, req: Request, attrs: Attrs, g: Gate) {
    && (sig.matchRequired ==> Searched(kube, sig.yaml, req, attrs, sig.signType, g.trials, g.matched))
    && (sig.scopedSignature && (sig.matchRequired ==> g.matched) ==>
          ScopeVerdict(kube, sig.scope, req, g.scopeTrial, g.inScope))
  }

  /** What the signature demands of the request holds. */
  ghost predicate GatePasses(kube: Kube, sig: Signature, req: Request, attrs: Attrs) {
    && (sig.matchRequired ==> MessageAgrees(kube, sig.yaml, req, attrs, sig.signType))
    && (sig.scopedSignature ==> ScopeAgrees(kube, sig.scope, req))
  }

  ghost predicate GateFails(kube: Kube, sig: Signature, req: Request, attrs: Attrs) {
    || (sig.matchRequired && SearchFails(kube, sig.yaml, req, attrs, sig.signType))
    || (sig.scopedSignature && ScopeFails(kube, sig.scope, req))
  }

  /** All comparisons that the signature calls for end. */
  ghost predicate GateEnds(kube: Kube, sig: Signature, req: Request, attrs: Attrs) {
    && (sig.matchRequired ==> MatchingEnds(kube, sig.yaml, req, attrs, sig.signType))
    && (sig.scopedSignature ==> ScopeEnds(kube, sig.scope, req))
  }

  function FinalSigner(cr: Crypto, sig: Signature, paths: Paths): Option<SignerInfo> {
    var who := SignerAfterX509(cr, sig, paths.x509, LastPgpSigner(cr, sig, paths.pgp));
    if who.Some? then who else MountedSigner(cr, sig, paths.mounted)
  }

  /** The candidate paths that accept the signature. */
  function Accepting(cr: Crypto, sig: Signature, paths: Paths): seq<string> {
    Filter(paths.pgp, p => PgpAccepts(cr, sig, p)) + Filter(paths.x509, p => X509Accepts(cr, sig, p))
  }

  predicate Errs(cr: Crypto, sig: Signature, paths: Paths) {
    || (exists i :: 0 <= i < |paths.pgp| && PgpErrs(cr, sig, paths.pgp[i]))
    || (exists i :: 0 <= i < |paths.x509| && X509Errs(cr, sig, paths.x509[i]))
  }

  method CheckGate(kube: Kube, sig: Signature, req: Request, attrs: Attrs, patterns: seq<Diff.Difference>)
    returns (open: bool, ghost g: Gate)
    requires GateEnds(kube, sig, req, attrs)
    ensures GateOf(kube, sig, req, attrs, g) && (open <==> Open(sig, g))
    ensures if open then GatePasses(kube, sig, req, attrs) else GateFails(kube, sig, req, attrs)
  {
    hide Searched, ScopeVerdict, MatchingEnds, ScopeEnds, MessageAgrees, SearchFails, ScopeAgrees, ScopeFails;
    g := Gate([], false, NO_TRIAL, false);
    if sig.matchRequired {
      var matched;
      ghost var trials;
      matched, trials := MatchMessage(kube, sig.yaml, req, attrs, sig.signType, patterns);
      g := g.(trials := trials, matched := matched);
      if !matched { return false, g; }
    }
    if sig.scopedSignature {
      var holds;
      ghost var t;
      holds, t := CheckScope(kube, sig.scope, req);
      g := g.(scopeTrial := t, inScope := holds);
      if !holds { return false, g; }
    }
    return true, g;
  }

  method Verify(kube: Kube, cr: Crypto, sig: Signature, req: Request, attrs: Attrs, patterns: seq<Diff.Difference>,
                paths: Paths)
    returns (r: VerifyResult, ghost g: Gate)
    requires GateEnds(kube, sig, req, attrs)
    ensures GateOf(kube, sig, req, attrs, g)
    ensures !Open(sig, g) ==> r == VerifyResult(None, [], false)
    ensures Open(sig, g) ==> (r.err <==> Errs(cr, sig, paths))
    ensures Open(sig, g) && !r.err ==>
              r.signer == FinalSigner(cr, sig, paths) && r.verified == Accepting(cr, sig, paths)
    ensures || (GateFails(kube, sig, req, attrs) && r == VerifyResult(None, [], false))
            || (GatePasses(kube, sig, req, attrs) && (r.err <==> Errs(cr, sig, paths)) &&
                (!r.err ==> r.signer == FinalSigner(cr, sig, paths) && r.verified == Accepting(cr, sig, paths)))
  {
    hide GatePasses, GateFails;
    hide GateOf, GateEnds, Open, Filter, PgpErrs, X509Errs, LastPgpSigner, SignerAfterX509, MountedSigner;
    var open;
    open, g := CheckGate(kube, sig, req, attrs, patterns);
    if !open { return VerifyResult(None, [], false), g; }
    var pgp := VerifyPgp(cr, sig, paths.pgp);
    if pgp.err { return VerifyResult(None, [], true), g; }
    r := VerifyX509(cr, sig, paths.x509, pgp);
    if r.err { return; }
    if r.signer.None? {
      var alt := VerifyMounted(cr, sig, paths.mounted);
      r := r.(signer := alt);
    }
  }

  // ---- Eval ----

  datatype EvalResult = EvalResult(checked: bool, allow: bool, signer: Option<SignerInfo>, uid: string)

  method CountLoaded(cr: Crypto, paths: seq<string>) returns (n: nat)
    ensures n == 0 <==> forall i :: 0 <= i < |paths| ==> !cr.loads(paths[i])
  {
    n := 0;
    for i := 0 to |paths|
      invariant n == 0 <==> forall j :: 0 <= j < i ==> !cr.loads(paths[j])
    {
      if cr.loads(paths[i]) { n := n + 1; }
    }
  }

  predicate SomeLoads(cr: Crypto, paths: Paths) {
    || (exists i :: 0 <= i < |paths.pgp| && cr.loads(paths.pgp[i]))
    || (exists i :: 0 <= i < |paths.x509| && cr.loads(paths.x509[i]))
  }

  /** Exactly when a resource signature is allowed, for candidate paths `paths`. */
  ghost predicate Allowed(sm: SerialMatcher, kube: Kube, cr: Crypto, c: SignerConfig,
                          sig: Signature, req: Request, attrs: Attrs, paths: Paths, g: Gate) {
    && !sig.signType.HelmSig? && GateOf(kube, sig, req, attrs, g) && Open(sig, g)
    && !Errs(cr, sig, paths) && SomeLoads(cr, paths)
    && FinalSigner(cr, sig, paths).Some?
    && Accepts(sm, c, req.namespace, FinalSigner(cr, sig, paths).value, Accepting(cr, sig, paths))
  }

  /** The paths are the mounted ones that signers of the namespace's policies name. */
  ghost predicate CandidatePaths(c: SignerConfig, mounted: seq<string>, namespace: string, paths: Paths) {
    && paths.mounted == mounted
    && exists configs :: ConfigsFor(c, mounted, namespace, paths, configs)
  }

  ghost predicate ConfigsFor(c: SignerConfig, mounted: seq<string>, namespace: string, paths: Paths,
                             configs: seq<string>) {
    && (forall x :: x in configs <==> Named(c, namespace, x))
    && paths.pgp == Filter(mounted, p => Classify(configs, p) == Some(Pgp))
    && paths.x509 == Filter(mounted, p => Classify(configs, p) == Some(X509))
  }

  method Eval(sm: SerialMatcher, kube: Kube, cr: Crypto, c: SignerConfig, mounted: seq<string>,
              found: Option<Signature>, req: Request, attrs: Attrs, patterns: seq<Diff.Difference>)
    returns (r: EvalResult, ghost paths: Paths, ghost g: Gate)
    requires found.Some? && !found.value.signType.HelmSig? ==> GateEnds(kube, found.value, req, attrs)
    ensures r.checked
    ensures CandidatePaths(c, mounted, req.namespace, paths)
    ensures found.Some? && !found.value.signType.HelmSig? ==> GateOf(kube, found.value, req, attrs, g)
    ensures r.allow <==> found.Some? && Allowed(sm, kube, cr, c, found.value, req, attrs, paths, g)
    ensures r.allow ==> r.signer == FinalSigner(cr, found.value, paths) && r.uid == found.value.uid
  {
    hide GateOf, GateEnds, Open, Accepts, Named, Classify, Errs, FinalSigner, Accepting;
    g := Gate([], false, NO_TRIAL, false);
    var pgp, x509;
    ghost var configs;
    pgp, x509, configs := GetCandidatePubkeys(c, mounted, req.namespace);
    paths := Paths(pgp, x509, mounted);
    assert ConfigsFor(c, mounted, req.namespace, paths, configs);
    if found.None? { return EvalResult(true, false, None, ""), paths, g; }
    var sig := found.value;
    var loadedPgp := CountLoaded(cr, pgp);
    var loadedX509 := CountLoaded(cr, x509);
    var keyLoadingError := |pgp| + |x509| > 0 && loadedPgp + loadedX509 == 0;
    var v;
    if sig.signType.HelmSig? {
      v := VerifyResult(cr.helm(sig), [], false);
    } else {
      v, g := Verify(kube, cr, sig, req, attrs, patterns, Paths(pgp, x509, mounted));
    }
    if v.err { return EvalResult(true, false, None, sig.uid), paths, g; }
    if keyLoadingError { return EvalResult(true, false, None, sig.uid), paths, g; }
    if v.signer.None? { return EvalResult(true, false, None, sig.uid), paths, g; }
    var matched, condition := Match(sm, c, req.namespace, v.signer.value, v.verified);
    AcceptsNeedsPath(sm, c, req.namespace, v.signer.value, v.verified);
    assert v.verified != [] ==> |pgp| + |x509| > 0 by { AcceptingNeedsCandidate(cr, sig, paths); }
    r := EvalResult(true, matched, v.signer, sig.uid);
  }

  lemma AcceptingNeedsCandidate(cr: Crypto, sig: Signature, paths: Paths)
    ensures Accepting(cr, sig, paths) != [] ==> |paths.pgp| + |paths.x509| > 0
  {}

  /** Without a verified path nobody is accepted. */
  lemma AcceptsNeedsPath(sm: SerialMatcher, c: SignerConfig, namespace: string, who: SignerInfo, verified: seq<string>)
    ensures Accepts(sm, c, namespace, who, verified) ==> verified != []
  {
    if Accepts(sm, c, namespace, who, verified) { var path := AcceptedPath(sm, c, namespace, who, verified); }
  }

  /** Acceptance by a list of paths is acceptance by one of them. */
  lemma AcceptedPath(sm: SerialMatcher, c: SignerConfig, namespace: string, who: SignerInfo, verified: seq<string>)
    returns (path: string)
    requires Accepts(sm, c, namespace, who, verified)
    ensures path in verified && Accepts(sm, c, namespace, who, [path])
  {
    hide Applies, SubjectMatches, PathHas;
    var p :| 0 <= p < |c.policies| && Applies(c.policies[p], namespace) &&
             PolicyAccepts(sm, c, c.policies[p], who, verified);
    var k, i: nat :| 0 <= k < |c.policies[p].signers| && Owns(c.signers, c.policies[p].signers[k], i) &&
                     SignerAccepts(sm, c.signers[i], who, verified);
    var j :| 0 <= j < |verified| && PathHas(verified[j], c.signers[i].keyConfig);
    path := verified[j];
    assert PathHas([path][0], c.signers[i].keyConfig);
    assert SignerAccepts(sm, c.signers[i], who, [path]);
    assert PolicyAccepts(sm, c, c.policies[p], who, [path]);
  }

  // ---- What an allowed evaluation rests on ----

  /** A mounted path that a policy for the namespace names, and that accepts the signature. */
  ghost predicate AcceptingCandidate(c: SignerConfig, cr: Crypto, sig: Signature, mounted: seq<string>,
                                     namespace: string, path: string) {
    && path in mounted
    && NamedPath(c, namespace, path)
    && (PgpAccepts(cr, sig, path) || X509Accepts(cr, sig, path))
  }

  lemma VerifiedIsCandidate(c: SignerConfig, cr: Crypto, sig: Signature, mounted: seq<string>, namespace: string,
                            paths: Paths, path: string)
    requires CandidatePaths(c, mounted, namespace, paths) && path in Accepting(cr, sig, paths)
    ensures AcceptingCandidate(c, cr, sig, mounted, namespace, path)
  {
    hide NamedPath, Classify, PgpAccepts, X509Accepts, Filter;
    var configs :| ConfigsFor(c, mounted, namespace, paths, configs);
    FilterMember(paths.pgp, p => PgpAccepts(cr, sig, p), path);
    FilterMember(paths.x509, p => X509Accepts(cr, sig, p), path);
    CandidateMeaning(c, mounted, namespace, configs, path);
  }

  /** An allowed request agrees with the message or keeps within the scope, and a policy for its
      namespace lists the signer with the key configuration of a mounted path that is a candidate
      for this very namespace and that accepted the signature. */
  lemma AllowedIsJustified(sm: SerialMatcher, kube: Kube, cr: Crypto, c: SignerConfig, mounted: seq<string>,
                           sig: Signature, req: Request, attrs: Attrs, paths: Paths, g: Gate) returns (path: string)
    requires CandidatePaths(c, mounted, req.namespace, paths)
    requires Allowed(sm, kube, cr, c, sig, req, attrs, paths, g)
    ensures sig.matchRequired ==> MessageAgrees(kube, sig.yaml, req, attrs, sig.signType)
    ensures sig.scopedSignature ==> ScopeAgrees(kube, sig.scope, req)
    ensures AcceptingCandidate(c, cr, sig, mounted, req.namespace, path)
    ensures FinalSigner(cr, sig, paths).Some? &&
            Accepts(sm, c, req.namespace, FinalSigner(cr, sig, paths).value, [path])
  {
    hide Searched, MessageAgrees, Accepts, Accepting, CandidatePaths, AcceptingCandidate, Compared;
    if sig.matchRequired { MatchAgrees(kube, sig.yaml, req, attrs, sig.signType, g.trials); }
    path := AcceptedPath(sm, c, req.namespace, FinalSigner(cr, sig, paths).value, Accepting(cr, sig, paths));
    VerifiedIsCandidate(c, cr, sig, mounted, req.namespace, paths, path);
  }

  /** A stored message is always compared: no request is allowed by a signature that comes with a
      message, unless it agrees with that message or an object it stands for. */
  lemma StoredMessageCompared(sm: SerialMatcher, kube: Kube, cr: Crypto, c: SignerConfig,
                              annotation: Option<Stored>, resSig: Option<Stored>, helm: Option<Signature>,
                              req: Request, attrs: Attrs, paths: Paths, g: Gate)
    requires annotation.Some? ==> !annotation.value.signType.HelmSig?
    requires resSig.Some? ==> !resSig.value.signType.HelmSig?
    requires helm.Some? ==> helm.value.signType.HelmSig?
    requires var found := GetResourceSignature(annotation, resSig, helm);
             found.Some? && Allowed(sm, kube, cr, c, found.value, req, attrs, paths, g)
    ensures annotation.Some? && annotation.value.message != "" ==>
              MessageAgrees(kube, annotation.value.yaml, req, attrs, annotation.value.signType)
    ensures annotation.None? && resSig.Some? && resSig.value.message != "" ==>
              MessageAgrees(kube, resSig.value.yaml, req, attrs, resSig.value.signType)
    ensures annotation.Some? || resSig.Some?
  {
    hide Searched, MessageAgrees, Accepts, Accepting, FinalSigner, Errs, SomeLoads, Load;
    var sig := GetResourceSignature(annotation, resSig, helm).value;
    if sig.matchRequired { MatchAgrees(kube, sig.yaml, req, attrs, sig.signType, g.trials); }
  }

  /** Which paths accept: a PGP key that verifies message and signature, or a certificate directory
      under which the signature's certificate is valid and verifies them. */
  lemma AcceptingExactly(cr: Crypto, sig: Signature, paths: Paths, path: string)
    ensures path in Accepting(cr, sig, paths) <==>
            || (path in paths.pgp && exists who :: cr.pgp(path, sig.message, sig.signature) == PgpOk(who))
            || (path in paths.x509 && cr.certificate(sig.certificate, path) == CheckOk &&
                cr.x509(sig.message, sig.signature, sig.certificate) == CheckOk)
  {
    hide Filter;
    FilterMember(paths.pgp, p => PgpAccepts(cr, sig, p), path);
    FilterMember(paths.x509, p => X509Accepts(cr, sig, p), path);
    var answer := cr.pgp(path, sig.message, sig.signature);
    assert answer.PgpOk? <==> exists who :: answer == PgpOk(who);
  }

  /** Without protected attributes, an allowed request whose message had to match shows the values
      of the message, or of an object the message stands for, outside the masked keys. */
  lemma AllowedShowsSame(sm: SerialMatcher, kube: Kube, cr: Crypto, c: SignerConfig,
                         sig: Signature, req: Request, attrs: Attrs, paths: Paths, g: Gate) returns (i: nat)
    requires Allowed(sm, kube, cr, c, sig, req, attrs, paths, g) && sig.matchRequired && attrs.protect == []
    ensures MessageShown(kube, sig, req, attrs, i)
  {
    hide Searched;
    MatchAgrees(kube, sig.yaml, req, attrs, sig.signType, g.trials);
    i := AgreementShows(kube, sig, req, attrs);
  }

  /** The request shows the values of the object that the message stands for in case `i`; ignored
      attributes that are stable and free of wildcards mask both by one rule. */
  ghost predicate MessageShown(kube: Kube, sig: Signature, req: Request, attrs: Attrs, i: nat) {
    var doc, mask := CaseDoc(kube, sig.yaml, req.obj, i), CaseMask(attrs, i);
    && i < CaseCount(sig.signType) && (i > 0 ==> !NoDryRun(req))
    && doc.Some? && ShowsSame(kube, doc.value, req, mask)
    && (OneRule(attrs.ignore) ==> ByOneRule(kube, doc.value, req, mask))
  }

  lemma AgreementShows(kube: Kube, sig: Signature, req: Request, attrs: Attrs) returns (i: nat)
    requires MessageAgrees(kube, sig.yaml, req, attrs, sig.signType) && attrs.protect == []
    ensures MessageShown(kube, sig, req, attrs, i)
  {
    hide ShowsSame, Agrees, CaseMask, CaseDoc, OneRule, ByOneRule, NoDryRun;
    var j: nat, n: nat :| AgreesAt(kube, sig.yaml, req, attrs, sig.signType, j, n);
    i := j;
    NoFocus(n);
    var doc, mask := CaseDoc(kube, sig.yaml, req.obj, i).value, CaseMask(attrs, i);
    AgreesShows(kube, doc, req, mask);
    if OneRule(attrs.ignore) {
      CaseMaskOneRule(attrs, i);
      OneRuleMasks(kube, doc, req, mask);
    }
  }

  /** An update under a scoped signature shows the values of the old object outside the keys that
      the scope masks. */
  lemma ScopeShowsSame(sm: SerialMatcher, kube: Kube, cr: Crypto, c: SignerConfig,
                       sig: Signature, req: Request, attrs: Attrs, paths: Paths, g: Gate)
    requires Allowed(sm, kube, cr, c, sig, req, attrs, paths, g) && sig.scopedSignature
    ensures ScopeShown(kube, sig.scope, req)
  {
    hide Searched, Compared, ScopeMask, Accepts, FinalSigner, Accepting, ScopeShown;
    assert ScopeAgrees(kube, sig.scope, req);
    ScopeAgreementShows(kube, sig.scope, req);
  }

  ghost predicate ScopeShown(kube: Kube, scope: string, req: Request) {
    || req.operation == "CREATE"
    || (req.operation == "UPDATE" && req.oldVerified && ShowsSame(kube, req.oldObj, req, ScopeMask(scope)) &&
        (OneRule(SplitCommaSeparatedKeys(scope)) ==> ByOneRule(kube, req.oldObj, req, ScopeMask(scope))))
  }

  lemma ScopeAgreementShows(kube: Kube, scope: string, req: Request)
    requires ScopeAgrees(kube, scope, req)
    ensures ScopeShown(kube, scope, req)
  {
    hide Agrees, ShowsSame, MessageMask, SplitCommaSeparatedKeys, OneRule, ByOneRule;
    if req.operation != "CREATE" {
      AgreesShows(kube, req.oldObj, req, ScopeMask(scope));
      if OneRule(SplitCommaSeparatedKeys(scope)) {
        MessageMaskOneRule();
        OneRuleConcat(MessageMask(), SplitCommaSeparatedKeys(scope));
        OneRuleMasks(kube, req.oldObj, req, ScopeMask(scope));
      }
    }
  }

  /** With protected attributes, wildcards and unstable keys included: the request holds, under
      every key that has such an attribute as prefix, exactly the values of the message or of an
      object it stands for, when both can be focused. */
  lemma AllowedSharesFocus(sm: SerialMatcher, kube: Kube, cr: Crypto, c: SignerConfig,
                           sig: Signature, req: Request, attrs: Attrs, paths: Paths, g: Gate) returns (i: nat)
    requires Allowed(sm, kube, cr, c, sig, req, attrs, paths, g) && sig.matchRequired && attrs.protect != []
    ensures FocusShared(kube, sig, req, attrs, i)
  {
    hide Searched;
    MatchAgrees(kube, sig.yaml, req, attrs, sig.signType, g.trials);
    i := AgreementShares(kube, sig, req, attrs);
  }

  /** The request shares the focused values of the object that the message stands for in case `i`;
      attributes that are stable and free of wildcards focus both on the same prefixes. */
  ghost predicate FocusShared(kube: Kube, sig: Signature, req: Request, attrs: Attrs, i: nat) {
    var doc := CaseDoc(kube, sig.yaml, req.obj, i);
    && i < CaseCount(sig.signType) && (i > 0 ==> !NoDryRun(req)) && doc.Some?
    && (exists n: nat :: n <= i && SharesFocus(kube, doc.value, req, FocusAt(attrs.protect, n)))
    && (OneRule(attrs.protect) ==> SharesPrefixes(kube, doc.value, req, W.Rewritten(attrs.protect)))
  }

  lemma AgreementShares(kube: Kube, sig: Signature, req: Request, attrs: Attrs) returns (i: nat)
    requires MessageAgrees(kube, sig.yaml, req, attrs, sig.signType) && attrs.protect != []
    ensures FocusShared(kube, sig, req, attrs, i)
  {
    hide OneRule, Agrees, SharesFocus, SharesPrefixes, CaseMask, CaseDoc, FocusAt, NoDryRun;
    var j: nat, n: nat :| AgreesAt(kube, sig.yaml, req, attrs, sig.signType, j, n);
    i := j;
    var doc, mask := CaseDoc(kube, sig.yaml, req.obj, i).value, CaseMask(attrs, i);
    FocusLength(attrs.protect, n);
    FocusAgreement(kube, doc, req, FocusAt(attrs.protect, n), mask);
    if OneRule(attrs.protect) { PrefixAgreement(kube, doc, req, attrs.protect, n, mask); }
  }

  /** When no candidate accepted the signature, the trial over the mounted keys changes nothing:
      whoever it names, the request is not allowed. */
  lemma TrialNeverAllows(sm: SerialMatcher, kube: Kube, cr: Crypto, c: SignerConfig, mounted: seq<string>,
                         sig: Signature, req: Request, attrs: Attrs, paths: Paths, g: Gate)
    requires CandidatePaths(c, mounted, req.namespace, paths)
    requires forall path :: !AcceptingCandidate(c, cr, sig, mounted, req.namespace, path)
    ensures !Allowed(sm, kube, cr, c, sig, req, attrs, paths, g)
  {
    hide Allowed;
    if Allowed(sm, kube, cr, c, sig, req, attrs, paths, g) {
      var path := AllowedIsJustified(sm, kube, cr, c, mounted, sig, req, attrs, paths, g);
    }
  }

  /** Every key that accepts the signature, candidate or mounted, names one and the same signer. */
  predicate OneIdentity(cr: Crypto, sig: Signature, paths: Paths, who: SignerInfo) {
    && (forall p :: p in paths.pgp + paths.mounted && PgpAccepts(cr, sig, p) ==>
          cr.pgp(p, sig.message, sig.signature).signer == who)
    && (forall p :: p in paths.x509 && X509Accepts(cr, sig, p) ==> cr.certSigner(sig.certificate) == who)
  }

  lemma {:induction false} LastPgpAgrees(cr: Crypto, sig: Signature, paths: seq<string>, who: SignerInfo)
    requires forall p :: p in paths && PgpAccepts(cr, sig, p) ==> cr.pgp(p, sig.message, sig.signature).signer == who
    ensures LastPgpSigner(cr, sig, paths).Some? ==> LastPgpSigner(cr, sig, paths) == Some(who)
  {
    if paths != [] {
      assert paths[|paths| - 1] in paths;
      LastPgpAgrees(cr, sig, paths[..|paths| - 1], who);
    }
  }

  lemma {:induction false} MountedAgrees(cr: Crypto, sig: Signature, paths: seq<string>, who: SignerInfo)
    requires forall p :: p in paths && PgpAccepts(cr, sig, p) ==> cr.pgp(p, sig.message, sig.signature).signer == who
    ensures MountedSigner(cr, sig, paths).Some? ==> MountedSigner(cr, sig, paths) == Some(who)
  {
    if paths != [] {
      assert paths[0] in paths;
      MountedAgrees(cr, sig, paths[1..], who);
    }
  }

  /** Then the signer the policy is asked about is the one the accepting key itself names. */
  lemma SignerOfAcceptingKey(cr: Crypto, sig: Signature, paths: Paths, who: SignerInfo)
    requires OneIdentity(cr, sig, paths, who) && FinalSigner(cr, sig, paths).Some?
    ensures FinalSigner(cr, sig, paths) == Some(who)
  {
    hide LastPgpSigner, MountedSigner;
    LastPgpAgrees(cr, sig, paths.pgp, who);
    MountedAgrees(cr, sig, paths.mounted, who);
    if paths.x509 != [] { assert paths.x509[|paths.x509| - 1] in paths.x509; }
  }

  // ---- Whose identity the policies are asked about ----

  /** An accepting candidate names the signer. */
  ghost predicate NamedByCandidate(cr: Crypto, sig: Signature, paths: Paths, who: SignerInfo) {
    || (exists p :: p in paths.pgp && cr.pgp(p, sig.message, sig.signature) == PgpOk(who))
    || (exists p :: p in paths.x509 && X509Accepts(cr, sig, p) && cr.certSigner(sig.certificate) == who)
  }

  /** The candidates settle the signer: the last certificate accepts, or there is none and some
      PGP key accepts. */
  predicate CandidatesDecide(cr: Crypto, sig: Signature, paths: Paths) {
    if paths.x509 == [] then exists i :: 0 <= i < |paths.pgp| && PgpAccepts(cr, sig, paths.pgp[i])
    else X509Accepts(cr, sig, paths.x509[|paths.x509| - 1])
  }

  lemma {:induction false} LastPgpNamed(cr: Crypto, sig: Signature, paths: seq<string>)
    ensures LastPgpSigner(cr, sig, paths).Some? <==> exists i :: 0 <= i < |paths| && PgpAccepts(cr, sig, paths[i])
    ensures LastPgpSigner(cr, sig, paths).Some? ==>
              exists p :: p in paths &&
                          cr.pgp(p, sig.message, sig.signature) == PgpOk(LastPgpSigner(cr, sig, paths).value)
  {
    if paths != [] {
      var n := |paths| - 1;
      LastPgpNamed(cr, sig, paths[..n]);
      assert paths[n] in paths && forall i :: 0 <= i < n ==> paths[..n][i] == paths[i];
    }
  }

  /** The policies are asked about a signer that an accepting candidate names, if and only if the
      candidates settle the signer, or else the first accepting mounted key names one that an
      accepting candidate names too. */
  lemma SignerNamedExactly(cr: Crypto, sig: Signature, paths: Paths)
    requires FinalSigner(cr, sig, paths).Some?
    ensures NamedByCandidate(cr, sig, paths, FinalSigner(cr, sig, paths).value) <==>
            || CandidatesDecide(cr, sig, paths)
            || (MountedSigner(cr, sig, paths.mounted).Some? &&
                NamedByCandidate(cr, sig, paths, MountedSigner(cr, sig, paths.mounted).value))
  {
    hide LastPgpSigner, MountedSigner, X509Accepts, PgpAccepts;
    LastPgpNamed(cr, sig, paths.pgp);
    if CandidatesDecide(cr, sig, paths) && paths.x509 != [] { assert paths.x509[|paths.x509| - 1] in paths.x509; }
  }

  // ---- An input on which they are not ----

  /** Two PGP keys that accept everything under different names, and no certificate that does. */
  function TwoKeys(alice: SignerInfo, bob: SignerInfo): Crypto {
    Crypto((path, _, _) =>
             if path == "/a/pgp/" then PgpOk(alice) else if path == "/b/pgp/" then PgpOk(bob) else PgpFail,
           (_, _) => CheckFail, (_, _, _) => CheckFail, _ => alice, _ => None, _ => true)
  }

  /** Only the key of one is a candidate, but a failing certificate clears the signer, and the
      trial over the mounted keys then names the other. */
  lemma MountedSignerTakesOver(alice: SignerInfo, bob: SignerInfo, sig: Signature)
    requires alice != bob
    ensures var cr, paths := TwoKeys(alice, bob), Paths(["/a/pgp/"], ["/c/x509/"], ["/b/pgp/", "/a/pgp/", "/c/x509/"]);
            && Accepting(cr, sig, paths) == ["/a/pgp/"] && FinalSigner(cr, sig, paths) == Some(bob)
            && !NamedByCandidate(cr, sig, paths, bob)
  {
    hide TwoKeys, Filter, MountedSigner;
    var cr, paths := TwoKeys(alice, bob), Paths(["/a/pgp/"], ["/c/x509/"], ["/b/pgp/", "/a/pgp/", "/c/x509/"]);
    KeyAnswers(alice, bob, sig);
    FilterOne("/a/pgp/", p => PgpAccepts(cr, sig, p));
    FilterOne("/c/x509/", p => X509Accepts(cr, sig, p));
    assert OccursAt("/b/pgp/", "/pgp/", 2);
    FirstMounted(cr, sig, paths.mounted);
  }

  lemma KeyAnswers(alice: SignerInfo, bob: SignerInfo, sig: Signature)
    ensures var cr := TwoKeys(alice, bob);
            && cr.pgp("/a/pgp/", sig.message, sig.signature) == PgpOk(alice)
            && cr.pgp("/b/pgp/", sig.message, sig.signature) == PgpOk(bob)
            && cr.certificate(sig.certificate, "/c/x509/") == CheckFail
  {
    assert "/a/pgp/"[1] != "/b/pgp/"[1];
  }

  lemma FilterOne(x: string, f: string -> bool)
    ensures Filter([x], f) == if f(x) then [x] else []
  {
    assert [x][..0] == [];
  }

  lemma FirstMounted(cr: Crypto, sig: Signature, mounted: seq<string>)
    requires mounted != [] && Contains(mounted[0], "/pgp/")
    ensures var r := cr.pgp(mounted[0], sig.message, sig.signature);
            r.PgpOk? ==> MountedSigner(cr, sig, mounted) == Some(r.signer)
  {
    hide Contains;
  }
}
