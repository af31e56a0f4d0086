/** The admission decision: `shield/pkg/shield/handler.go`, the stages of `checkFunctions.go`,
    the predicates of `checkUtils.go` and the label of `utilPatch.go`. */
module Handler {
  import opened Text
  import opened Pattern
  import Tree
  import RT = RuleTable
  import Pol = Policy
  import Val = Validation
  import opened Patch

  // ---- What a run depends on ----

  datatype ReqContext = ReqContext(
    scope: string, dryRun: bool, name: string, namespace: string, apiGroup: string, apiVersion: string,
    kind: string, operation: string, userName: string, userGroups: seq<string>, rawObject: Tree.Json,
    rawOldObject: Option<Tree.Json>)

  /** `reqc.Map()`, as far as patterns look at it. */
  function FieldsOf(r: ReqContext): Fields {
    map["ResourceScope" := r.scope, "Name" := r.name, "Namespace" := r.namespace, "ApiGroup" := r.apiGroup,
        "ApiVersion" := r.apiVersion, "Kind" := r.kind, "Operation" := r.operation, "UserName" := r.userName]
  }

  /** The fields of a request under the names that patterns use. */
  lemma RequestFields(r: ReqContext)
    ensures var fields := FieldsOf(r);
            && Field(fields, "ResourceScope") == r.scope && Field(fields, "Namespace") == r.namespace
            && Field(fields, "Name") == r.name && Field(fields, "Kind") == r.kind
            && Field(fields, "ApiGroup") == r.apiGroup && Field(fields, "ApiVersion") == r.apiVersion
            && Field(fields, "Operation") == r.operation && Field(fields, "UserName") == r.userName
            && Field(fields, "Scope") == "" && Field(fields, "UserGroup") == ""
  {}

  /** Requests have no fields "Scope" and "UserGroup": a pattern that names one of them applies only
      if it matches the empty string there. */
  lemma UnknownFields(r: RequestPattern, req: ReqContext, strict: bool)
    requires RequestMatches(r, FieldsOf(req), strict)
    ensures r.scope.Some? ==> MatchPattern(r.scope.value, "")
    ensures r.userGroup.Some? ==> MatchPattern(r.userGroup.value, "")
  {
    hide MatchPattern;
    var ps, fields := NamedFields(r), FieldsOf(req);
    assert Field(fields, "Scope") == "" && Field(fields, "UserGroup") == "";
    assert FieldMatches(ps[0], fields, strict) && FieldMatches(ps[7], fields, strict);
  }

  datatype ResourceRef = ResourceRef(name: string, namespace: string, kind: string)

  datatype Config = Config(
    namespace: string, inScope: Option<RT.Selector>, ignore: seq<RequestPattern>, detectMode: bool, patch: bool,
    operatorResources: seq<ResourceRef>, serverResources: seq<ResourceRef>, operatorAccount: string,
    adminGroup: string, adminUser: string, serverUser: string)

  datatype SigInfo = SigInfo(checked: bool, allow: bool, signerName: string, uid: string)

  predicate Good(sig: SigInfo) { sig.checked && sig.allow }

  /** What the two evaluators may answer; each may also return an error. */
  datatype MutOutcome = MutError | MutResult(checked: bool, isMutated: bool)
  datatype SigOutcome = SigError(partial: Option<SigInfo>) | SigResult(info: SigInfo)

  /** Everything one run reads: the request, the configuration, the rule table as the scope test
      and as the protection test see it, the signer configuration, the object decoded for
      the format validation, and the evaluators. */
  datatype Run = Run(
    req: ReqContext, config: Config, scopeTable: Option<RT.RuleTable>, ruleTable: Option<RT.RuleTable>,
    signerConfig: Option<Pol.SignerConfig>, decoded: Val.Decoded,
    mutation: RT.Profile -> MutOutcome, signature: RT.Profile -> SigOutcome)

  // ---- The questions the stages ask ----

  function RequestNamespace(r: ReqContext): string { if r.kind != "Namespace" then r.namespace else "" }

  predicate NotMonitored(run: Run) {
    var ns := RequestNamespace(run.req);
    && ns != ""
    && !(run.config.inScope.Some? && RT.MatchNamespaceName(run.config.inScope.value, ns))
    && !(run.scopeTable.Some? && RT.CheckIfTargetNamespace(run.scopeTable.value, ns))
  }

  predicate Skipped(run: Run) {
    NotMonitored(run) || run.req.dryRun || SomeMatches(run.config.ignore, FieldsOf(run.req), false)
  }

  /** One of the shield's own resources is well formed; other resources always are. */
  predicate WellFormed(run: Run) {
    Val.Valid(run.req.kind, run.req.operation, run.req.namespace, run.config.namespace, run.decoded)
  }

  predicate RefersTo(refs: seq<ResourceRef>, r: ReqContext) {
    exists i :: 0 <= i < |refs| && refs[i] == ResourceRef(r.name, r.namespace, r.kind)
  }

  predicate ShieldResource(run: Run) {
    RefersTo(run.config.operatorResources, run.req) || RefersTo(run.config.serverResources, run.req)
  }

  predicate AdminRequest(run: Run) {
    || (run.config.adminGroup != "" && MatchPatternWithArray(run.config.adminGroup, run.req.userGroups))
    || (run.config.adminUser != "" && MatchPattern(run.config.adminUser, run.req.userName))
    || LifecycleManager(run.req.userName)
  }

  predicate LifecycleManager(user: string) {
    MatchPattern("system:serviceaccount:" + "openshift-operator-lifecycle-manager" + ":olm-operator-serviceaccount",
                 user)
  }

  /** This account is an administrator whatever the configuration says. */
  lemma LifecycleManagerExactly(user: string)
    ensures LifecycleManager(user) <==>
            user == "system:serviceaccount:" + "openshift-operator-lifecycle-manager" + ":olm-operator-serviceaccount"
  {
    hide MatchPattern, TrimSpace;
    ManagerPieces();
    ThreePieces("system:serviceaccount:", "openshift-operator-lifecycle-manager", ":olm-operator-serviceaccount", user);
  }

  lemma ManagerPieces()
    ensures var a, b, c := "system:serviceaccount:", "openshift-operator-lifecycle-manager",
                ":olm-operator-serviceaccount";
            ',' !in a && ',' !in b && ',' !in c && !IsSpace(a[0]) && !IsSpace(c[|c| - 1]) && c[|c| - 1] != '*'
  {}

  lemma ThreePieces(a: string, b: string, c: string, user: string)
    requires a != "" && c != "" && ',' !in a && ',' !in b && ',' !in c && |a| > 1
    requires !IsSpace(a[0]) && !IsSpace(c[|c| - 1]) && c[|c| - 1] != '*'
    ensures MatchPattern(a + b + c, user) <==> user == a + b + c
  {
    hide MatchPattern, TrimSpace;
    var x := a + b + c;
    assert x[0] == a[0] && x[|x| - 1] == c[|c| - 1] && |x| > 1;
    ExactPattern(x, user);
  }

  predicate ServerRequest(run: Run) { MatchPattern(run.config.serverUser, run.req.userName) }

  predicate OperatorRequest(run: Run) { run.config.operatorAccount == run.req.userName }

  /** Accounts of the cluster itself: service accounts of certain namespaces. */
  predicate SystemAccount(user: string) {
    exists i :: 0 <= i < 5 && HasPrefix(user, "system:serviceaccount:" + SystemNamespace(i))
  }

  function SystemNamespace(i: nat): string
    requires i < 5
  {
    ["kube-", "openshift-", "openshift:", "open-cluster-", "olm:"][i]
  }

  /** Operator resources are for admins and the operator, server resources for the operator and
      the server, both for the system's own accounts. */
  predicate PermittedAccount(run: Run) {
    || (RefersTo(run.config.operatorResources, run.req) &&
        (AdminRequest(run) || OperatorRequest(run) || SystemAccount(run.req.userName)))
    || (RefersTo(run.config.serverResources, run.req) &&
        (OperatorRequest(run) || ServerRequest(run) || SystemAccount(run.req.userName)))
  }

  /** The profiles that protect the request. */
  function Matched(run: Run): seq<RT.Profile> {
    if run.ruleTable.None? then [] else RT.Verdict(run.ruleTable.value, FieldsOf(run.req))
  }

  predicate IgnoreMatched(run: Run) {
    run.ruleTable.Some? &&
    exists i :: 0 <= i < |run.ruleTable.value.items| &&
                RT.IgnoredBy(run.ruleTable.value.items[i], FieldsOf(run.req), run.ruleTable.value.shieldNamespace)
  }

  // ---- One profile ----

  /** The update of an object that the mutation check finds unchanged needs no signature. */
  predicate Unchanged(run: Run, p: RT.Profile) {
    run.req.operation == "UPDATE" && run.mutation(p) == MutResult(true, false)
  }

  predicate MutationFails(run: Run, p: RT.Profile) { run.req.operation == "UPDATE" && run.mutation(p).MutError? }

  predicate AllowsBySignature(run: Run, p: RT.Profile) {
    !Unchanged(run, p) && !MutationFails(run, p) && run.signature(p).SigResult? && Good(run.signature(p).info)
  }

  predicate Allows(run: Run, p: RT.Profile) { Unchanged(run, p) || AllowsBySignature(run, p) }

  /** The signature result of one profile, if it gets that far. */
  function SigOf(run: Run, p: RT.Profile): Option<SigInfo> {
    if Unchanged(run, p) || MutationFails(run, p) then None
    else match run.signature(p)
      case SigError(partial) => partial
      case SigResult(info) => Some(info)
  }

  predicate AllAllow(run: Run, ps: seq<RT.Profile>) { forall i :: 0 <= i < |ps| ==> Allows(run, ps[i]) }

  // ---- The decision, said without the stages ----

  predicate Permits(run: Run) {
    || Skipped(run)
    || (WellFormed(run) && if ShieldResource(run) then PermittedAccount(run)
                     else run.req.operation == "DELETE" || AllAllow(run, Matched(run)))
  }

  predicate ReachesProfiles(run: Run) {
    !Skipped(run) && WellFormed(run) && !ShieldResource(run) && run.req.operation != "DELETE" && Matched(run) != []
  }

  /** Why the rules decide as they do. */
  function DecisionReason(run: Run): Reason {
    if Skipped(run) then Internal
    else if !WellFormed(run) then ValidationFail
    else if ShieldResource(run) then (if PermittedAccount(run) then ShieldAdmin else BlockShieldResource)
    else if run.req.operation == "DELETE" then SkipDelete
    else if Matched(run) == [] then (if IgnoreMatched(run) then IgnoreRuleMatched else NotProtected)
    else ProfilesReason(run, Matched(run))
  }

  /** The flag a run ends with.  Profiles only ever set it: the first one decides, and a denial
      by a later one leaves it on. */
  predicate VerifiedFlag(run: Run) {
    && !Skipped(run) && WellFormed(run)
    && if ShieldResource(run) then PermittedAccount(run)
       else run.req.operation == "DELETE" || Matched(run) == [] || Allows(run, Matched(run)[0])
  }

  predicate BreakGlassApplies(run: Run, d: Pol.BreakGlass) {
    if run.req.scope == "Namespaced" then !d.scope.Cluster? && run.req.namespace in d.namespaces else d.scope.Cluster?
  }

  predicate BreakGlassOn(run: Run) {
    run.signerConfig.Some? &&
    exists i :: 0 <= i < |run.signerConfig.value.breakGlass| &&
                BreakGlassApplies(run, run.signerConfig.value.breakGlass[i])
  }

  // ---- The mutable state of a run ----

  datatype Reason =
    | Internal | ValidationFail | ValidSig | NoMutation | ShieldAdmin | BlockShieldResource | SkipDelete
    | NotProtected | IgnoreRuleMatched | ProfileDenied | BreakGlassMode | Detection | Unexpected

  datatype DecisionType = Undetermined | Allow | Deny | Error

  datatype DecisionResult = DecisionResult(kind: DecisionType, reason: Reason, denied: Option<RT.Profile>)

  const UNDETERMINED := DecisionResult(Undetermined, Unexpected, None)

  const NO_SIG := SigInfo(false, false, "", "")

  class CheckContext {
    var allow: bool
    var verified: bool
    var protected: bool
    var shieldResource: bool
    var detectOnly: bool
    var breakGlass: bool
    var reason: Reason
    var sig: SigInfo

    constructor ()
      ensures !allow && !verified && !protected && !shieldResource && !detectOnly && !breakGlass && sig == NO_SIG
    {
      allow, verified, protected, shieldResource, detectOnly, breakGlass := false, false, false, false, false, false;
      reason, sig := Unexpected, NO_SIG;
    }
  }

  // ---- The stages ----

  method CheckIfInScopeNamespace(config: Config, ns: string) returns (b: bool)
    ensures b <==> config.inScope.Some? && RT.MatchNamespaceName(config.inScope.value, ns)
  {
    if config.inScope.None? { return false; }
    b := RT.SelectsName(config.inScope.value, ns);
  }

  method InScopeCheck(run: Run, ctx: CheckContext) returns (dr: DecisionResult)
    modifies ctx`allow, ctx`reason
    ensures dr.kind == if Skipped(run) then Allow else Undetermined
    ensures Skipped(run) ==> ctx.allow && dr.reason == ctx.reason == Internal
  {
    hide RT.MatchNamespaceName, SomeMatches;
    var ns := "";
    if run.req.kind != "Namespace" && run.req.namespace != "" { ns := run.req.namespace; }
    if ns != "" {
      var inScope := CheckIfInScopeNamespace(run.config, ns);
      if !inScope && (run.scopeTable.None? || !RT.CheckIfTargetNamespace(run.scopeTable.value, ns)) {
        ctx.allow, ctx.reason := true, Internal;
        return DecisionResult(Allow, Internal, None);
      }
    }
    if run.req.dryRun {
      ctx.allow, ctx.reason := true, Internal;
      return DecisionResult(Allow, Internal, None);
    }
    var ignored := AnyPattern(run.config.ignore, FieldsOf(run.req), false);
    if ignored {
      ctx.allow, ctx.reason := true, Internal;
      return DecisionResult(Allow, Internal, None);
    }
    return UNDETERMINED;
  }

  method FormatCheck(run: Run, ctx: CheckContext) returns (dr: DecisionResult)
    modifies ctx`allow, ctx`reason
    ensures dr.kind == if WellFormed(run) then Undetermined else Deny
    ensures !WellFormed(run) ==> !ctx.allow && dr.reason == ctx.reason == ValidationFail
  {
    var ok := Val.ValidateResource(run.req.kind, run.req.operation, run.req.namespace, run.config.namespace,
                                   run.decoded);
    if !ok {
      ctx.allow, ctx.reason := false, ValidationFail;
      return DecisionResult(Deny, ValidationFail, None);
    }
    return UNDETERMINED;
  }

  method IsOneOf(refs: seq<ResourceRef>, r: ReqContext) returns (b: bool)
    ensures b <==> RefersTo(refs, r)
  {
    for i := 0 to |refs|
      invariant forall j :: 0 <= j < i ==> refs[j] != ResourceRef(r.name, r.namespace, r.kind)
    {
      if refs[i].name == r.name && refs[i].namespace == r.namespace && refs[i].kind == r.kind { return true; }
    }
    return false;
  }

  method CheckIfAdminRequest(run: Run) returns (b: bool)
    ensures b <==> AdminRequest(run)
  {
    hide MatchPattern, MatchPatternWithArray, LifecycleManager;
    var groupMatched, userMatched := false, false;
    if run.config.adminGroup != "" {
      groupMatched := AnyValueMatches(run.config.adminGroup, run.req.userGroups);
    }
    if run.config.adminUser != "" { userMatched := MatchPattern(run.config.adminUser, run.req.userName); }
    if LifecycleManager(run.req.userName) { userMatched := true; }
    return groupMatched || userMatched;
  }

  /** `checkIfGarbageCollectorRequest` and `checkIfSpecialServiceAccountRequest`. */
  method CheckIfSystemRequest(user: string) returns (b: bool)
    ensures b <==> SystemAccount(user)
  {
    hide SystemNamespace;
    SystemNames();
    b := user == "system:serviceaccount:kube-system:generic-garbage-collector";
    if HasPrefix(user, "system:serviceaccount:kube-") {
      b := true;
    } else if HasPrefix(user, "system:serviceaccount:openshift-") {
      b := true;
    } else if HasPrefix(user, "system:serviceaccount:openshift:") {
      b := true;
    } else if HasPrefix(user, "system:serviceaccount:open-cluster-") {
      b := true;
    } else if HasPrefix(user, "system:serviceaccount:olm:") {
      b := true;
    }
  }

  lemma SystemNames()
    ensures "system:serviceaccount:" + SystemNamespace(0) == "system:serviceaccount:kube-"
    ensures "system:serviceaccount:" + SystemNamespace(1) == "system:serviceaccount:openshift-"
    ensures "system:serviceaccount:" + SystemNamespace(2) == "system:serviceaccount:openshift:"
    ensures "system:serviceaccount:" + SystemNamespace(3) == "system:serviceaccount:open-cluster-"
    ensures "system:serviceaccount:" + SystemNamespace(4) == "system:serviceaccount:olm:"
    ensures HasPrefix("system:serviceaccount:kube-system:generic-garbage-collector", "system:serviceaccount:kube-")
  {}

  method ShieldResourceCheck(run: Run, ctx: CheckContext) returns (dr: DecisionResult)
    modifies ctx`allow, ctx`verified, ctx`shieldResource, ctx`reason
    ensures dr.kind == if !ShieldResource(run) then Undetermined else if PermittedAccount(run) then Allow else Deny
    ensures ShieldResource(run) ==> ctx.allow == ctx.verified == PermittedAccount(run)
    ensures ShieldResource(run) ==>
              dr.reason == ctx.reason == if PermittedAccount(run) then ShieldAdmin else BlockShieldResource
    ensures ctx.shieldResource == (ShieldResource(run) || old(ctx.shieldResource))
    ensures !ShieldResource(run) ==> ctx.verified == old(ctx.verified)
  {
    hide RefersTo, AdminRequest, SystemAccount, MatchPattern;
    var isOperator := IsOneOf(run.config.operatorResources, run.req);
    var isServer := IsOneOf(run.config.serverResources, run.req);
    if !isOperator && !isServer { return UNDETERMINED; }
    ctx.shieldResource := true;
    var admin := CheckIfAdminRequest(run);
    var server := MatchPattern(run.config.serverUser, run.req.userName);
    var operator := run.config.operatorAccount == run.req.userName;
    var system := CheckIfSystemRequest(run.req.userName);
    if (isOperator && (admin || operator || system)) || (isServer && (operator || server || system)) {
      ctx.allow, ctx.verified, ctx.reason := true, true, ShieldAdmin;
      return DecisionResult(Allow, ShieldAdmin, None);
    }
    ctx.allow, ctx.verified, ctx.reason := false, false, BlockShieldResource;
    return DecisionResult(Deny, BlockShieldResource, None);
  }

  method DeleteCheck(run: Run, ctx: CheckContext) returns (dr: DecisionResult)
    modifies ctx`allow, ctx`verified, ctx`reason
    ensures dr.kind == if run.req.operation == "DELETE" then Allow else Undetermined
    ensures run.req.operation == "DELETE" ==> ctx.allow && dr.reason == ctx.reason == SkipDelete
    ensures ctx.verified == (run.req.operation == "DELETE" || old(ctx.verified))
  {
    if run.req.operation == "DELETE" {
      ctx.allow, ctx.verified, ctx.reason := true, true, SkipDelete;
      return DecisionResult(Allow, SkipDelete, None);
    }
    return UNDETERMINED;
  }

  method ProtectedCheck(run: Run, ctx: CheckContext) returns (dr: DecisionResult, profiles: seq<RT.Profile>)
    modifies ctx`allow, ctx`verified, ctx`protected, ctx`reason
    ensures dr.kind == if Matched(run) == [] then Allow else Undetermined
    ensures profiles == Matched(run) && ctx.protected == (profiles != [])
    ensures profiles == [] ==>
              ctx.allow && dr.reason == ctx.reason == if IgnoreMatched(run) then IgnoreRuleMatched else NotProtected
    ensures ctx.verified == (profiles == [] || old(ctx.verified))
  {
    hide RT.Verdict, RT.IgnoredBy;
    if run.ruleTable.None? {
      ctx.allow, ctx.verified, ctx.protected, ctx.reason := true, true, false, NotProtected;
      return DecisionResult(Allow, NotProtected, None), [];
    }
    var protected, ignoreMatched;
    protected, ignoreMatched, profiles := RT.CheckIfProtected(run.ruleTable.value, FieldsOf(run.req));
    if !protected {
      ctx.allow, ctx.verified, ctx.protected := true, true, false;
      ctx.reason := if ignoreMatched then IgnoreRuleMatched else NotProtected;
      return DecisionResult(Allow, ctx.reason, None), [];
    }
    ctx.protected := true;
    return UNDETERMINED, profiles;
  }

  /** `singleProfileCheck`: an unchanged update passes; otherwise the signature decides. */
  method SingleProfileCheck(run: Run, p: RT.Profile) returns (allowed: bool, reason: Reason, sig: Option<SigInfo>)
    ensures allowed == Allows(run, p) && reason == ProfileReason(run, p) && sig == SigOf(run, p)
  {
    if run.req.operation == "UPDATE" {
      var m := run.mutation(p);
      if m.MutError? { return false, ProfileDenied, None; }
      if m.checked && !m.isMutated { return true, NoMutation, None; }
    }
    var s := run.signature(p);
    if s.SigError? { return false, ProfileDenied, s.partial; }
    if s.info.checked && s.info.allow { return true, ValidSig, Some(s.info); }
    return false, ProfileDenied, Some(s.info);
  }

  /** The context keeps the latest signature result: a profile that needs none leaves it, and the
      verified flag, as an earlier profile set them.  First the verdict from the two evaluators'
      answers, then by name. */
  method ResourceSigningProfileCheck(run: Run, p: RT.Profile, ctx: CheckContext) returns (dr: DecisionResult)
    modifies ctx`allow, ctx`verified, ctx`reason, ctx`sig
    ensures var m, s, update := run.mutation(p), run.signature(p), run.req.operation == "UPDATE";
            if update && m == MutResult(true, false) then
              dr.kind == Allow && ctx.allow && ctx.reason == NoMutation && ctx.sig == old(ctx.sig)
            else if update && m == MutError then
              dr.kind == Deny && !ctx.allow && ctx.reason == ProfileDenied && ctx.sig == old(ctx.sig)
            else
              && (dr.kind == Allow <==> s.SigResult? && s.info.checked && s.info.allow)
              && (dr.kind == Allow ==> ctx.reason == ValidSig) && (dr.kind == Deny ==> ctx.reason == ProfileDenied)
              && (s.SigResult? ==> ctx.sig == s.info)
              && (s.SigError? ==> ctx.sig == if s.partial.Some? then s.partial.value else old(ctx.sig))
    ensures dr.kind == if Allows(run, p) then Allow else Deny
    ensures dr.denied == if Allows(run, p) then None else Some(p)
    ensures ctx.allow == Allows(run, p) && ctx.verified == (Allows(run, p) || old(ctx.verified))
    ensures dr.reason == ctx.reason == ProfileReason(run, p)
    ensures ctx.sig == SigAfterOne(run, p, old(ctx.sig))
  {
    var allowed, reason, sig := SingleProfileCheck(run, p);
    ctx.allow, ctx.reason := allowed, reason;
    if sig.Some? { ctx.sig := sig.value; }
    if allowed {
      ctx.verified := true;
      return DecisionResult(Allow, reason, None);
    }
    return DecisionResult(Deny, reason, Some(p));
  }

  function ProfileReason(run: Run, p: RT.Profile): Reason {
    if !Allows(run, p) then ProfileDenied else if AllowsBySignature(run, p) then ValidSig else NoMutation
  }

  function SigAfterOne(run: Run, p: RT.Profile, sig: SigInfo): SigInfo {
    if SigOf(run, p).Some? then SigOf(run, p).value else sig
  }

  /** The signature result after checking profiles in order, up to the first that denies. */
  function SigAfter(run: Run, ps: seq<RT.Profile>, sig: SigInfo): SigInfo
    decreases |ps|
  {
    if ps == [] then sig
    else if Allows(run, ps[0]) then SigAfter(run, ps[1..], SigAfterOne(run, ps[0], sig))
    else SigAfterOne(run, ps[0], sig)
  }

  /** The profile that denied: the first one that does not allow. */
  predicate FirstDenier(run: Run, ps: seq<RT.Profile>, p: RT.Profile) {
    exists i :: 0 <= i < |ps| && ps[i] == p && !Allows(run, p) && AllAllow(run, ps[..i])
  }

  /** There is only one. */
  lemma FirstDenierOnly(run: Run, ps: seq<RT.Profile>, p: RT.Profile, q: RT.Profile)
    requires FirstDenier(run, ps, p) && FirstDenier(run, ps, q)
    ensures p == q && p in ps && !Allows(run, p)
  {
    hide Allows;
    var i :| 0 <= i < |ps| && ps[i] == p && !Allows(run, p) && AllAllow(run, ps[..i]);
    var j :| 0 <= j < |ps| && ps[j] == q && !Allows(run, q) && AllAllow(run, ps[..j]);
    AllowedBefore(run, ps, i);
    AllowedBefore(run, ps, j);
  }

  lemma AllowedBefore(run: Run, ps: seq<RT.Profile>, i: nat)
    requires i <= |ps| && AllAllow(run, ps[..i])
    ensures forall j :: 0 <= j < i ==> Allows(run, ps[j])
  {
    hide Allows;
    assert forall j :: 0 <= j < i ==> ps[..i][j] == ps[j];
  }

  /** A denial, or else what the last profile found. */
  function ProfilesReason(run: Run, ps: seq<RT.Profile>): Reason
    requires ps != []
  {
    if AllAllow(run, ps) then ProfileReason(run, ps[|ps| - 1]) else ProfileDenied
  }

  method CheckProfiles(run: Run, ps: seq<RT.Profile>, ctx: CheckContext) returns (dr: DecisionResult)
    requires ps != []
    modifies ctx`allow, ctx`verified, ctx`reason, ctx`sig
    ensures dr.kind == if AllAllow(run, ps) then Allow else Deny
    ensures AllAllow(run, ps) ==> dr.denied.None?
    ensures !AllAllow(run, ps) ==> dr.denied.Some? && FirstDenier(run, ps, dr.denied.value)
    ensures ctx.allow == AllAllow(run, ps)
    ensures ctx.sig == SigAfter(run, ps, old(ctx.sig))
    ensures dr.reason == ctx.reason == ProfilesReason(run, ps)
    ensures ctx.verified == (Allows(run, ps[0]) || old(ctx.verified))
  {
    hide Allows, SigAfterOne, AllowsBySignature;
    dr := UNDETERMINED;
    for i := 0 to |ps|
      invariant forall j :: 0 <= j < i ==> Allows(run, ps[j])
      invariant i > 0 ==>
                  dr.kind == Allow && dr.denied.None? && ctx.allow && ctx.verified &&
                  dr.reason == ctx.reason == ProfileReason(run, ps[i - 1])
      invariant i == 0 ==> ctx.verified == old(ctx.verified)
      invariant SigAfter(run, ps, old(ctx.sig)) == SigAfter(run, ps[i..], ctx.sig)
    {
      assert ps[i..][1..] == ps[i + 1..];
      dr := ResourceSigningProfileCheck(run, ps[i], ctx);
      if dr.kind != Allow { return; }
    }
  }

  // ---- The handler ----

  datatype Response = Response(allowed: bool, reason: Reason, patch: Option<seq<PatchOp>>)

  function PatchEnabled(run: Run): bool {
    !(run.req.kind == "Policy" && run.req.apiGroup == "policy.open-cluster-management.io") && run.config.patch
  }

  const INTEGRITY_LABEL := "integrityshield.io/resourceIntegrity"
  const SIGNED_BY := "integrityshield.io/signedBy"
  const LAST_VERIFIED := "integrityshield.io/lastVerifiedTimestamp"
  const SIGNATURE_UID := "integrityshield.io/resourceSignatureUID"

  function DeleteKeys(): seq<string> { [INTEGRITY_LABEL, LAST_VERIFIED, SIGNED_BY, SIGNATURE_UID] }

  function LabelFor(allow: bool, sig: SigInfo, breakGlass: bool): Option<string> {
    if !allow then None
    else if sig.checked && sig.allow then Some("verified")
    else if breakGlass then Some("unverified")
    else None
  }

  function AnnotationsFor(mark: string, sig: SigInfo, now: string): map<string, string> {
    if mark != "verified" then map[]
    else map[LAST_VERIFIED := now] + (if sig.signerName != "" then map[SIGNED_BY := sig.signerName] else map[]) +
         (if sig.uid != "" then map[SIGNATURE_UID := sig.uid] else map[])
  }

  method ChooseLabel(allow: bool, sig: SigInfo, breakGlass: bool) returns (mark: Option<string>)
    ensures mark == LabelFor(allow, sig, breakGlass)
  {
    if !allow { return None; }
    mark := None;
    if sig.checked && sig.allow {
      mark := Some("verified");
    } else if breakGlass && !(sig.checked && sig.allow) {
      mark := Some("unverified");
    }
  }

  method MakeAnnotations(mark: string, sig: SigInfo, now: string) returns (annotations: map<string, string>)
    ensures annotations == AnnotationsFor(mark, sig, now)
  {
    hide LAST_VERIFIED, SIGNED_BY, SIGNATURE_UID;
    annotations := map[];
    if mark == "verified" {
      annotations := annotations[LAST_VERIFIED := now];
      if sig.signerName != "" { annotations := annotations[SIGNED_BY := sig.signerName]; }
      if sig.uid != "" { annotations := annotations[SIGNATURE_UID := sig.uid]; }
    }
  }

  method CheckIfPatchEnabled(run: Run) returns (b: bool)
    ensures b == PatchEnabled(run)
  {
    if run.req.kind == "Policy" && run.req.apiGroup == "policy.open-cluster-management.io" { return false; }
    return run.config.patch;
  }

  /** The label is on exactly when the patch is there, and the patch is the one for that label. */
  ghost predicate Carries(req: ReqContext, mark: Option<string>, sig: SigInfo, now: string,
                          patch: Option<seq<PatchOp>>) {
    && (mark.None? <==> patch.None?)
    && (mark.Some? ==>
          var labels, annotations := map[INTEGRITY_LABEL := mark.value], AnnotationsFor(mark.value, sig, now);
          patch.value == if Exists(req.rawObject, "metadata")
                         then Sections(req.rawObject, labels, annotations, DeleteKeys())
                         else Bare(req.name, labels, annotations))
  }

  class Handler {
    var ctx: CheckContext
    var logInScope: bool

    constructor ()
      ensures !logInScope
    {
      ctx := new CheckContext();
      logInScope := false;
    }

    method Check(run: Run) returns (dr: DecisionResult)
      requires ctx.sig == NO_SIG && !ctx.verified && !ctx.protected && !ctx.shieldResource
      modifies ctx`allow, ctx`verified, ctx`protected, ctx`shieldResource, ctx`reason, ctx`sig, this`logInScope
      ensures dr.kind == if Permits(run) then Allow else Deny
      ensures ctx.allow == Permits(run)
      ensures ctx.sig == FinalSig(run)
      ensures dr.reason == ctx.reason == DecisionReason(run)
      ensures ctx.verified == VerifiedFlag(run) && ctx.protected == ReachesProfiles(run)
      ensures ctx.shieldResource == (!Skipped(run) && WellFormed(run) && ShieldResource(run))
      ensures dr.denied.Some? <==> ReachesProfiles(run) && !AllAllow(run, Matched(run))
      ensures dr.denied.Some? ==> FirstDenier(run, Matched(run), dr.denied.value)
    {
      hide Skipped, WellFormed, ShieldResource, PermittedAccount, Matched, Allows, SigAfter, FirstDenier;
      hide ProfilesReason, IgnoreMatched;
      dr := InScopeCheck(run, ctx);
      if dr.kind != Undetermined { return dr.(denied := None); }
      logInScope := true;
      dr := FormatCheck(run, ctx);
      if dr.kind != Undetermined { return dr.(denied := None); }
      dr := ShieldResourceCheck(run, ctx);
      if dr.kind != Undetermined { return dr.(denied := None); }
      dr := DeleteCheck(run, ctx);
      if dr.kind != Undetermined { return dr.(denied := None); }
      var profiles;
      dr, profiles := ProtectedCheck(run, ctx);
      if dr.kind != Undetermined { return dr.(denied := None); }
      dr := CheckProfiles(run, profiles, ctx);
    }

    method CheckIfBreakGlassEnabled(run: Run) returns (enabled: bool)
      ensures enabled <==> BreakGlassOn(run)
    {
      if run.signerConfig.None? { return false; }
      var conditions := run.signerConfig.value.breakGlass;
      for i := 0 to |conditions|
        invariant forall j :: 0 <= j < i ==> !BreakGlassApplies(run, conditions[j])
      {
        if run.req.scope == "Namespaced" {
          if conditions[i].scope == Pol.Undefined || conditions[i].scope == Pol.Namespaced {
            for j := 0 to |conditions[i].namespaces|
              invariant run.req.namespace !in conditions[i].namespaces[..j]
            {
              if conditions[i].namespaces[j] == run.req.namespace { return true; }
            }
            assert conditions[i].namespaces[..|conditions[i].namespaces|] == conditions[i].namespaces;
          }
        } else if conditions[i].scope == Pol.Cluster {
          return true;
        }
      }
      return false;
    }

    /** Detection mode and break glass turn a denial into an allowed request. */
    method OverwriteDecision(run: Run, dr: DecisionResult) returns (r: DecisionResult)
      requires dr.kind == Allow || dr.kind == Deny
      modifies ctx`allow, ctx`detectOnly, ctx`breakGlass, ctx`reason
      ensures r.kind == if dr.kind == Allow || run.config.detectMode || BreakGlassOn(run) then Allow else Deny
      ensures ctx.allow ==
              ((dr.kind == Deny && (run.config.detectMode || BreakGlassOn(run))) || old(ctx.allow))
      ensures ctx.breakGlass ==
              (old(ctx.breakGlass) || (dr.kind == Deny && !run.config.detectMode && BreakGlassOn(run)))
      ensures ctx.detectOnly == (old(ctx.detectOnly) || (dr.kind == Deny && run.config.detectMode))
      ensures dr.reason == old(ctx.reason) ==>
                r.reason == ctx.reason ==
                if dr.kind == Allow then dr.reason
                else if run.config.detectMode then Detection
                else if BreakGlassOn(run) then BreakGlassMode
                else dr.reason
    {
      var isBreakGlass := CheckIfBreakGlassEnabled(run);
      var isDetectMode := run.config.detectMode;
      if !isBreakGlass && !isDetectMode { return dr; }
      if dr.kind != Allow && isDetectMode {
        ctx.allow, ctx.detectOnly, ctx.reason := true, true, Detection;
        return dr.(kind := Allow, reason := Detection);
      } else if dr.kind != Allow && isBreakGlass {
        ctx.allow, ctx.breakGlass, ctx.reason := true, true, BreakGlassMode;
        return dr.(kind := Allow, reason := BreakGlassMode);
      }
      return dr;
    }

    /** `generatePatchBytes`: no patch for a denial or without a label. */
    method GeneratePatch(run: Run, now: string) returns (patch: Option<seq<PatchOp>>)
      ensures Carries(run.req, LabelFor(ctx.allow, ctx.sig, ctx.breakGlass), ctx.sig, now, patch)
    {
      hide Sections, INTEGRITY_LABEL, LAST_VERIFIED, SIGNED_BY, SIGNATURE_UID, LabelFor, AnnotationsFor;
      var mark := ChooseLabel(ctx.allow, ctx.sig, ctx.breakGlass);
      if mark.None? { return None; }
      var annotations := MakeAnnotations(mark.value, ctx.sig, now);
      var deleteKeys := [INTEGRITY_LABEL, LAST_VERIFIED, SIGNED_BY, SIGNATURE_UID];
      var labels := map[INTEGRITY_LABEL := mark.value];
      var ops := CreateJSONPatch(run.req.name, run.req.rawObject, labels, annotations, deleteKeys);
      return Some(ops);
    }

    /** A whole run.  The response allows exactly what the rules permit, plus everything in
        detection mode or under break glass; the context always agrees with the response; and
        the label tells a signature that was really checked from one that was waived. */
    method HandleRequest(run: Run, now: string) returns (resp: Response, ghost mark: Option<string>)
      modifies this
      ensures fresh(ctx)
      ensures resp.allowed <==> Permits(run) || run.config.detectMode || BreakGlassOn(run)
      ensures ctx.allow == resp.allowed
      ensures resp.reason == ctx.reason ==
              if Permits(run) then DecisionReason(run) else if run.config.detectMode then Detection
              else if BreakGlassOn(run) then BreakGlassMode else DecisionReason(run)
      ensures ctx.detectOnly == (!Permits(run) && run.config.detectMode)
      ensures ctx.breakGlass == (!Permits(run) && !run.config.detectMode && BreakGlassOn(run))
      ensures ctx.verified == VerifiedFlag(run) && ctx.protected == ReachesProfiles(run)
      ensures ctx.sig == FinalSig(run) && Carries(run.req, mark, ctx.sig, now, resp.patch)
      ensures mark.Some? ==> PatchEnabled(run) && mark.value in {"verified", "unverified"}
      ensures mark == Some("verified") <==> PatchEnabled(run) && resp.allowed && Good(FinalSig(run))
      ensures NoEvalErrors(run) ==>
                && (mark == Some("verified") <==> PatchEnabled(run) && VerifiedRun(run))
                && (mark == Some("unverified") <==>
                    PatchEnabled(run) && !Permits(run) && !run.config.detectMode && BreakGlassOn(run))
      ensures ReachesProfiles(run) && run.req.operation == "UPDATE" &&
              (forall p :: p in Matched(run) ==> run.mutation(p) == MutResult(true, false)) ==>
                resp.allowed && resp.patch.None?
    {
      hide Permits, BreakGlassOn, PatchEnabled, DecisionReason, VerifiedFlag, ReachesProfiles, FinalSig, Matched;
      hide Allows, NoEvalErrors, VerifiedRun, Carries;
      ctx := new CheckContext();
      var dr := Check(run);
      dr := OverwriteDecision(run, dr);
      var allowed := if dr.kind == Undetermined || dr.kind == Error then false else dr.kind == Allow;
      var patch := None;
      mark := None;
      var patchEnabled := CheckIfPatchEnabled(run);
      if patchEnabled {
        patch := GeneratePatch(run, now);
        mark := LabelFor(ctx.allow, ctx.sig, ctx.breakGlass);
      } else {
        NoPatchCarriesNothing(run.req, ctx.sig, now);
      }
      if NoEvalErrors(run) { VerifiedExactly(run); }
      UnchangedRun(run);
      UnlabelledUnpatched(run.req, mark, ctx.sig, now, patch);
      resp := Response(allowed, dr.reason, patch);
    }
  }

  lemma UnlabelledUnpatched(req: ReqContext, mark: Option<string>, sig: SigInfo, now: string,
                            patch: Option<seq<PatchOp>>)
    ensures Carries(req, mark, sig, now, patch) && mark.None? ==> patch.None?
  {}

  lemma NoPatchCarriesNothing(req: ReqContext, sig: SigInfo, now: string)
    ensures Carries(req, None, sig, now, None)
  {}

  // ---- The label ----

  /** The evaluators answer without error, as the ones in the code always do. */
  ghost predicate NoEvalErrors(run: Run) {
    forall p :: !run.mutation(p).MutError? && !run.signature(p).SigError?
  }

  /** Every protecting profile allowed the request and at least one did so by signature. */
  predicate VerifiedRun(run: Run) {
    && ReachesProfiles(run) && AllAllow(run, Matched(run))
    && exists i :: 0 <= i < |Matched(run)| && AllowsBySignature(run, Matched(run)[i])
  }

  /** The signature result a run ends with. */
  function FinalSig(run: Run): SigInfo { if ReachesProfiles(run) then SigAfter(run, Matched(run), NO_SIG) else NO_SIG }

  lemma {:induction false} SigAfterMeaning(run: Run, ps: seq<RT.Profile>, sig: SigInfo)
    requires NoEvalErrors(run)
    ensures Good(SigAfter(run, ps, sig)) && AllAllow(run, ps) <==>
            AllAllow(run, ps) && (Good(sig) || exists i :: 0 <= i < |ps| && AllowsBySignature(run, ps[i]))
    ensures !AllAllow(run, ps) ==> !Good(SigAfter(run, ps, sig))
    decreases |ps|
  {
    if ps != [] {
      SigAfterMeaning(run, ps[1..], SigAfterOne(run, ps[0], sig));
      assert forall i :: 1 <= i < |ps| ==> ps[i] == ps[1..][i - 1];
      assert forall i :: 0 <= i < |ps[1..]| ==> ps[1..][i] == ps[i + 1];
      assert AllAllow(run, ps) <==> Allows(run, ps[0]) && AllAllow(run, ps[1..]);
    }
  }

  lemma VerifiedExactly(run: Run)
    requires NoEvalErrors(run)
    ensures Good(FinalSig(run)) <==> VerifiedRun(run)
    ensures VerifiedRun(run) ==> Permits(run)
  {
    hide Matched, Skipped, WellFormed, ShieldResource, SigAfter, Allows, AllowsBySignature;
    SigAfterMeaning(run, Matched(run), NO_SIG);
  }

  lemma {:induction false} UnchangedKeepsSig(run: Run, ps: seq<RT.Profile>, sig: SigInfo)
    requires forall p :: p in ps ==> Unchanged(run, p)
    ensures SigAfter(run, ps, sig) == sig && AllAllow(run, ps)
    decreases |ps|
  {
    if ps != [] {
      assert ps[0] in ps && forall p :: p in ps[1..] ==> p in ps;
      UnchangedKeepsSig(run, ps[1..], sig);
      assert forall i :: 1 <= i < |ps| ==> ps[i] == ps[1..][i - 1];
    }
  }

  /** An update that is unchanged for every profile is let through, and earns no label. */
  lemma UnchangedRun(run: Run)
    ensures ReachesProfiles(run) && run.req.operation == "UPDATE" &&
            (forall p :: p in Matched(run) ==> run.mutation(p) == MutResult(true, false)) ==>
              Permits(run) && !Good(FinalSig(run))
  {
    hide Matched, Skipped, WellFormed, ShieldResource, PermittedAccount, SigAfter, Allows;
    if run.req.operation == "UPDATE" && (forall p :: p in Matched(run) ==> run.mutation(p) == MutResult(true, false)) {
      UnchangedKeepsSig(run, Matched(run), NO_SIG);
    }
  }

  /** The kept signature result is the one before, or the answer for one of the profiles. */
  lemma {:induction false} SigAfterSource(run: Run, ps: seq<RT.Profile>, sig: SigInfo)
    ensures var r := SigAfter(run, ps, sig);
            r == sig || exists p :: p in ps && SigOf(run, p) == Some(r)
    decreases |ps|
  {
    hide SigOf;
    if ps != [] {
      SigAfterSource(run, ps[1..], SigAfterOne(run, ps[0], sig));
      assert ps == [ps[0]] + ps[1..];
    }
  }

  /** In a verified run it is the answer for a protecting profile that it let through by signature. */
  lemma VerifiedSource(run: Run) returns (p: RT.Profile)
    requires NoEvalErrors(run) && VerifiedRun(run)
    ensures p in Matched(run) && run.signature(p) == SigResult(FinalSig(run)) && Good(FinalSig(run))
  {
    hide Matched, Skipped, WellFormed, ShieldResource, SigAfter;
    VerifiedExactly(run);
    SigAfterSource(run, Matched(run), NO_SIG);
    p :| p in Matched(run) && SigOf(run, p) == Some(FinalSig(run));
  }

  /** The verified flag is no verdict: it is on in a denied run exactly when the first protecting
      profile allowed and a later one did not. */
  lemma VerifiedFlagAfterDenial(run: Run)
    ensures VerifiedFlag(run) && !Permits(run) <==>
            ReachesProfiles(run) && Allows(run, Matched(run)[0]) && !AllAllow(run, Matched(run))
  {
    hide Matched, Skipped, WellFormed, ShieldResource, PermittedAccount, Allows;
    assert Matched(run) == [] ==> AllAllow(run, Matched(run));
  }

  /** The assumption is needed: an evaluator that fails without a result would leave the good
      signature of an earlier profile in place although its own profile denies. */
  lemma ErrorKeepsEarlierSignature(run: Run, p: RT.Profile, q: RT.Profile)
    requires AllowsBySignature(run, p) && run.req.operation != "UPDATE" && run.signature(q) == SigError(None)
    ensures !AllAllow(run, [p, q]) && Good(SigAfter(run, [p, q], NO_SIG))
  {
    assert !Allows(run, [p, q][1]);
    assert [p, q][1..] == [q];
    assert SigAfter(run, [q], SigAfterOne(run, p, NO_SIG)) == SigAfterOne(run, p, NO_SIG);
  }

  // ---- The label on the object ----

  lemma KeysAreDotted()
    ensures Dotted(DeleteKeys()) && '.' in INTEGRITY_LABEL && '.' in LAST_VERIFIED && '.' in SIGNED_BY &&
            '.' in SIGNATURE_UID
  {
    assert INTEGRITY_LABEL[15] == '.' && LAST_VERIFIED[15] == '.' && SIGNED_BY[15] == '.' && SIGNATURE_UID[15] == '.';
  }

  lemma AnnotationKeysDiffer()
    ensures SIGNED_BY != LAST_VERIFIED && SIGNED_BY != SIGNATURE_UID && LAST_VERIFIED != SIGNATURE_UID
  {
    assert SIGNED_BY[19] == 's' && LAST_VERIFIED[19] == 'l' && SIGNATURE_UID[19] == 'r';
  }

  /** On an object with plain metadata the patch applies, sets this label and these annotations
      beside the old ones, and changes nothing else. */
  lemma LabelOnObject(req: ReqContext, mark: string, sig: SigInfo, now: string, patch: seq<PatchOp>)
    requires HasMetadata(req.rawObject) && PlainSection(req.rawObject, "labels") &&
             PlainSection(req.rawObject, "annotations")
    requires Carries(req, Some(mark), sig, now, Some(patch))
    ensures ApplyAll(req.rawObject, patch) ==
            Some(Patched(req.rawObject, map[INTEGRITY_LABEL := mark], AnnotationsFor(mark, sig, now)))
    ensures OldValues(ApplyAll(req.rawObject, patch).value, "labels") ==
            OldValues(req.rawObject, "labels")[INTEGRITY_LABEL := mark]
  {
    hide Sections, ApplyAll, PlainSection, OldValues, Patched, DeleteKeys, AnnotationsFor, INTEGRITY_LABEL, HasMetadata;
    hide Dotted, DottedMap, Carries;
    CarriesSections(req, mark, sig, now, patch);
    AllDotted(mark, sig, now);
    LabelPatch(req.rawObject, INTEGRITY_LABEL, mark, AnnotationsFor(mark, sig, now), DeleteKeys());
  }

  lemma CarriesSections(req: ReqContext, mark: string, sig: SigInfo, now: string, patch: seq<PatchOp>)
    requires HasMetadata(req.rawObject) && Carries(req, Some(mark), sig, now, Some(patch))
    ensures patch == Sections(req.rawObject, map[INTEGRITY_LABEL := mark], AnnotationsFor(mark, sig, now), DeleteKeys())
  {
    hide Sections, Bare, Exists, DeleteKeys, AnnotationsFor, INTEGRITY_LABEL;
    SectionLookup(req.rawObject, "labels");
  }

  lemma AllDotted(mark: string, sig: SigInfo, now: string)
    ensures Dotted(DeleteKeys()) && DottedMap(map[INTEGRITY_LABEL := mark]) && |map[INTEGRITY_LABEL := mark]| > 0
    ensures DottedMap(AnnotationsFor(mark, sig, now))
  {
    hide INTEGRITY_LABEL, LAST_VERIFIED, SIGNED_BY, SIGNATURE_UID, DeleteKeys;
    KeysAreDotted();
  }
}
