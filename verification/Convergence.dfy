/** Progress and safety of repeated `Reconcile` calls, under any API failures. */
module Convergence {
  import opened Text
  import opened Reconcile

  // ---- What the plan looks like ----

  ghost predicate Planned(inst: Instance, steps: seq<Step>) {
    forall s :: s in steps ==>
          s.id.kind != MutatingWebhookConfiguration && (s.id.kind == Deployment ==> s == DeploymentStep(inst))
  }

  lemma CrdPlanned(inst: Instance)
    ensures Planned(inst, CrdSteps(inst))
  {
    hide ShieldConfigCrd, SignerConfigCrd, ResourceSignatureCrd, ResourceSigningProfileCrd, HelmReleaseMetadataCrd;
  }

  lemma CrPlanned(inst: Instance)
    ensures Planned(inst, CrSteps(inst))
  {}

  lemma AccountPlanned(inst: Instance)
    ensures Planned(inst, AccountSteps(inst))
  {}

  lemma AdminPlanned(inst: Instance)
    ensures Planned(inst, AdminSteps(inst))
  {
    hide AdminClusterRole, AdminClusterRoleBinding;
  }

  lemma ServerPlanned(inst: Instance)
    ensures Planned(inst, ServerSteps(inst))
  {}

  lemma PlanPlanned(inst: Instance)
    ensures Planned(inst, Plan(inst)) && DeploymentStep(inst) in Plan(inst)
  {
    hide CrdSteps, CrSteps, AccountSteps, AdminSteps, DeploymentStep;
    CrdPlanned(inst); CrPlanned(inst); AccountPlanned(inst); AdminPlanned(inst); ServerPlanned(inst);
    assert ServerSteps(inst)[1] == DeploymentStep(inst);
  }

  // ---- The measure ----

  function DeploymentId(inst: Instance): Id { Id(Deployment, inst.name) }

  ghost function Wanted(inst: Instance, steps: seq<Step>): set<Id> {
    (set s | s in steps :: s.id) + {WebhookId(inst)}
  }

  ghost predicate Stale(inst: Instance, objects: Objects) {
    DeploymentId(inst) in objects && !inst.sameDeployment(DeploymentStep(inst).expected, objects[DeploymentId(inst)])
  }

  ghost function Missing(inst: Instance, objects: Objects): nat {
    |Wanted(inst, Plan(inst)) - objects.Keys|
  }

  /** Resources still missing, the webhook among them, plus one for a stale deployment. */
  ghost function Rank(inst: Instance, objects: Objects): nat {
    Missing(inst, objects) + if Stale(inst, objects) then 1 else 0
  }

  // ---- What one call can do ----

  datatype Effect = Kept | Added(id: Id) | RolledOut | Removed

  ghost predicate SameDeployment(inst: Instance, before: Objects, after: Objects) {
    DeploymentId(inst) in before ==>
          DeploymentId(inst) in after && after[DeploymentId(inst)] == before[DeploymentId(inst)]
  }

  ghost predicate Explains(inst: Instance, before: Objects, after: Objects, e: Effect) {
    match e
    case Kept => after.Keys == before.Keys && SameDeployment(inst, before, after)
    case Added(id) =>
      && id !in before && after.Keys == before.Keys + {id}
      && (id == DeploymentId(inst) ==> after[id] == DeploymentStep(inst).expected)
      && (id != DeploymentId(inst) ==> SameDeployment(inst, before, after))
    case RolledOut =>
      && Stale(inst, before) && after.Keys == before.Keys
      && after[DeploymentId(inst)] == DeploymentStep(inst).expected
    case Removed =>
      && WebhookId(inst) in before && after.Keys == before.Keys - {WebhookId(inst)}
      && SameDeployment(inst, before, after)
  }

  ghost predicate Faultless(api: Api) { api.fails == {} && api.taken == {} }

  ghost predicate AllPresent(steps: seq<Step>, objects: Objects) {
    forall s :: s in steps ==> s.id in objects
  }

  /** One step: what it changed, and exactly when it passes. */
  lemma StepEffect(inst: Instance, objects: Objects, step: Step, api: Api) returns (e: Effect)
    requires step.id.kind == Deployment ==> step == DeploymentStep(inst)
    ensures var (o, r) := StepOn(inst, objects, step, api);
            && Explains(inst, objects, o, e) && e != Removed
            && (e.Added? ==> e.id == step.id)
            && (e != Kept ==> r == Requeue)
            && (r == Done ==> step.id in objects && (step.id.kind == Deployment ==> !Stale(inst, objects)))
            && (Faultless(api) ==> r != Error && (r == Requeue ==> e != Kept))
            && (Faultless(api) && step.id in objects && !(step.id.kind == Deployment && Stale(inst, objects)) ==>
                  r == Done)
  {
    var (o, r) := StepOn(inst, objects, step, api);
    if step.id !in objects && step.id in o {
      e := Added(step.id);
    } else if step.id.kind == Deployment && step.id in objects && r == Requeue {
      e := RolledOut;
    } else {
      e := Kept;
    }
  }

  /** A run of steps: at most one change that is not an inline update, and only in a run that
      ends with a requeue. */
  lemma {:induction false} RunEffect(inst: Instance, objects: Objects, steps: seq<Step>, api: Api) returns (e: Effect)
    requires Planned(inst, steps)
    ensures var (o, r) := RunOn(inst, objects, steps, api);
            && Explains(inst, objects, o, e) && e != Removed
            && (e.Added? ==> exists s :: s in steps && s.id == e.id)
            && (e != Kept ==> r == Requeue)
            && (r == Done ==> AllPresent(steps, objects) && (DeploymentStep(inst) in steps ==> !Stale(inst, objects)))
            && (Faultless(api) ==> r != Error && (r == Requeue ==> e != Kept))
            && (Faultless(api) && AllPresent(steps, objects) && !Stale(inst, objects) ==> r == Done)
  {
    hide StepOn;
    if steps == [] { return Kept; }
    assert steps[0] in steps;
    e := StepEffect(inst, objects, steps[0], api);
    var (o, r) := StepOn(inst, objects, steps[0], api);
    if r == Done {
      assert steps == [steps[0]] + steps[1..];
      e := RunEffect(inst, o, steps[1..], api);
    }
  }

  /** A whole call: the effect, the result, and the only way to change the webhook. */
  lemma CallEffect(inst: Instance, objects: Objects, api: Api) returns (e: Effect)
    ensures var (o, r) := CallOn(inst, objects, api);
            && Explains(inst, objects, o, e)
            && (e.Added? ==> e.id in Wanted(inst, Plan(inst)))
            && (e != Kept ==> r == Requeue)
            && (e == Added(WebhookId(inst)) ==> Ready(inst, objects, api))
            && (e == Removed ==> Installed(inst, objects) && !Available(inst, objects, api))
            && (r == Done ==> Ready(inst, objects, api) && WebhookId(inst) in objects)
            && (Faultless(api) ==>
                  r != Error && (KeysReady(inst, objects, api) && api.replicas > 0 && r == Requeue ==> e != Kept))
            && (Faultless(api) && Ready(inst, objects, api) && WebhookId(inst) in objects ==> r == Done)
  {
    hide RunOn, KeysReady, Plan, StepOn;
    PlanPlanned(inst);
    e := RunEffect(inst, objects, Plan(inst), api);
    var (o, r) := RunOn(inst, objects, Plan(inst), api);
    if !KeysReady(inst, objects, api) {
      e := Kept;
    } else if r == Done {
      assert Available(inst, o, api) <==> Available(inst, objects, api);
      if Available(inst, o, api) {
        e := StepEffect(inst, o, WebhookStep(inst), api);
      } else if WebhookId(inst) in objects && (DeleteOn(o, WebhookId(inst), api).1 != Error) {
        e := Removed;
      }
    }
  }

  /** Everything before the webhook is in place. */
  ghost predicate Installed(inst: Instance, objects: Objects) {
    AllPresent(Plan(inst), objects) && !Stale(inst, objects)
  }

  ghost predicate Ready(inst: Instance, objects: Objects, api: Api) {
    KeysReady(inst, objects, api) && Installed(inst, objects) && Available(inst, objects, api)
  }

  /** Safety of a call, whatever fails: it adds at most one resource and removes at most the
      webhook; the webhook comes only when everything before it was in place and the deployment
      available; a call that gets to the webhook while the deployment is unavailable leaves none
      (unless the deletion itself fails) and never reports success. */
  lemma WebhookSafety(inst: Instance, objects: Objects, api: Api)
    ensures var (o, r) := CallOn(inst, objects, api);
            && (o.Keys <= objects.Keys ||
                exists id :: id in Wanted(inst, Plan(inst)) && id !in objects && o.Keys == objects.Keys + {id})
            && objects.Keys - {WebhookId(inst)} <= o.Keys
            && (WebhookId(inst) in o.Keys - objects.Keys ==> Ready(inst, objects, api))
            && (WebhookId(inst) in objects.Keys - o.Keys ==> Installed(inst, objects) && !Available(inst, objects, api))
            && (r == Done ==> o.Keys == objects.Keys && Ready(inst, objects, api) && WebhookId(inst) in o)
    ensures var (o, r) := CallOn(inst, objects, api);
            KeysReady(inst, objects, api) && RunOn(inst, objects, Plan(inst), api).1 == Done &&
            !Available(inst, objects, api) ==>
              r == Error || (r == Requeue && WebhookId(inst) !in o)
  {
    hide RunOn, KeysReady, Plan, StepOn, Installed, Ready, Wanted;
    var e := CallEffect(inst, objects, api);
    PlanPlanned(inst);
    var e' := RunEffect(inst, objects, Plan(inst), api);
  }

  lemma RankZero(inst: Instance, objects: Objects)
    ensures Rank(inst, objects) == 0 <==> Installed(inst, objects) && WebhookId(inst) in objects
  {
    hide Plan, Wanted, Stale, AllPresent, WebhookId;
    WantedPresent(inst, Plan(inst), objects);
    NothingMissing(Wanted(inst, Plan(inst)), objects.Keys);
  }

  lemma WantedPresent(inst: Instance, steps: seq<Step>, objects: Objects)
    ensures Wanted(inst, steps) <= objects.Keys <==> AllPresent(steps, objects) && WebhookId(inst) in objects
  {
    hide WebhookId;
    assert WebhookId(inst) in Wanted(inst, steps);
    forall s | s in steps ensures s.id in Wanted(inst, steps) {}
  }

  lemma NothingMissing(wanted: set<Id>, present: set<Id>)
    ensures |wanted - present| == 0 <==> wanted <= present
  {
    if wanted <= present { assert wanted - present == {}; }
    if wanted - present == {} {
      forall id | id in wanted ensures id in present { assert id !in wanted - present; }
    }
  }

  /** Without faults a call succeeds exactly when the keys are there, nothing is missing or
      stale, and the deployment is available. */
  lemma DoneExactly(inst: Instance, objects: Objects, api: Api)
    requires Faultless(api)
    ensures CallOn(inst, objects, api).1 == Done <==>
            KeysReady(inst, objects, api) && api.replicas > 0 && Rank(inst, objects) == 0
  {
    hide CallOn, KeysReady, Plan, Rank;
    var e := CallEffect(inst, objects, api);
    RankZero(inst, objects);
    PlanPlanned(inst);
    assert AllPresent(Plan(inst), objects) ==> DeploymentStep(inst).id in objects;
  }

  lemma OneLess(wanted: set<Id>, fewer: set<Id>, more: set<Id>, id: Id)
    requires id in wanted && id !in fewer && more == fewer + {id}
    ensures |wanted - more| == |wanted - fewer| - 1
  {
    assert wanted - fewer == (wanted - more) + {id};
  }

  lemma MissingAfter(inst: Instance, before: Objects, after: Objects, e: Effect)
    requires Explains(inst, before, after, e) && (e.Added? ==> e.id in Wanted(inst, Plan(inst)))
    ensures Missing(inst, after) == Missing(inst, before) + match e case Added(_) => -1 case Removed => 1 case _ => 0
  {
    hide Plan, StepFor, Stale, SameDeployment;
    var wanted := Wanted(inst, Plan(inst));
    if e.Added? {
      OneLess(wanted, before.Keys, after.Keys, e.id);
    } else if e == Removed {
      assert before.Keys == after.Keys + {WebhookId(inst)};
      OneLess(wanted, after.Keys, before.Keys, WebhookId(inst));
    }
  }

  lemma StaleAfter(inst: Instance, before: Objects, after: Objects, e: Effect)
    requires Explains(inst, before, after, e)
    requires forall x :: inst.sameDeployment(x, x)
    ensures Stale(inst, after) <==> e != RolledOut && Stale(inst, before)
  {
    hide StepFor;
  }

  /** How an effect moves the measure. */
  lemma RankAfter(inst: Instance, before: Objects, after: Objects, e: Effect)
    requires Explains(inst, before, after, e) && (e.Added? ==> e.id in Wanted(inst, Plan(inst)))
    requires forall x :: inst.sameDeployment(x, x)
    ensures Rank(inst, after) == Rank(inst, before) + match e case Kept => 0 case Removed => 1 case _ => -1
  {
    hide Missing, Wanted, Stale, StepFor;
    MissingAfter(inst, before, after, e);
    StaleAfter(inst, before, after, e);
  }

  // ---- Runs ----

  /** The cluster after `n` calls. */
  ghost function After(inst: Instance, objects: Objects, apis: nat -> Api, n: nat): Objects {
    if n == 0 then objects else CallOn(inst, After(inst, objects, apis, n - 1), apis(n - 1)).0
  }

  /** The deployment, once created, is seen to be available. */
  ghost predicate Watching(api: Api) { GetStatus !in api.fails && api.replicas > 0 }

  ghost function FaultlessCalls(apis: nat -> Api, n: nat): nat {
    if n == 0 then 0 else FaultlessCalls(apis, n - 1) + if Faultless(apis(n - 1)) then 1 else 0
  }

  ghost predicate HasKeys(inst: Instance, objects: Objects) {
    forall name :: name in inst.keySecrets ==> Id(Secret, name) in objects
  }

  /** One call of a run in which the deployment stays available: progress is never lost, and a
      call without faults makes exactly one step of it. */
  lemma CallProgress(inst: Instance, objects: Objects, api: Api)
    requires Watching(api) && HasKeys(inst, objects)
    requires forall x :: inst.sameDeployment(x, x)
    ensures var (o, r) := CallOn(inst, objects, api);
            && HasKeys(inst, o)
            && Rank(inst, o) <= Rank(inst, objects)
            && (r == Done ==> Rank(inst, objects) == 0)
            && (Faultless(api) ==>
                  if Rank(inst, objects) == 0 then r == Done && Rank(inst, o) == 0
                  else r == Requeue && Rank(inst, o) == Rank(inst, objects) - 1)
  {
    hide CallOn, Plan, Rank;
    var e := CallEffect(inst, objects, api);
    var (o, r) := CallOn(inst, objects, api);
    RankZero(inst, objects);
    PlanPlanned(inst);
    assert Installed(inst, objects) ==> DeploymentStep(inst).id in objects;
    RankAfter(inst, objects, o, e);
    if Faultless(api) { DoneExactly(inst, objects, api); }
  }

  /** Under any failures, the measure falls with every call that meets none. */
  lemma {:induction false} ProgressDespiteFaults(inst: Instance, objects: Objects, apis: nat -> Api, n: nat)
    requires HasKeys(inst, objects) && forall k: nat :: k < n ==> Watching(apis(k))
    requires forall x :: inst.sameDeployment(x, x)
    ensures HasKeys(inst, After(inst, objects, apis, n))
    ensures Rank(inst, After(inst, objects, apis, n)) + FaultlessCalls(apis, n) <= Rank(inst, objects) ||
            Rank(inst, After(inst, objects, apis, n)) == 0
  {
    hide Rank, CallOn, Watching, HasKeys;
    if n > 0 {
      ProgressDespiteFaults(inst, objects, apis, n - 1);
      CallProgress(inst, After(inst, objects, apis, n - 1), apis(n - 1));
    }
  }

  /** After as many faultless calls as the measure says, the next faultless call succeeds. */
  lemma Converges(inst: Instance, objects: Objects, apis: nat -> Api, n: nat)
    requires HasKeys(inst, objects) && forall k: nat :: k <= n ==> Watching(apis(k))
    requires forall x :: inst.sameDeployment(x, x)
    requires FaultlessCalls(apis, n) >= Rank(inst, objects) && Faultless(apis(n))
    ensures CallOn(inst, After(inst, objects, apis, n), apis(n)).1 == Done
  {
    hide Rank, CallOn, Watching, HasKeys, FaultlessCalls;
    ProgressDespiteFaults(inst, objects, apis, n);
    CallProgress(inst, After(inst, objects, apis, n), apis(n));
  }

  /** Without faults the count is exact: call `n` (from 0) succeeds if and only if `n` is at
      least the number of missing resources, plus one for a stale deployment. */
  lemma {:induction false} ConvergesExactly(inst: Instance, objects: Objects, apis: nat -> Api, n: nat)
    requires HasKeys(inst, objects) && forall k: nat :: k <= n ==> Watching(apis(k)) && Faultless(apis(k))
    requires forall x :: inst.sameDeployment(x, x)
    ensures var at := After(inst, objects, apis, n);
            && HasKeys(inst, at)
            && Rank(inst, at) == (if n <= Rank(inst, objects) then Rank(inst, objects) - n else 0)
            && (CallOn(inst, at, apis(n)).1 == Done <==> n >= Rank(inst, objects))
  {
    hide Rank, CallOn, HasKeys;
    if n > 0 {
      ConvergesExactly(inst, objects, apis, n - 1);
      CallProgress(inst, After(inst, objects, apis, n - 1), apis(n - 1));
    }
    CallProgress(inst, After(inst, objects, apis, n), apis(n));
  }

  // ---- Specs and finalization ----

  /** Steps for one and the same resource, if it is compared, expect the same of it. */
  ghost predicate Agreeing(steps: seq<Step>) {
    forall s, t :: s in steps && t in steps && s.id == t.id && ModeOf(s.id.kind) != CreateOnly ==>
                     s.expected == t.expected
  }

  lemma {:induction false} DonePresent(inst: Instance, objects: Objects, steps: seq<Step>, api: Api)
    requires RunOn(inst, objects, steps, api).1 == Done
    ensures var o := RunOn(inst, objects, steps, api).0;
            && (forall s :: s in steps ==> s.id in o)
            && (forall id :: id in objects ==> id in o)
            && (forall id :: id in objects && (forall s :: s in steps ==> s.id != id) ==> o[id] == objects[id])
  {
    if steps != [] {
      assert steps == [steps[0]] + steps[1..];
      DonePresent(inst, StepOn(inst, objects, steps[0], api).0, steps[1..], api);
    }
  }

  /** When the steps agree, a run that passes leaves every resource as expected. */
  lemma {:induction false} DoneMeansExpected(inst: Instance, objects: Objects, steps: seq<Step>, api: Api)
    requires Agreeing(steps) && RunOn(inst, objects, steps, api).1 == Done
    ensures var o := RunOn(inst, objects, steps, api).0;
            forall s :: s in steps ==> s.id in o && Matches(inst, s, o[s.id])
  {
    DonePresent(inst, objects, steps, api);
    if steps != [] {
      var head, rest := steps[0], steps[1..];
      assert steps == [head] + rest;
      var next := StepOn(inst, objects, head, api).0;
      DoneMeansExpected(inst, next, rest, api);
      DonePresent(inst, next, rest, api);
      var o := RunOn(inst, objects, steps, api).0;
      assert o == RunOn(inst, next, rest, api).0;
      if t :| t in rest && t.id == head.id { assert Matches(inst, t, o[t.id]); }
    }
  }

  /** Profiles of one name have one specification. */
  ghost predicate ProfilesAgree(inst: Instance) {
    var ps := inst.profiles;
    forall i, j :: 0 <= i < |ps| && 0 <= j < |ps| && ps[i].name == ps[j].name ==> ps[i].spec == ps[j].spec
  }

  ghost predicate FromInstance(inst: Instance, steps: seq<Step>) {
    forall s :: s in steps ==> s.id.kind != ResourceSigningProfile && s.expected == inst.spec(s.id)
  }

  lemma CrdsFromInstance(inst: Instance)
    ensures FromInstance(inst, CrdSteps(inst))
  {
    hide ShieldConfigCrd, SignerConfigCrd, ResourceSignatureCrd, ResourceSigningProfileCrd, HelmReleaseMetadataCrd;
  }

  lemma StepFromInstance(inst: Instance, kind: Kind, name: string)
    requires kind != ResourceSigningProfile
    ensures FromInstance(inst, [StepFor(inst, kind, name)])
  {}

  lemma FromInstanceConcat(inst: Instance, a: seq<Step>, b: seq<Step>)
    requires FromInstance(inst, a) && FromInstance(inst, b)
    ensures FromInstance(inst, a + b)
  {}

  lemma AccountsFromInstance(inst: Instance)
    ensures FromInstance(inst, AccountSteps(inst))
  {
    hide StepFor, FromInstance;
    var role, binding := inst.clusterRoleName + "-sim", inst.clusterRoleBindingName + "-sim";
    var a := [StepFor(inst, Secret, inst.tlsSecretName)];
    var b := [StepFor(inst, ServiceAccount, inst.serviceAccountName)];
    var c := [StepFor(inst, ClusterRole, inst.clusterRoleName)];
    var d := [StepFor(inst, ClusterRoleBinding, inst.clusterRoleBindingName)];
    var e, f := [StepFor(inst, Role, role)], [StepFor(inst, RoleBinding, binding)];
    StepFromInstance(inst, Secret, inst.tlsSecretName);
    StepFromInstance(inst, ServiceAccount, inst.serviceAccountName);
    StepFromInstance(inst, ClusterRole, inst.clusterRoleName);
    StepFromInstance(inst, ClusterRoleBinding, inst.clusterRoleBindingName);
    StepFromInstance(inst, Role, role);
    StepFromInstance(inst, RoleBinding, binding);
    FromInstanceConcat(inst, a, b);
    FromInstanceConcat(inst, a + b, c);
    FromInstanceConcat(inst, a + b + c, d);
    FromInstanceConcat(inst, a + b + c + d, e);
    FromInstanceConcat(inst, a + b + c + d + e, f);
    assert AccountSteps(inst) == a + b + c + d + e + f;
  }

  lemma ServerFromInstance(inst: Instance)
    ensures FromInstance(inst, ServerSteps(inst))
  {}

  lemma AdminFromInstance(inst: Instance)
    ensures FromInstance(inst, AdminSteps(inst))
  {
    hide AdminClusterRole, AdminClusterRoleBinding;
  }

  lemma CrsFromInstance(inst: Instance, s: Step)
    requires s in CrSteps(inst)
    ensures if s.id.kind == ResourceSigningProfile then s in ProfileSteps(inst.profiles)
            else s.expected == inst.spec(s.id)
  {}

  /** A step of the plan is a profile's, or expects what the instance says about its resource. */
  lemma PlannedStep(inst: Instance, s: Step)
    requires s in Plan(inst)
    ensures if s.id.kind == ResourceSigningProfile then s in ProfileSteps(inst.profiles)
            else s.expected == inst.spec(s.id)
  {
    hide CrdSteps, CrSteps, AccountSteps, AdminSteps, ServerSteps, ProfileSteps;
    CrdsFromInstance(inst);
    AccountsFromInstance(inst);
    ServerFromInstance(inst);
    AdminFromInstance(inst);
    if s in CrSteps(inst) { CrsFromInstance(inst, s); }
  }

  lemma PlanAgrees(inst: Instance)
    ensures ProfilesAgree(inst) ==> Agreeing(Plan(inst))
  {
    hide Plan;
    if ProfilesAgree(inst) {
      forall s, t | s in Plan(inst) && t in Plan(inst) && s.id == t.id ensures s.expected == t.expected {
        PlannedStep(inst, s);
        PlannedStep(inst, t);
      }
    }
  }

  lemma ProfileStepPlanned(inst: Instance, i: nat)
    requires i < |inst.profiles|
    ensures Step(Id(ResourceSigningProfile, inst.profiles[i].name), inst.profiles[i].spec) in Plan(inst)
  {
    hide CrdSteps, AccountSteps, AdminSteps, ServerSteps;
    var s := ProfileSteps(inst.profiles)[i];
    assert s in ProfileSteps(inst.profiles) && s in CrSteps(inst);
  }

  /** What a successful call leaves behind: everything that is planned, the webhook, and all other
      resources as they were; and everything as expected, if and only if profiles of one name have
      one specification. */
  lemma SuccessLeaves(inst: Instance, objects: Objects, api: Api)
    requires CallOn(inst, objects, api).1 == Done
    ensures var o := CallOn(inst, objects, api).0;
            && (forall s :: s in Plan(inst) ==> s.id in o) && WebhookId(inst) in o
            && (forall id :: id in objects ==> id in o)
            && (forall id :: id in objects && (forall s :: s in Plan(inst) ==> s.id != id) ==> o[id] == objects[id])
            && (ProfilesAgree(inst) <==> forall s :: s in Plan(inst) ==> Matches(inst, s, o[s.id]))
  {
    hide RunOn, Plan, KeysReady, Agreeing;
    DonePresent(inst, objects, Plan(inst), api);
    PlanAgrees(inst);
    if ProfilesAgree(inst) { DoneMeansExpected(inst, objects, Plan(inst), api); }
    var o := CallOn(inst, objects, api).0;
    if forall s :: s in Plan(inst) ==> Matches(inst, s, o[s.id]) {
      forall i | 0 <= i < |inst.profiles|
        ensures Id(ResourceSigningProfile, inst.profiles[i].name) in o
        ensures o[Id(ResourceSigningProfile, inst.profiles[i].name)] == inst.profiles[i].spec
      {
        ProfileStepPlanned(inst, i);
      }
    }
  }

  // ---- Written out ----

  /** Every resource in front of the webhook, by kind and name. */
  ghost predicate Everything(inst: Instance, objects: Objects) {
    && Id(CustomResourceDefinition, "shieldconfigs.apis.integrityshield.io") in objects
    && Id(CustomResourceDefinition, "signerconfigs.apis.integrityshield.io") in objects
    && Id(CustomResourceDefinition, "resourcesignatures.apis.integrityshield.io") in objects
    && Id(CustomResourceDefinition, "resourcesigningprofiles.apis.integrityshield.io") in objects
    && (inst.helm ==> Id(CustomResourceDefinition, "helmreleasemetadatas.apis.integrityshield.io") in objects)
    && Id(ShieldConfig, inst.shieldConfigName) in objects && Id(SignerConfig, "signer-config") in objects
    && (forall i :: 0 <= i < |inst.profiles| ==> Id(ResourceSigningProfile, inst.profiles[i].name) in objects)
    && Accounts(inst, objects)
    && (!inst.adminDisabled ==> Admins(objects))
    && Id(PodSecurityPolicy, inst.pspName) in objects && Id(Deployment, inst.name) in objects
    && Id(Service, inst.serviceName) in objects
  }

  ghost predicate Accounts(inst: Instance, objects: Objects) {
    && Id(Secret, inst.tlsSecretName) in objects && Id(ServiceAccount, inst.serviceAccountName) in objects
    && Id(ClusterRole, inst.clusterRoleName) in objects
    && Id(ClusterRoleBinding, inst.clusterRoleBindingName) in objects
    && Id(Role, inst.clusterRoleName + "-sim") in objects
    && Id(RoleBinding, inst.clusterRoleBindingName + "-sim") in objects
  }

  ghost predicate Admins(objects: Objects) {
    && Id(ClusterRole, "ishield-admin-clusterrole") in objects
    && Id(ClusterRoleBinding, "ishield-admin-clusterrolebinding") in objects
    && Id(Role, "ishield-admin-role") in objects && Id(RoleBinding, "ishield-admin-rolebinding") in objects
  }

  lemma ConfigCrdNames()
    ensures ShieldConfigCrd() == "shieldconfigs.apis.integrityshield.io"
    ensures SignerConfigCrd() == "signerconfigs.apis.integrityshield.io"
  {}

  lemma SignatureCrdName()
    ensures ResourceSignatureCrd() == "resourcesignatures.apis.integrityshield.io"
  {}

  lemma ProfileCrdName()
    ensures ResourceSigningProfileCrd() == "resourcesigningprofiles.apis.integrityshield.io"
  {}

  lemma HelmCrdName()
    ensures HelmReleaseMetadataCrd() == "helmreleasemetadatas.apis.integrityshield.io"
  {}

  lemma PresentConcat(a: seq<Step>, b: seq<Step>, objects: Objects)
    ensures AllPresent(a + b, objects) <==> AllPresent(a, objects) && AllPresent(b, objects)
  {}

  lemma PresentAt(steps: seq<Step>, objects: Objects)
    ensures AllPresent(steps, objects) <==> forall i :: 0 <= i < |steps| ==> steps[i].id in objects
  {}

  lemma CrdsPresent(inst: Instance, objects: Objects)
    ensures AllPresent(CrdSteps(inst), objects) <==>
            && Id(CustomResourceDefinition, ShieldConfigCrd()) in objects
            && Id(CustomResourceDefinition, SignerConfigCrd()) in objects
            && Id(CustomResourceDefinition, ResourceSignatureCrd()) in objects
            && Id(CustomResourceDefinition, ResourceSigningProfileCrd()) in objects
            && (inst.helm ==> Id(CustomResourceDefinition, HelmReleaseMetadataCrd()) in objects)
  {
    hide ShieldConfigCrd, SignerConfigCrd, ResourceSignatureCrd, ResourceSigningProfileCrd, HelmReleaseMetadataCrd;
    hide AllPresent;
    var steps := CrdSteps(inst);
    PresentAt(steps, objects);
    assert steps[0].id.name == ShieldConfigCrd() && steps[1].id.name == SignerConfigCrd();
    assert steps[2].id.name == ResourceSignatureCrd() && steps[3].id.name == ResourceSigningProfileCrd();
    if inst.helm { assert steps[4].id.name == HelmReleaseMetadataCrd(); }
  }

  lemma CrsPresent(inst: Instance, objects: Objects)
    ensures AllPresent(CrSteps(inst), objects) <==>
            && Id(ShieldConfig, inst.shieldConfigName) in objects && Id(SignerConfig, "signer-config") in objects
            && forall i :: 0 <= i < |inst.profiles| ==> Id(ResourceSigningProfile, inst.profiles[i].name) in objects
  {
    hide AllPresent;
    var steps := CrSteps(inst);
    PresentAt(steps, objects);
    assert steps[0].id == Id(ShieldConfig, inst.shieldConfigName) && steps[1].id == Id(SignerConfig, "signer-config");
    assert forall i :: 0 <= i < |inst.profiles| ==>
                         steps[i + 2].id == Id(ResourceSigningProfile, inst.profiles[i].name);
  }

  lemma AccountsPresent(inst: Instance, objects: Objects)
    ensures AllPresent(AccountSteps(inst), objects) <==> Accounts(inst, objects)
  {
    hide AllPresent;
    var steps := AccountSteps(inst);
    PresentAt(steps, objects);
    assert steps[0].id.kind == Secret && steps[1].id.kind == ServiceAccount && steps[2].id.kind == ClusterRole;
    assert steps[3].id.kind == ClusterRoleBinding && steps[4].id.kind == Role && steps[5].id.kind == RoleBinding;
  }

  lemma AdminsPresent(inst: Instance, objects: Objects)
    ensures AllPresent(AdminSteps(inst), objects) <==> (!inst.adminDisabled ==> Admins(objects))
  {
    hide AllPresent;
    var steps := AdminSteps(inst);
    PresentAt(steps, objects);
    if !inst.adminDisabled {
      assert steps[0].id.kind == ClusterRole && steps[1].id.kind == ClusterRoleBinding;
      assert steps[2].id.kind == Role && steps[3].id.kind == RoleBinding;
    }
  }

  lemma ServerPresent(inst: Instance, objects: Objects)
    ensures AllPresent(ServerSteps(inst), objects) <==>
            && Id(PodSecurityPolicy, inst.pspName) in objects && Id(Deployment, inst.name) in objects
            && Id(Service, inst.serviceName) in objects
  {
    hide AllPresent;
    var steps := ServerSteps(inst);
    PresentAt(steps, objects);
    assert steps[0].id.kind == PodSecurityPolicy && steps[1].id.kind == Deployment && steps[2].id.kind == Service;
  }

  /** The plan is there exactly when every resource is. */
  lemma EverythingExactly(inst: Instance, objects: Objects)
    ensures AllPresent(Plan(inst), objects) <==> Everything(inst, objects)
  {
    hide CrdSteps, CrSteps, AccountSteps, AdminSteps, ServerSteps, AllPresent, Accounts, Admins;
    hide ShieldConfigCrd, SignerConfigCrd, ResourceSignatureCrd, ResourceSigningProfileCrd, HelmReleaseMetadataCrd;
    var a, b, c, d := CrdSteps(inst), CrSteps(inst), AccountSteps(inst), AdminSteps(inst);
    PresentConcat(a, b, objects);
    PresentConcat(a + b, c, objects);
    PresentConcat(a + b + c, d, objects);
    PresentConcat(a + b + c + d, ServerSteps(inst), objects);
    CrdsPresent(inst, objects);
    CrsPresent(inst, objects);
    AccountsPresent(inst, objects);
    AdminsPresent(inst, objects);
    ServerPresent(inst, objects);
    ConfigCrdNames();
    SignatureCrdName();
    ProfileCrdName();
    HelmCrdName();
  }

  /** A call that succeeds leaves every resource and the webhook; a call that adds the webhook finds
      every resource, and the deployment available. */
  lemma WebhookComesLast(inst: Instance, objects: Objects, api: Api)
    ensures var (o, r) := CallOn(inst, objects, api);
            var webhook := Id(MutatingWebhookConfiguration, inst.webhookName);
            && (r == Done ==> Everything(inst, o) && webhook in o)
            && (webhook in o && webhook !in objects ==>
                  Everything(inst, objects) && GetStatus !in api.fails && api.replicas > 0)
  {
    hide CallOn, Everything, KeysReady;
    var (o, r) := CallOn(inst, objects, api);
    WebhookSafety(inst, objects, api);
    EverythingExactly(inst, objects);
    EverythingExactly(inst, o);
  }

  /** A step adds its resource only after the resources of all earlier steps were there. */
  lemma {:induction false} AddedInOrder(inst: Instance, objects: Objects, steps: seq<Step>, api: Api, k: nat)
    requires k < |steps| && forall j :: 0 <= j < |steps| && j != k ==> steps[j].id != steps[k].id
    ensures var o := RunOn(inst, objects, steps, api).0;
            steps[k].id in o && steps[k].id !in objects ==> forall j :: 0 <= j < k ==> steps[j].id in objects
    decreases k
  {
    var (o, r) := StepOn(inst, objects, steps[0], api);
    if k > 0 && r == Done {
      assert forall j :: 0 <= j < |steps| - 1 ==> steps[1..][j] == steps[j + 1];
      AddedInOrder(inst, o, steps[1..], api, k - 1);
      assert o.Keys == objects.Keys;
      assert forall j :: 1 <= j < k ==> steps[j] == steps[1..][j - 1];
    }
  }

  /** In particular the deployment comes after the secret and the accounts it runs with. */
  lemma DeploymentAfterAccounts(inst: Instance, objects: Objects, api: Api)
    ensures var o := CallOn(inst, objects, api).0;
            Id(Deployment, inst.name) in o && Id(Deployment, inst.name) !in objects ==> Accounts(inst, objects)
  {
    hide RunOn, KeysReady, StepOn, Accounts;
    var i, k := DeploymentPlace(inst);
    AddedInOrder(inst, objects, Plan(inst), api, k);
    forall s | s in AccountSteps(inst) && (forall j :: 0 <= j < k ==> Plan(inst)[j].id in objects)
      ensures s.id in objects
    {
      var j :| 0 <= j < |AccountSteps(inst)| && AccountSteps(inst)[j] == s;
      assert Plan(inst)[i + j] == s;
    }
    AccountsPresent(inst, objects);
    WebhookKeepsDeployment(inst, RunOn(inst, objects, Plan(inst), api).0, api);
  }

  lemma WebhookKeepsDeployment(inst: Instance, objects: Objects, api: Api)
    ensures Id(Deployment, inst.name) in WebhookOn(inst, objects, api).0 <==> Id(Deployment, inst.name) in objects
  {}

  /** Where the account steps begin in the plan, and where the deployment's is. */
  lemma DeploymentPlace(inst: Instance) returns (i: nat, k: nat)
    ensures i + 6 <= k < |Plan(inst)| && Plan(inst)[i..i + 6] == AccountSteps(inst)
    ensures forall j :: 0 <= j < 6 ==> Plan(inst)[i + j] == AccountSteps(inst)[j]
    ensures Plan(inst)[k] == DeploymentStep(inst)
    ensures forall j :: 0 <= j < |Plan(inst)| && j != k ==> Plan(inst)[j].id != DeploymentStep(inst).id
  {
    hide CrdSteps, CrSteps, AdminSteps, AccountSteps;
    var a, b, c, d := CrdSteps(inst), CrSteps(inst), AccountSteps(inst), AdminSteps(inst);
    SixAccounts(inst);
    NoDeployment(inst);
    i := |a| + |b|;
    k := |a| + |b| + |c| + |d| + 1;
    assert Plan(inst)[i..i + 6] == c;
  }

  lemma SixAccounts(inst: Instance)
    ensures |AccountSteps(inst)| == 6
  {}

  ghost predicate WithoutDeployment(steps: seq<Step>) {
    forall i :: 0 <= i < |steps| ==> steps[i].id.kind != Deployment
  }

  lemma NoDeployment(inst: Instance)
    ensures WithoutDeployment(CrdSteps(inst)) && WithoutDeployment(CrSteps(inst))
    ensures WithoutDeployment(AccountSteps(inst)) && WithoutDeployment(AdminSteps(inst))
  {
    hide ShieldConfigCrd, SignerConfigCrd, ResourceSignatureCrd, ResourceSigningProfileCrd, HelmReleaseMetadataCrd;
    hide AdminClusterRole, AdminClusterRoleBinding;
  }

  predicate ClusterScoped(kind: Kind) {
    kind in {CustomResourceDefinition, ClusterRole, ClusterRoleBinding, PodSecurityPolicy, MutatingWebhookConfiguration}
  }

  /** Deletion removes exactly the listed resources, in one call or in several. */
  lemma {:induction false} DeletesExactly(objects: Objects, ids: seq<Id>, api: Api)
    ensures var (o, r) := DeleteAllOn(objects, ids, api);
            && (forall id :: id in o ==> id in objects && o[id] == objects[id])
            && (forall id :: id in objects && id !in ids ==> id in o)
            && (r != Error ==> forall id :: id in ids ==> id !in o)
            && (api.fails == {} ==> r != Error)
  {
    if ids != [] {
      assert ids == [ids[0]] + ids[1..];
      DeletesExactly(DeleteOn(objects, ids[0], api).0, ids[1..], api);
    }
  }

  /** The ids of `steps` that a garbage collector would leave behind. */
  ghost function ScopedIds(steps: seq<Step>): set<Id> {
    set s | s in steps && ClusterScoped(s.id.kind) :: s.id
  }

  lemma ScopedIdsConcat(a: seq<Step>, b: seq<Step>)
    ensures ScopedIds(a + b) == ScopedIds(a) + ScopedIds(b)
  {}

  ghost function CrdIds(inst: Instance): set<Id> {
    {Id(CustomResourceDefinition, ShieldConfigCrd()), Id(CustomResourceDefinition, SignerConfigCrd()),
     Id(CustomResourceDefinition, ResourceSignatureCrd()), Id(CustomResourceDefinition, ResourceSigningProfileCrd())}
    + if inst.helm then {Id(CustomResourceDefinition, HelmReleaseMetadataCrd())} else {}
  }

  ghost function RoleIds(inst: Instance): set<Id> {
    {Id(ClusterRole, inst.clusterRoleName), Id(ClusterRoleBinding, inst.clusterRoleBindingName)}
    + if inst.adminDisabled then {}
      else {Id(ClusterRole, AdminClusterRole()), Id(ClusterRoleBinding, AdminClusterRoleBinding())}
  }

  lemma CrdScoped(inst: Instance)
    ensures ScopedIds(CrdSteps(inst)) == CrdIds(inst) && ScopedIds(CrSteps(inst)) == {}
  {
    hide ShieldConfigCrd, SignerConfigCrd, ResourceSignatureCrd, ResourceSigningProfileCrd, HelmReleaseMetadataCrd;
  }

  lemma RolesScoped(inst: Instance)
    ensures ScopedIds(AccountSteps(inst)) + ScopedIds(AdminSteps(inst)) == RoleIds(inst)
  {
    hide AdminClusterRole, AdminClusterRoleBinding;
  }

  lemma ServerScoped(inst: Instance)
    ensures ScopedIds(ServerSteps(inst)) == {Id(PodSecurityPolicy, inst.pspName)}
  {}

  lemma ChildrenListed(inst: Instance)
    ensures (set id | id in ClusterScopedChildren(inst)) ==
            CrdIds(inst) + RoleIds(inst) + {Id(PodSecurityPolicy, inst.pspName), WebhookId(inst)}
  {
    hide ShieldConfigCrd, SignerConfigCrd, ResourceSignatureCrd, ResourceSigningProfileCrd, HelmReleaseMetadataCrd;
    hide AdminClusterRole, AdminClusterRoleBinding;
  }

  /** What finalization deletes is exactly what installation creates outside any namespace. */
  lemma ChildrenComplete(inst: Instance)
    ensures (set id | id in ClusterScopedChildren(inst)) == ScopedIds(Plan(inst)) + {WebhookId(inst)}
  {
    hide CrdSteps, CrSteps, AccountSteps, AdminSteps, ServerSteps, ScopedIds, CrdIds, RoleIds, ClusterScopedChildren;
    var crds, crs, accounts := CrdSteps(inst), CrSteps(inst), AccountSteps(inst);
    var admins, servers := AdminSteps(inst), ServerSteps(inst);
    ScopedIdsConcat(crds, crs);
    ScopedIdsConcat(crds + crs, accounts);
    ScopedIdsConcat(crds + crs + accounts, admins);
    ScopedIdsConcat(crds + crs + accounts + admins, servers);
    CrdScoped(inst);
    RolesScoped(inst);
    ServerScoped(inst);
    ChildrenListed(inst);
  }

  /** Nothing that installation creates outside a namespace is left. */
  ghost predicate Cleaned(inst: Instance, objects: Objects) {
    objects.Keys !! ScopedIds(Plan(inst)) + {WebhookId(inst)}
  }

  /** A call on an instance under deletion, whatever fails: only cluster-scoped children go; the
      finalizer goes only once all of them are gone, and in every call without failures; an
      error keeps it. */
  lemma FinalizeMeaning(inst: Instance, objects: Objects, api: Api)
    requires inst.deleting && CLEANUP_FINALIZER in inst.finalizers
    ensures var (i, o, r) := ReconcileOn(Some(inst), objects, api);
            && (forall id :: id in o ==> id in objects && o[id] == objects[id])
            && (forall id :: id in objects && id !in ScopedIds(Plan(inst)) + {WebhookId(inst)} ==> id in o)
            && (r == Done <==> i == Some(inst.(finalizers := Without(inst.finalizers, CLEANUP_FINALIZER))))
            && (r == Done ==> Cleaned(inst, o))
            && (r != Done ==> r == Error && i == Some(inst))
            && (api.fails == {} ==> r == Done)
  {
    hide DeleteAllOn, ClusterScopedChildren, Plan, ScopedIds;
    DeletesExactly(objects, ClusterScopedChildren(inst), api);
    ChildrenComplete(inst);
    var ids := set id | id in ClusterScopedChildren(inst);
    forall id ensures id in ids <==> id in ClusterScopedChildren(inst) {}
    assert inst.finalizers != Without(inst.finalizers, CLEANUP_FINALIZER);
  }

  /** The state of a run of `Reconcile` calls. */
  ghost function RunAfter(instance: Option<Instance>, objects: Objects, apis: nat -> Api, n: nat)
    : (Option<Instance>, Objects)
  {
    if n == 0 then (instance, objects)
    else
      var (i, o) := RunAfter(instance, objects, apis, n - 1);
      var (i', o', _) := ReconcileOn(i, o, apis(n - 1));
      (i', o')
  }

  /** Over every run on an instance under deletion: as long as the finalizer is there the
      instance is unchanged, and once it is gone the cluster is clean and stays so. */
  lemma {:induction false} FinalizerGuardsCleanup(inst: Instance, objects: Objects, apis: nat -> Api, n: nat)
    requires inst.deleting && CLEANUP_FINALIZER in inst.finalizers
    ensures var (i, o) := RunAfter(Some(inst), objects, apis, n);
            || i == Some(inst)
            || (i == Some(inst.(finalizers := Without(inst.finalizers, CLEANUP_FINALIZER))) && Cleaned(inst, o))
  {
    hide DeleteAllOn, ClusterScopedChildren, CallOn, Cleaned;
    if n > 0 {
      FinalizerGuardsCleanup(inst, objects, apis, n - 1);
      var (i, o) := RunAfter(Some(inst), objects, apis, n - 1);
      FinalizeMeaning(inst, o, apis(n - 1));
    }
  }
}
