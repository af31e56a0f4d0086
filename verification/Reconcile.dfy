/** The operator's step machine: `Reconcile` in `integrityshield_controller.go` and the create,
    update and delete steps of `integrityshield.go`, under
    `integrity-shield-operator/controllers`. */
module Reconcile {
  import opened Text

  datatype Kind =
    | CustomResourceDefinition | ShieldConfig | SignerConfig | ResourceSigningProfile
    | Secret | ServiceAccount | ClusterRole | ClusterRoleBinding | Role | RoleBinding
    | PodSecurityPolicy | Deployment | Service | MutatingWebhookConfiguration

  datatype Id = Id(kind: Kind, name: string)

  /** The part of a resource that the operator compares and writes. */
  type Spec = string

  type Objects = map<Id, Spec>

  datatype Step = Step(id: Id, expected: Spec)

  datatype ProfileConfig = ProfileConfig(name: string, spec: Spec)

  /** An IntegrityShield resource with its defaults merged in. */
  datatype Instance = Instance(
    name: string, deleting: bool, finalizers: seq<string>, keySecrets: seq<string>,
    helm: bool, adminDisabled: bool, profiles: seq<ProfileConfig>,
    shieldConfigName: string, tlsSecretName: string, serviceAccountName: string,
    clusterRoleName: string, clusterRoleBindingName: string, pspName: string,
    serviceName: string, webhookName: string,
    spec: Id -> Spec, sameDeployment: (Spec, Spec) -> bool)

  const CLEANUP_FINALIZER := "cleanup.finalizers.integrityshield.io"

  // ---- The API server ----

  datatype Call =
    | Own(id: Id) | Get(id: Id) | Create(id: Id) | Update(id: Id) | Delete(id: Id)
    | GetStatus | GetInstance | UpdateInstance

  /** How the API server answers during one `Reconcile`: the calls that fail, the creations it
      answers with AlreadyExists, and the replicas it reports as available. */
  datatype Api = Api(fails: set<Call>, taken: set<Id>, replicas: nat)

  datatype Outcome = Done | Requeue | Error

  datatype Mode = CreateOnly | UpdateInline | UpdateAndRequeue

  function ModeOf(kind: Kind): Mode {
    match kind
    case CustomResourceDefinition | ShieldConfig | SignerConfig | ResourceSigningProfile => UpdateInline
    case Deployment => UpdateAndRequeue
    case _ => CreateOnly
  }

  predicate Matches(inst: Instance, step: Step, found: Spec) {
    match ModeOf(step.id.kind)
    case CreateOnly => true
    case UpdateInline => step.expected == found
    case UpdateAndRequeue => inst.sameDeployment(step.expected, found)
  }

  /** What one create-or-update step leaves behind. */
  function StepOn(inst: Instance, objects: Objects, step: Step, api: Api): (Objects, Outcome) {
    var id := step.id;
    if Own(id) in api.fails || Get(id) in api.fails then (objects, Error)
    else if id !in objects then
      if id in api.taken then (objects, Requeue)
      else if Create(id) in api.fails then (objects, Error)
      else (objects[id := step.expected], Requeue)
    else if Matches(inst, step, objects[id]) then (objects, Done)
    else if Update(id) in api.fails then (objects, Error)
    else (objects[id := step.expected], if ModeOf(id.kind) == UpdateInline then Done else Requeue)
  }

  /** Steps in order, up to the first that does not just pass. */
  function RunOn(inst: Instance, objects: Objects, steps: seq<Step>, api: Api): (Objects, Outcome) {
    if steps == [] then (objects, Done)
    else
      var (o, r) := StepOn(inst, objects, steps[0], api);
      if r != Done then (o, r) else RunOn(inst, o, steps[1..], api)
  }

  function DeleteOn(objects: Objects, id: Id, api: Api): (Objects, Outcome) {
    if Get(id) in api.fails then (objects, Error)
    else if id !in objects then (objects, Requeue)
    else if Delete(id) in api.fails then (objects, Error)
    else (objects - {id}, Requeue)
  }

  // ---- The plan ----

  function StepFor(inst: Instance, kind: Kind, name: string): Step {
    Step(Id(kind, name), inst.spec(Id(kind, name)))
  }

  function ProfileSteps(profiles: seq<ProfileConfig>): seq<Step> {
    seq(|profiles|,
        i requires 0 <= i < |profiles| => Step(Id(ResourceSigningProfile, profiles[i].name), profiles[i].spec))
  }

  function ShieldConfigCrd(): string { "shieldconfigs" + ".apis.integrityshield.io" }

  function SignerConfigCrd(): string { "signerconfigs" + ".apis.integrityshield.io" }

  function ResourceSignatureCrd(): string { "resourcesignatures" + ".apis.integrityshield.io" }

  function ResourceSigningProfileCrd(): string { "resourcesigningprofiles" + ".apis.integrityshield.io" }

  function HelmReleaseMetadataCrd(): string { "helmreleasemetadatas" + ".apis.integrityshield.io" }

  function AdminClusterRole(): string { "ishield-admin-clusterrole" }

  function AdminClusterRoleBinding(): string { "ishield-admin-clusterrolebinding" }

  function Crd(inst: Instance, name: string): Step { StepFor(inst, CustomResourceDefinition, name) }

  function CrdSteps(inst: Instance): seq<Step> {
    [Crd(inst, ShieldConfigCrd()), Crd(inst, SignerConfigCrd()), Crd(inst, ResourceSignatureCrd()),
     Crd(inst, ResourceSigningProfileCrd())]
    + if inst.helm then [Crd(inst, HelmReleaseMetadataCrd())] else []
  }

  function CrSteps(inst: Instance): seq<Step> {
    [StepFor(inst, ShieldConfig, inst.shieldConfigName), StepFor(inst, SignerConfig, "signer-config")]
    + ProfileSteps(inst.profiles)
  }

  function AccountSteps(inst: Instance): seq<Step> {
    [StepFor(inst, Secret, inst.tlsSecretName), StepFor(inst, ServiceAccount, inst.serviceAccountName),
     StepFor(inst, ClusterRole, inst.clusterRoleName), StepFor(inst, ClusterRoleBinding, inst.clusterRoleBindingName),
     StepFor(inst, Role, inst.clusterRoleName + "-sim"),
     StepFor(inst, RoleBinding, inst.clusterRoleBindingName + "-sim")]
  }

  function AdminSteps(inst: Instance): seq<Step> {
    if inst.adminDisabled then []
    else [StepFor(inst, ClusterRole, AdminClusterRole()), StepFor(inst, ClusterRoleBinding, AdminClusterRoleBinding()),
          StepFor(inst, Role, "ishield-admin-role"), StepFor(inst, RoleBinding, "ishield-admin-rolebinding")]
  }

  function DeploymentStep(inst: Instance): Step { StepFor(inst, Deployment, inst.name) }

  function ServerSteps(inst: Instance): seq<Step> {
    [StepFor(inst, PodSecurityPolicy, inst.pspName), DeploymentStep(inst), StepFor(inst, Service, inst.serviceName)]
  }

  /** Everything that is put in place before the webhook, in order. */
  function Plan(inst: Instance): seq<Step> {
    CrdSteps(inst) + CrSteps(inst) + AccountSteps(inst) + AdminSteps(inst) + ServerSteps(inst)
  }

  function WebhookId(inst: Instance): Id { Id(MutatingWebhookConfiguration, inst.webhookName) }

  function WebhookStep(inst: Instance): Step { StepFor(inst, MutatingWebhookConfiguration, inst.webhookName) }

  // ---- One call ----

  predicate KeysReady(inst: Instance, objects: Objects, api: Api) {
    forall i :: 0 <= i < |inst.keySecrets| ==> HasKey(inst.keySecrets[i], objects, api)
  }

  predicate HasKey(name: string, objects: Objects, api: Api) {
    Get(Id(Secret, name)) !in api.fails && Id(Secret, name) in objects
  }

  predicate Available(inst: Instance, objects: Objects, api: Api) {
    GetStatus !in api.fails && Id(Deployment, inst.name) in objects && api.replicas > 0
  }

  function WebhookOn(inst: Instance, objects: Objects, api: Api): (Objects, Outcome) {
    if Available(inst, objects, api) then StepOn(inst, objects, WebhookStep(inst), api)
    else DeleteOn(objects, WebhookId(inst), api)
  }

  /** A call on an instance that is not being deleted. */
  function CallOn(inst: Instance, objects: Objects, api: Api): (Objects, Outcome) {
    if !KeysReady(inst, objects, api) then (objects, Requeue)
    else
      var (o, r) := RunOn(inst, objects, Plan(inst), api);
      if r != Done then (o, r) else WebhookOn(inst, o, api)
  }

  /** The children a garbage collector would not remove, in the order they are deleted. */
  function ClusterScopedChildren(inst: Instance): seq<Id> { RoleChildren(inst) + CrdChildren(inst) }

  function RoleChildren(inst: Instance): seq<Id> {
    [WebhookId(inst), Id(PodSecurityPolicy, inst.pspName)]
    + (if inst.adminDisabled then []
       else [Id(ClusterRoleBinding, AdminClusterRoleBinding()), Id(ClusterRole, AdminClusterRole())])
    + [Id(ClusterRoleBinding, inst.clusterRoleBindingName), Id(ClusterRole, inst.clusterRoleName)]
  }

  function CrdChildren(inst: Instance): seq<Id> {
    (if inst.helm then [Id(CustomResourceDefinition, HelmReleaseMetadataCrd())] else [])
    + [Id(CustomResourceDefinition, ResourceSigningProfileCrd()),
       Id(CustomResourceDefinition, ResourceSignatureCrd()),
       Id(CustomResourceDefinition, SignerConfigCrd()),
       Id(CustomResourceDefinition, ShieldConfigCrd())]
  }

  function DeleteAllOn(objects: Objects, ids: seq<Id>, api: Api): (Objects, Outcome) {
    if ids == [] then (objects, Done)
    else
      var (o, r) := DeleteOn(objects, ids[0], api);
      if r == Error then (o, Error) else DeleteAllOn(o, ids[1..], api)
  }

  /** What `Reconcile` comes to: cluster objects, the instance, and the result. */
  function ReconcileOn(instance: Option<Instance>, objects: Objects, api: Api): (Option<Instance>, Objects, Outcome) {
    if GetInstance in api.fails then (instance, objects, Error)
    else if instance.None? then (instance, objects, Done)
    else
      var inst := instance.value;
      if !inst.deleting then
        var (o, r) := CallOn(inst, objects, api);
        (instance, o, r)
      else if CLEANUP_FINALIZER !in inst.finalizers then (instance, objects, Done)
      else
        var (o, r) := DeleteAllOn(objects, ClusterScopedChildren(inst), api);
        if r == Error || UpdateInstance in api.fails then (instance, o, Error)
        else (Some(inst.(finalizers := Without(inst.finalizers, CLEANUP_FINALIZER))), o, Done)
  }

  /** `containsString`. */
  method ContainsString(slice: seq<string>, s: string) returns (b: bool)
    ensures b <==> s in slice
  {
    for i := 0 to |slice|
      invariant s !in slice[..i]
    {
      if slice[i] == s { return true; }
    }
    return false;
  }

  /** Every occurrence of `s` is gone and nothing else moved. */
  function Without(slice: seq<string>, s: string): (r: seq<string>)
    ensures s !in r
    ensures s !in slice ==> r == slice
    ensures forall x :: x != s ==> multiset(r)[x] == multiset(slice)[x]
  {
    if slice == [] then []
    else
      var n := |slice| - 1;
      assert slice == slice[..n] + [slice[n]];
      Without(slice[..n], s) + if slice[n] == s then [] else [slice[n]]
  }

  /** `removeString`. */
  method RemoveString(slice: seq<string>, s: string) returns (result: seq<string>)
    ensures result == Without(slice, s)
  {
    result := [];
    for i := 0 to |slice|
      invariant result == Without(slice[..i], s)
    {
      assert slice[..i + 1][..i] == slice[..i];
      if slice[i] == s { continue; }
      result := result + [slice[i]];
    }
    assert slice[..|slice|] == slice;
  }

  /** What is left to delete after `k` deletions. */
  lemma PeelId(objects: Objects, ids: seq<Id>, k: nat, api: Api)
    requires k < |ids|
    ensures k == 0 ==> ids[k..] == ids
    ensures var (o, r) := DeleteOn(objects, ids[k], api);
            DeleteAllOn(objects, ids[k..], api) == if r == Error then (o, Error) else DeleteAllOn(o, ids[k + 1..], api)
  {
    hide DeleteOn;
    assert ids[k..][1..] == ids[k + 1..];
  }

  lemma NoIds(objects: Objects, ids: seq<Id>, api: Api)
    ensures ids[|ids|..] == [] && DeleteAllOn(objects, [], api) == (objects, Done)
  {}

  lemma {:induction false} DeleteAllConcat(objects: Objects, a: seq<Id>, b: seq<Id>, api: Api)
    ensures var (o, r) := DeleteAllOn(objects, a, api);
            DeleteAllOn(objects, a + b, api) == if r == Error then (o, r) else DeleteAllOn(o, b, api)
    decreases |a|
  {
    hide DeleteOn;
    if a == [] {
      assert a + b == b;
    } else {
      assert (a + b)[1..] == a[1..] + b;
      DeleteAllConcat(DeleteOn(objects, a[0], api).0, a[1..], b, api);
    }
  }

  /** What is left to do when `k` steps have passed. */
  lemma Peel(inst: Instance, objects: Objects, steps: seq<Step>, k: nat, api: Api)
    requires k < |steps|
    ensures k == 0 ==> steps[k..] == steps
    ensures var (o, r) := StepOn(inst, objects, steps[k], api);
            RunOn(inst, objects, steps[k..], api) == if r != Done then (o, r) else RunOn(inst, o, steps[k + 1..], api)
  {
    hide StepOn;
    assert steps[k..][1..] == steps[k + 1..];
  }

  lemma Peeled(inst: Instance, objects: Objects, steps: seq<Step>, api: Api)
    ensures steps[|steps|..] == [] && RunOn(inst, objects, [], api) == (objects, Done)
  {}

  /** One list after the other, as far as the steps pass. */
  function ThenRun(inst: Instance, before: (Objects, Outcome), steps: seq<Step>, api: Api): (Objects, Outcome) {
    if before.1 != Done then before else RunOn(inst, before.0, steps, api)
  }

  lemma {:induction false} RunOnConcat(inst: Instance, objects: Objects, a: seq<Step>, b: seq<Step>, api: Api)
    ensures RunOn(inst, objects, a + b, api) == ThenRun(inst, RunOn(inst, objects, a, api), b, api)
    decreases |a|
  {
    hide StepOn;
    if a == [] {
      assert a + b == b;
    } else {
      assert (a + b)[1..] == a[1..] + b;
      RunOnConcat(inst, StepOn(inst, objects, a[0], api).0, a[1..], b, api);
    }
  }

  lemma PlanInParts(inst: Instance, objects: Objects, api: Api)
    ensures RunOn(inst, objects, Plan(inst), api) ==
            var a := RunOn(inst, objects, CrdSteps(inst), api);
            var b := ThenRun(inst, a, CrSteps(inst), api);
            var c := ThenRun(inst, b, AccountSteps(inst), api);
            var d := ThenRun(inst, c, AdminSteps(inst), api);
            ThenRun(inst, d, ServerSteps(inst), api)
  {
    hide RunOn, CrdSteps, CrSteps, AccountSteps, AdminSteps, ServerSteps;
    var a, b, c, d := CrdSteps(inst), CrSteps(inst), AccountSteps(inst), AdminSteps(inst);
    RunOnConcat(inst, objects, a, b, api);
    RunOnConcat(inst, objects, a + b, c, api);
    RunOnConcat(inst, objects, a + b + c, d, api);
    RunOnConcat(inst, objects, a + b + c + d, ServerSteps(inst), api);
  }

  class Reconciler {
    var instance: Option<Instance>
    var objects: Objects

    /** `createOrUpdateCRD` and its siblings. */
    method CreateOrUpdate(inst: Instance, step: Step, api: Api) returns (r: Outcome)
      modifies this`objects
      ensures (objects, r) == StepOn(inst, old(objects), step, api)
    {
      var id := step.id;
      if Own(id) in api.fails { return Error; }
      if Get(id) in api.fails { return Error; }
      if id !in objects {
        if id in api.taken { return Requeue; }
        if Create(id) in api.fails { return Error; }
        objects := objects[id := step.expected];
        return Requeue;
      }
      match id.kind {
        case CustomResourceDefinition | ShieldConfig | SignerConfig | ResourceSigningProfile =>
          if step.expected != objects[id] {
            if Update(id) in api.fails { return Error; }
            objects := objects[id := step.expected];
          }
        case Deployment =>
          if !inst.sameDeployment(step.expected, objects[id]) {
            if Update(id) in api.fails { return Error; }
            objects := objects[id := step.expected];
            return Requeue;
          }
        case _ =>
      }
      return Done;
    }

    /** `deleteWebhook` and its siblings. */
    method DeleteResource(id: Id, api: Api) returns (r: Outcome)
      modifies this`objects
      ensures (objects, r) == DeleteOn(old(objects), id, api)
    {
      if Get(id) in api.fails { return Error; }
      if id !in objects { return Requeue; }
      if Delete(id) in api.fails { return Error; }
      objects := objects - {id};
      return Requeue;
    }

    /** `isKeyRingReady`, with the first key that is missing. */
    method IsKeyRingReady(inst: Instance, api: Api) returns (ok: bool, nonReadyKey: string)
      ensures (ok <==> KeysReady(inst, objects, api)) && (ok ==> nonReadyKey == "")
      ensures !ok ==>
                exists i :: 0 <= i < |inst.keySecrets| && nonReadyKey == inst.keySecrets[i] &&
                            !HasKey(nonReadyKey, objects, api) &&
                            forall j :: 0 <= j < i ==> HasKey(inst.keySecrets[j], objects, api)
    {
      var okCount := 0;
      nonReadyKey := "";
      for i := 0 to |inst.keySecrets|
        invariant okCount == i
        invariant forall j :: 0 <= j < i ==> HasKey(inst.keySecrets[j], objects, api)
      {
        var id := Id(Secret, inst.keySecrets[i]);
        if Get(id) !in api.fails && id in objects {
          okCount := okCount + 1;
        } else {
          nonReadyKey := inst.keySecrets[i];
          break;
        }
      }
      ok := okCount == |inst.keySecrets|;
    }

    /** The secret, the service account and the roles of the server. */
    method InstallAccounts(inst: Instance, api: Api) returns (r: Outcome)
      modifies this`objects
      ensures (objects, r) == RunOn(inst, old(objects), AccountSteps(inst), api)
    {
      hide StepOn, RunOn;
      ghost var steps := AccountSteps(inst);
      Peel(inst, objects, steps, 0, api);
      r := CreateOrUpdate(inst, StepFor(inst, Secret, inst.tlsSecretName), api);
      if r != Done { return; }
      Peel(inst, objects, steps, 1, api);
      r := CreateOrUpdate(inst, StepFor(inst, ServiceAccount, inst.serviceAccountName), api);
      if r != Done { return; }
      Peel(inst, objects, steps, 2, api);
      r := CreateOrUpdate(inst, StepFor(inst, ClusterRole, inst.clusterRoleName), api);
      if r != Done { return; }
      Peel(inst, objects, steps, 3, api);
      r := CreateOrUpdate(inst, StepFor(inst, ClusterRoleBinding, inst.clusterRoleBindingName), api);
      if r != Done { return; }
      Peel(inst, objects, steps, 4, api);
      r := CreateOrUpdate(inst, StepFor(inst, Role, inst.clusterRoleName + "-sim"), api);
      if r != Done { return; }
      Peel(inst, objects, steps, 5, api);
      r := CreateOrUpdate(inst, StepFor(inst, RoleBinding, inst.clusterRoleBindingName + "-sim"), api);
      if r != Done { return; }
      Peeled(inst, objects, steps, api);
    }

    /** The server itself. */
    method InstallServer(inst: Instance, api: Api) returns (r: Outcome)
      modifies this`objects
      ensures (objects, r) == RunOn(inst, old(objects), ServerSteps(inst), api)
    {
      hide StepOn, RunOn;
      ghost var steps := ServerSteps(inst);
      Peel(inst, objects, steps, 0, api);
      r := CreateOrUpdate(inst, StepFor(inst, PodSecurityPolicy, inst.pspName), api);
      if r != Done { return; }
      Peel(inst, objects, steps, 1, api);
      r := CreateOrUpdate(inst, StepFor(inst, Deployment, inst.name), api);
      if r != Done { return; }
      Peel(inst, objects, steps, 2, api);
      r := CreateOrUpdate(inst, StepFor(inst, Service, inst.serviceName), api);
      if r != Done { return; }
      Peeled(inst, objects, steps, api);
    }

    /** The roles of the administrators, unless they are disabled. */
    method InstallAdmin(inst: Instance, api: Api) returns (r: Outcome)
      modifies this`objects
      ensures (objects, r) == RunOn(inst, old(objects), AdminSteps(inst), api)
    {
      hide StepOn, RunOn;
      ghost var steps := AdminSteps(inst);
      if !inst.adminDisabled {
        Peel(inst, objects, steps, 0, api);
        r := CreateOrUpdate(inst, StepFor(inst, ClusterRole, "ishield-admin-clusterrole"), api);
        if r != Done { return; }
        Peel(inst, objects, steps, 1, api);
        r := CreateOrUpdate(inst, StepFor(inst, ClusterRoleBinding, "ishield-admin-clusterrolebinding"), api);
        if r != Done { return; }
        Peel(inst, objects, steps, 2, api);
        r := CreateOrUpdate(inst, StepFor(inst, Role, "ishield-admin-role"), api);
        if r != Done { return; }
        Peel(inst, objects, steps, 3, api);
        r := CreateOrUpdate(inst, StepFor(inst, RoleBinding, "ishield-admin-rolebinding"), api);
        if r != Done { return; }
      }
      Peeled(inst, objects, steps, api);
      return Done;
    }

    /** The custom resource definitions. */
    method InstallCrds(inst: Instance, api: Api) returns (r: Outcome)
      modifies this`objects
      ensures (objects, r) == RunOn(inst, old(objects), CrdSteps(inst), api)
    {
      hide StepOn, RunOn;
      hide ShieldConfigCrd, SignerConfigCrd, ResourceSignatureCrd, ResourceSigningProfileCrd, HelmReleaseMetadataCrd;
      ghost var steps := CrdSteps(inst);
      Peel(inst, objects, steps, 0, api);
      r := CreateOrUpdate(inst, StepFor(inst, CustomResourceDefinition, ShieldConfigCrd()), api);
      if r != Done { return; }
      Peel(inst, objects, steps, 1, api);
      r := CreateOrUpdate(inst, StepFor(inst, CustomResourceDefinition, SignerConfigCrd()), api);
      if r != Done { return; }
      Peel(inst, objects, steps, 2, api);
      r := CreateOrUpdate(inst, StepFor(inst, CustomResourceDefinition, ResourceSignatureCrd()), api);
      if r != Done { return; }
      Peel(inst, objects, steps, 3, api);
      r := CreateOrUpdate(inst, StepFor(inst, CustomResourceDefinition, ResourceSigningProfileCrd()), api);
      if r != Done { return; }
      if inst.helm {
        Peel(inst, objects, steps, 4, api);
        r := CreateOrUpdate(inst, StepFor(inst, CustomResourceDefinition, HelmReleaseMetadataCrd()), api);
        if r != Done { return; }
      }
      Peeled(inst, objects, steps, api);
    }

    /** The shield's configuration, the signers' and the profiles. */
    method InstallCrs(inst: Instance, api: Api) returns (r: Outcome)
      modifies this`objects
      ensures (objects, r) == RunOn(inst, old(objects), CrSteps(inst), api)
    {
      hide StepOn, RunOn;
      ghost var steps := CrSteps(inst);
      Peel(inst, objects, steps, 0, api);
      r := CreateOrUpdate(inst, StepFor(inst, ShieldConfig, inst.shieldConfigName), api);
      if r != Done { return; }
      Peel(inst, objects, steps, 1, api);
      r := CreateOrUpdate(inst, StepFor(inst, SignerConfig, "signer-config"), api);
      if r != Done { return; }
      for i := 0 to |inst.profiles|
        invariant RunOn(inst, old(objects), steps, api) == RunOn(inst, objects, steps[i + 2..], api)
      {
        Peel(inst, objects, steps, i + 2, api);
        var profile := inst.profiles[i];
        r := CreateOrUpdate(inst, Step(Id(ResourceSigningProfile, profile.name), profile.spec), api);
        if r != Done { return; }
      }
      Peeled(inst, objects, steps, api);
      return Done;
    }

    /** The webhook, the pod security policy and the cluster roles. */
    method DeleteRoles(inst: Instance, api: Api) returns (r: Outcome)
      modifies this`objects
      ensures (objects, r) == DeleteAllOn(old(objects), RoleChildren(inst), api)
    {
      hide DeleteOn, DeleteAllOn;
      ghost var ids, k := RoleChildren(inst), 0;
      PeelId(objects, ids, k, api);
      r := DeleteResource(Id(MutatingWebhookConfiguration, inst.webhookName), api);
      if r == Error { return; }
      k := k + 1;
      PeelId(objects, ids, k, api);
      r := DeleteResource(Id(PodSecurityPolicy, inst.pspName), api);
      if r == Error { return; }
      k := k + 1;
      if !inst.adminDisabled {
        PeelId(objects, ids, k, api);
        r := DeleteResource(Id(ClusterRoleBinding, "ishield-admin-clusterrolebinding"), api);
        if r == Error { return; }
        k := k + 1;
        PeelId(objects, ids, k, api);
        r := DeleteResource(Id(ClusterRole, "ishield-admin-clusterrole"), api);
        if r == Error { return; }
        k := k + 1;
      }
      PeelId(objects, ids, k, api);
      r := DeleteResource(Id(ClusterRoleBinding, inst.clusterRoleBindingName), api);
      if r == Error { return; }
      k := k + 1;
      PeelId(objects, ids, k, api);
      r := DeleteResource(Id(ClusterRole, inst.clusterRoleName), api);
      if r == Error { return; }
      k := k + 1;
      NoIds(objects, ids, api);
      return Done;
    }

    /** The custom resource definitions. */
    method DeleteCrds(inst: Instance, api: Api) returns (r: Outcome)
      modifies this`objects
      ensures (objects, r) == DeleteAllOn(old(objects), CrdChildren(inst), api)
    {
      hide DeleteOn, DeleteAllOn;
      hide ShieldConfigCrd, SignerConfigCrd, ResourceSignatureCrd, ResourceSigningProfileCrd, HelmReleaseMetadataCrd;
      ghost var ids, k := CrdChildren(inst), 0;
      if inst.helm {
        PeelId(objects, ids, k, api);
        r := DeleteResource(Id(CustomResourceDefinition, HelmReleaseMetadataCrd()), api);
        if r == Error { return; }
        k := k + 1;
      }
      PeelId(objects, ids, k, api);
      r := DeleteResource(Id(CustomResourceDefinition, ResourceSigningProfileCrd()), api);
      if r == Error { return; }
      k := k + 1;
      PeelId(objects, ids, k, api);
      r := DeleteResource(Id(CustomResourceDefinition, ResourceSignatureCrd()), api);
      if r == Error { return; }
      k := k + 1;
      PeelId(objects, ids, k, api);
      r := DeleteResource(Id(CustomResourceDefinition, SignerConfigCrd()), api);
      if r == Error { return; }
      k := k + 1;
      PeelId(objects, ids, k, api);
      r := DeleteResource(Id(CustomResourceDefinition, ShieldConfigCrd()), api);
      if r == Error { return; }
      k := k + 1;
      NoIds(objects, ids, api);
      return Done;
    }

    /** `deleteClusterScopedChildrenResources`. */
    method DeleteClusterScopedChildren(inst: Instance, api: Api) returns (r: Outcome)
      modifies this`objects
      ensures (objects, r) == DeleteAllOn(old(objects), ClusterScopedChildren(inst), api)
    {
      hide DeleteAllOn, RoleChildren, CrdChildren;
      DeleteAllConcat(objects, RoleChildren(inst), CrdChildren(inst), api);
      r := DeleteRoles(inst, api);
      if r == Error { return; }
      r := DeleteCrds(inst, api);
    }

    /** The normal path of `Reconcile`. */
    method Install(inst: Instance, api: Api) returns (r: Outcome)
      modifies this`objects
      ensures (objects, r) == CallOn(inst, old(objects), api)
    {
      hide RunOn, KeysReady, StepOn, DeleteOn, CrdSteps, CrSteps, AccountSteps, AdminSteps, ServerSteps;
      var ok, nonReadyKey := IsKeyRingReady(inst, api);
      if !ok { return Requeue; }
      PlanInParts(inst, objects, api);
      r := InstallCrds(inst, api);
      if r != Done { return; }
      r := InstallCrs(inst, api);
      if r != Done { return; }
      r := InstallAccounts(inst, api);
      if r != Done { return; }
      r := InstallAdmin(inst, api);
      if r != Done { return; }
      r := InstallServer(inst, api);
      if r != Done { return; }
      if GetStatus !in api.fails && Id(Deployment, inst.name) in objects && api.replicas > 0 {
        r := CreateOrUpdate(inst, StepFor(inst, MutatingWebhookConfiguration, inst.webhookName), api);
      } else {
        r := DeleteResource(Id(MutatingWebhookConfiguration, inst.webhookName), api);
      }
    }

    method Reconcile(api: Api) returns (r: Outcome)
      modifies this
      ensures (instance, objects, r) == ReconcileOn(old(instance), old(objects), api)
    {
      hide CallOn, DeleteAllOn, ClusterScopedChildren;
      if GetInstance in api.fails { return Error; }
      if instance.None? { return Done; }
      var inst := instance.value;
      if inst.deleting {
        var listed := ContainsString(inst.finalizers, CLEANUP_FINALIZER);
        if listed {
          r := DeleteClusterScopedChildren(inst, api);
          if r == Error { return; }
          var rest := RemoveString(inst.finalizers, CLEANUP_FINALIZER);
          if UpdateInstance in api.fails { return Error; }
          instance := Some(inst.(finalizers := rest));
        }
        return Done;
      }
      r := Install(inst, api);
    }
  }
}
