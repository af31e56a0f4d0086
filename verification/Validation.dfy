/** The format check of the shield's own resources: `shield/pkg/shield/utilValidation.go`. */
module Validation {
  import opened Text

  /** The requested object, decoded strictly into each of the shield's types; None when the object
      has a field the type does not know or is malformed. */
  datatype Decoded = Decoded(
    profile: Option<bool>,                 // whether it selects target namespaces
    signature: Option<SignatureParts>,
    shieldConfig: Option<()>,
    signerConfig: Option<Option<seq<nat>>>) // the number of subjects per signer, if there is a config

  datatype SignatureParts = SignatureParts(count: nat, labels: seq<string>)

  function RequiredLabels(): seq<string> {
    ["integrityshield.io/sigobject-apiversion", "integrityshield.io/sigobject-kind", "integrityshield.io/sigtime"]
  }

  const API_VERSION := "apis.integrityshield.io/v1alpha1"

  predicate ValidProfile(d: Decoded, namespace: string, shieldNs: string) {
    d.profile.Some? && (d.profile.value ==> namespace == shieldNs)
  }

  predicate ValidSignature(d: Decoded) {
    d.signature.Some? && d.signature.value.count <= 1 &&
    forall i :: 0 <= i < |RequiredLabels()| ==> RequiredLabels()[i] in d.signature.value.labels
  }

  predicate ValidSignerConfig(d: Decoded) {
    && d.signerConfig.Some? && d.signerConfig.value.Some?
    && var subjects := d.signerConfig.value.value;
       |subjects| > 0 && forall i :: 0 <= i < |subjects| ==> subjects[i] > 0
  }

  /** What the code accepts.  The kind is compared with an API version where ShieldConfig and
      HelmReleaseMetadata are meant, so these two kinds are never looked at. */
  predicate Valid(kind: string, operation: string, namespace: string, shieldNs: string, d: Decoded) {
    || operation == "DELETE"
    || (if kind == "ResourceSigningProfile" then ValidProfile(d, namespace, shieldNs)
        else if kind == "ResourceSignature" then ValidSignature(d)
        else if kind == API_VERSION then d.shieldConfig.Some?
        else kind == "SignerConfig" ==> ValidSignerConfig(d))
  }

  method ValidateResourceSignature(d: Decoded) returns (ok: bool, missing: seq<string>)
    ensures ok <==> ValidSignature(d)
    ensures d.signature.Some? && d.signature.value.count <= 1 ==>
              missing == Filter(RequiredLabels(), l => l !in d.signature.value.labels)
  {
    hide RequiredLabels;
    missing := [];
    if d.signature.None? { return false, missing; }
    if d.signature.value.count > 1 { return false, missing; }
    var labels := d.signature.value.labels;
    if "integrityshield.io/sigobject-apiversion" !in labels {
      missing := missing + ["integrityshield.io/sigobject-apiversion"];
    }
    if "integrityshield.io/sigobject-kind" !in labels { missing := missing + ["integrityshield.io/sigobject-kind"]; }
    if "integrityshield.io/sigtime" !in labels { missing := missing + ["integrityshield.io/sigtime"]; }
    LabelsInOrder(l => l !in labels);
    NoneMissing(RequiredLabels(), l => l !in labels);
    ok := |missing| == 0;
  }

  lemma LabelsInOrder(f: string -> bool)
    ensures Filter(RequiredLabels(), f) ==
            (if f("integrityshield.io/sigobject-apiversion") then ["integrityshield.io/sigobject-apiversion"] else []) +
            (if f("integrityshield.io/sigobject-kind") then ["integrityshield.io/sigobject-kind"] else []) +
            (if f("integrityshield.io/sigtime") then ["integrityshield.io/sigtime"] else [])
  {
    var a, b, c := "integrityshield.io/sigobject-apiversion", "integrityshield.io/sigobject-kind",
        "integrityshield.io/sigtime";
    FilterThree(a, b, c, f);
  }

  lemma FilterThree(a: string, b: string, c: string, f: string -> bool)
    ensures Filter([a, b, c], f) == (if f(a) then [a] else []) + (if f(b) then [b] else []) + (if f(c) then [c] else [])
  {
    assert [a, b, c][..2] == [a, b] && [a, b][..1] == [a] && [a][..0] == [];
    assert Filter([a], f) == if f(a) then [a] else [];
  }

  lemma NoneMissing(labels: seq<string>, f: string -> bool)
    ensures Filter(labels, f) == [] <==> forall i :: 0 <= i < |labels| ==> !f(labels[i])
  {
    if Filter(labels, f) == [] {
      forall i | 0 <= i < |labels| ensures !f(labels[i]) { FilterMember(labels, f, labels[i]); }
    } else {
      FilterMember(labels, f, Filter(labels, f)[0]);
    }
  }

  method ValidateSignerConfig(d: Decoded) returns (ok: bool)
    ensures ok <==> ValidSignerConfig(d)
  {
    if d.signerConfig.None? { return false; }
    if d.signerConfig.value.None? { return false; }
    var subjects := d.signerConfig.value.value;
    if |subjects| == 0 { return false; }
    for i := 0 to |subjects|
      invariant forall j :: 0 <= j < i ==> subjects[j] > 0
    {
      if subjects[i] == 0 { return false; }
    }
    return true;
  }

  method ValidateResource(kind: string, operation: string, namespace: string, shieldNs: string, d: Decoded)
    returns (ok: bool)
    ensures ok <==> Valid(kind, operation, namespace, shieldNs, d)
  {
    hide ValidSignature, ValidSignerConfig;
    if operation == "DELETE" { return true; }
    if kind == "ResourceSigningProfile" {
      if d.profile.None? { return false; }
      if namespace != shieldNs && d.profile.value { return false; }
      return true;
    } else if kind == "ResourceSignature" {
      var missing;
      ok, missing := ValidateResourceSignature(d);
    } else if kind == API_VERSION {
      return d.shieldConfig.Some?;
    } else if kind == "SignerConfig" {
      ok := ValidateSignerConfig(d);
    } else {
      return true;
    }
  }

  /** A ShieldConfig passes whatever it holds. */
  lemma ShieldConfigUnchecked(operation: string, namespace: string, shieldNs: string, d: Decoded)
    ensures Valid("ShieldConfig", operation, namespace, shieldNs, d)
  {
    assert "ShieldConfig"[0] == 'S' && API_VERSION[0] == 'a' && "ResourceSigningProfile"[0] == 'R' &&
           "ResourceSignature"[0] == 'R';
    assert |"ShieldConfig"| == |"SignerConfig"| && "ShieldConfig"[1] == 'h' && "SignerConfig"[1] == 'i';
  }
}
