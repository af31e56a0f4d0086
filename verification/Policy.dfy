/** The signer policy: `shield/pkg/common/policy.go`. */
module Policy {
  import opened Text
  import opened Pattern

  datatype Scope = Undefined | Namespaced | Cluster

  datatype SubjectPattern = SubjectPattern(
    email: string, uid: string, country: string, organization: string, organizationalUnit: string, locality: string,
    province: string, streetAddress: string, postalCode: string, commonName: string, serialNumber: string)

  datatype SignerInfo = SignerInfo(
    email: string, name: string, comment: string, uid: string, country: string, organization: string,
    organizationalUnit: string, locality: string, province: string, streetAddress: string, postalCode: string,
    commonName: string, serialNumber: Option<int>, fingerprint: string)

  /** `MatchBigInt(pattern, serial)`: arbitrary precision arithmetic is not modelled. */
  type SerialMatcher = (string, Option<int>) -> bool

  /** One signer: its name, the key configuration it signs with, the subjects it stands for. */
  datatype Signer = Signer(name: string, keyConfig: string, subjects: seq<SubjectPattern>)

  datatype PolicyCondition = PolicyCondition(scope: Scope, namespaces: seq<string>, excludeNamespaces: seq<string>,
                                             signers: seq<string>)

  datatype BreakGlass = BreakGlass(scope: Scope, namespaces: seq<string>)

  datatype SignerConfig = SignerConfig(policies: seq<PolicyCondition>, signers: seq<Signer>,
                                       breakGlass: seq<BreakGlass>)

  datatype SubjectCondition = SubjectCondition(name: string, keyConfig: string, subject: SubjectPattern)

  predicate SubjectMatches(sm: SerialMatcher, p: SubjectPattern, s: SignerInfo) {
    && MatchPattern(p.email, s.email) && MatchPattern(p.uid, s.uid) && MatchPattern(p.country, s.country)
    && MatchPattern(p.organization, s.organization) && MatchPattern(p.organizationalUnit, s.organizationalUnit)
    && MatchPattern(p.locality, s.locality) && MatchPattern(p.province, s.province)
    && MatchPattern(p.streetAddress, s.streetAddress) && MatchPattern(p.postalCode, s.postalCode)
    && MatchPattern(p.commonName, s.commonName) && sm(p.serialNumber, s.serialNumber)
  }

  /** A policy speaks about a namespace; the empty namespace stands for cluster scope. */
  predicate Applies(p: PolicyCondition, namespace: string) {
    if namespace == "" then p.scope == Cluster
    else
      && p.scope != Cluster
      && MatchWithPatternArray(namespace, p.namespaces)
      && !MatchWithPatternArray(namespace, p.excludeNamespaces)
  }

  method PolicyApplies(p: PolicyCondition, namespace: string) returns (b: bool)
    ensures b <==> Applies(p, namespace)
  {
    hide MatchWithPatternArray;
    var included, excluded := false, false;
    if namespace == "" {
      if p.scope == Cluster { included := true; }
    } else if p.scope != Cluster {
      included := AnyPatternMatches(namespace, p.namespaces);
      excluded := AnyPatternMatches(namespace, p.excludeNamespaces);
    }
    b := included && !excluded;
  }

  predicate DistinctNames(signers: seq<Signer>) {
    forall i, j :: 0 <= i < j < |signers| ==> signers[i].name != signers[j].name
  }

  // ---- GetSignerMap ----

  function Conditions(s: Signer): (r: seq<SubjectCondition>)
    ensures |r| == |s.subjects| && forall i :: 0 <= i < |r| ==>
              r[i] == SubjectCondition(s.name, s.keyConfig, s.subjects[i])
  {
    seq(|s.subjects|, i requires 0 <= i < |s.subjects| => SubjectCondition(s.name, s.keyConfig, s.subjects[i]))
  }

  /** The signer that owns a name: with repeated names the last one. */
  predicate Owns(signers: seq<Signer>, name: string, i: nat) {
    i < |signers| && signers[i].name == name && forall j :: i < j < |signers| ==> signers[j].name != name
  }

  method GetSignerMap(c: SignerConfig) returns (m: map<string, seq<SubjectCondition>>)
    ensures forall name :: name in m <==> exists i :: 0 <= i < |c.signers| && c.signers[i].name == name
    ensures forall name, i: nat :: Owns(c.signers, name, i) ==> name in m && m[name] == Conditions(c.signers[i])
  {
    m := map[];
    for k := 0 to |c.signers|
      invariant forall name :: name in m <==> exists i :: 0 <= i < k && c.signers[i].name == name
      invariant forall name, i: nat :: Owns(c.signers[..k], name, i) ==>
                  name in m && m[name] == Conditions(c.signers[i])
    {
      var si := c.signers[k];
      var tmp := [];
      for j := 0 to |si.subjects|
        invariant tmp == Conditions(si)[..j]
      {
        tmp := tmp + [SubjectCondition(si.name, si.keyConfig, si.subjects[j])];
      }
      assert tmp == Conditions(si);
      ghost var before := m;
      m := m[si.name := tmp];
      forall name, i: nat | Owns(c.signers[..k + 1], name, i) ensures name in m && m[name] == Conditions(c.signers[i]) {
        if i < k {
          assert c.signers[..k + 1][k].name != name;
          assert forall j :: i < j < k ==> c.signers[..k][j] == c.signers[..k + 1][j];
          assert Owns(c.signers[..k], name, i);
        }
      }
    }
    assert c.signers[..|c.signers|] == c.signers;
  }

  // ---- Match ----

  predicate PathHas(path: string, keyConfig: string) { Contains(path, "/" + keyConfig + "/") }

  predicate SomePath(paths: seq<string>, keyConfig: string) {
    exists i :: 0 <= i < |paths| && PathHas(paths[i], keyConfig)
  }

  method KeyPathOf(paths: seq<string>, keyConfig: string) returns (b: bool)
    ensures b <==> SomePath(paths, keyConfig)
  {
    hide Contains;
    for i := 0 to |paths|
      invariant forall j :: 0 <= j < i ==> !PathHas(paths[j], keyConfig)
    {
      if Contains(paths[i], "/" + keyConfig + "/") { return true; }
    }
    return false;
  }

  /** The signer `i` of the configuration may sign with one of the verified paths. */
  predicate SignerAccepts(sm: SerialMatcher, s: Signer, info: SignerInfo, verified: seq<string>) {
    SomePath(verified, s.keyConfig) && exists j :: 0 <= j < |s.subjects| && SubjectMatches(sm, s.subjects[j], info)
  }

  ghost predicate PolicyAccepts(sm: SerialMatcher, c: SignerConfig, p: PolicyCondition, info: SignerInfo,
                                verified: seq<string>) {
    exists k, i: nat :: 0 <= k < |p.signers| && Owns(c.signers, p.signers[k], i) &&
                        SignerAccepts(sm, c.signers[i], info, verified)
  }

  /** Some policy that applies to the namespace lists a signer with a matching subject whose
      key configuration occurs in a verified path. */
  ghost predicate Accepts(sm: SerialMatcher, c: SignerConfig, namespace: string, info: SignerInfo,
                          verified: seq<string>) {
    exists p :: 0 <= p < |c.policies| && Applies(c.policies[p], namespace) &&
                PolicyAccepts(sm, c, c.policies[p], info, verified)
  }

  method ConditionsAccept(sm: SerialMatcher, conds: seq<SubjectCondition>, info: SignerInfo, verified: seq<string>)
    returns (ok: bool)
    ensures ok <==> exists j :: 0 <= j < |conds| && SubjectMatches(sm, conds[j].subject, info) &&
                                SomePath(verified, conds[j].keyConfig)
  {
    hide SubjectMatches, SomePath;
    ok := false;
    for j := 0 to |conds|
      invariant ok <==> exists l :: 0 <= l < j && SubjectMatches(sm, conds[l].subject, info) &&
                                    SomePath(verified, conds[l].keyConfig)
    {
      if !SubjectMatches(sm, conds[j].subject, info) { continue; }
      var pathOk := KeyPathOf(verified, conds[j].keyConfig);
      if pathOk { ok := true; }
    }
  }

  lemma ConditionsMeanSigner(sm: SerialMatcher, s: Signer, info: SignerInfo, verified: seq<string>)
    ensures (exists j :: 0 <= j < |Conditions(s)| && SubjectMatches(sm, Conditions(s)[j].subject, info) &&
                         SomePath(verified, Conditions(s)[j].keyConfig))
            <==> SignerAccepts(sm, s, info, verified)
  {
    hide SubjectMatches, SomePath;
    if SignerAccepts(sm, s, info, verified) {
      var j :| 0 <= j < |s.subjects| && SubjectMatches(sm, s.subjects[j], info);
      assert Conditions(s)[j].subject == s.subjects[j];
    }
  }

  lemma {:induction false} OwnerExists(signers: seq<Signer>, name: string) returns (i: nat)
    requires exists k :: 0 <= k < |signers| && signers[k].name == name
    ensures Owns(signers, name, i)
  {
    var last := |signers| - 1;
    if signers[last].name == name { return last; }
    var k :| 0 <= k < |signers| && signers[k].name == name;
    assert signers[..last][k].name == name;
    i := OwnerExists(signers[..last], name);
    assert forall j :: i < j < last ==> signers[..last][j] == signers[j];
  }

  method PolicySigners(sm: SerialMatcher, c: SignerConfig, m: map<string, seq<SubjectCondition>>, p: PolicyCondition,
                       info: SignerInfo, verified: seq<string>) returns (ok: bool)
    requires forall name :: name in m <==> exists i :: 0 <= i < |c.signers| && c.signers[i].name == name
    requires forall name, i: nat :: Owns(c.signers, name, i) ==> name in m && m[name] == Conditions(c.signers[i])
    ensures ok <==> PolicyAccepts(sm, c, p, info, verified)
  {
    hide SignerAccepts, SubjectMatches, SomePath, Conditions;
    for k := 0 to |p.signers|
      invariant forall l, i: nat :: 0 <= l < k && Owns(c.signers, p.signers[l], i) ==>
                  !SignerAccepts(sm, c.signers[i], info, verified)
    {
      var name := p.signers[k];
      if name !in m { continue; }
      ghost var i := OwnerExists(c.signers, name);
      var matched := ConditionsAccept(sm, m[name], info, verified);
      ConditionsMeanSigner(sm, c.signers[i], info, verified);
      OwnerUnique(c.signers, name, i);
      if matched { return true; }
    }
    return false;
  }

  lemma OwnerUnique(signers: seq<Signer>, name: string, i: nat)
    requires Owns(signers, name, i)
    ensures forall j: nat :: Owns(signers, name, j) ==> j == i
  {}

  method Match(sm: SerialMatcher, c: SignerConfig, namespace: string, info: SignerInfo, verified: seq<string>)
    returns (ok: bool, condition: Option<PolicyCondition>)
    ensures ok <==> Accepts(sm, c, namespace, info, verified)
    ensures ok <==> condition.Some?
    ensures ok ==> condition.value in c.policies && Applies(condition.value, namespace) &&
                   PolicyAccepts(sm, c, condition.value, info, verified)
  {
    hide Applies, PolicyAccepts, Owns;
    var signerMap := GetSignerMap(c);
    for p := 0 to |c.policies|
      invariant forall q :: 0 <= q < p ==>
                  !(Applies(c.policies[q], namespace) && PolicyAccepts(sm, c, c.policies[q], info, verified))
    {
      var applies := PolicyApplies(c.policies[p], namespace);
      var signerMatched := PolicySigners(sm, c, signerMap, c.policies[p], info, verified);
      if applies && signerMatched { return true, Some(c.policies[p]); }
    }
    return false, None;
  }

  // ---- GetCandidatePubkeys ----

  /** The key configurations named by the signers of the policies that apply. */
  predicate Named(c: SignerConfig, namespace: string, keyConfig: string) {
    exists p, k, i :: 0 <= p < |c.policies| && Applies(c.policies[p], namespace) && 0 <= k < |c.policies[p].signers| &&
                      0 <= i < |c.signers| && c.signers[i].name == c.policies[p].signers[k] &&
                      c.signers[i].keyConfig == keyConfig
  }

  method CandidateConfigs(c: SignerConfig, namespace: string) returns (configs: seq<string>)
    ensures forall x :: x in configs <==> Named(c, namespace, x)
  {
    hide Applies;
    configs := [];
    for p := 0 to |c.policies|
      invariant forall x :: x in configs <==>
                  exists q, k, i ::
                    0 <= q < p && Applies(c.policies[q], namespace) && 0 <= k < |c.policies[q].signers| &&
                    0 <= i < |c.signers| && c.signers[i].name == c.policies[q].signers[k] &&
                    c.signers[i].keyConfig == x
    {
      var applies := PolicyApplies(c.policies[p], namespace);
      if !applies { continue; }
      var more := SignerConfigs(c, c.policies[p].signers);
      configs := configs + more;
    }
  }

  method SignerConfigs(c: SignerConfig, names: seq<string>) returns (configs: seq<string>)
    ensures forall x :: x in configs <==>
              exists k, i :: 0 <= k < |names| && 0 <= i < |c.signers| && c.signers[i].name == names[k] &&
                             c.signers[i].keyConfig == x
  {
    configs := [];
    for k := 0 to |names|
      invariant forall x :: x in configs <==>
                  exists l, i :: 0 <= l < k && 0 <= i < |c.signers| && c.signers[i].name == names[l] &&
                                 c.signers[i].keyConfig == x
    {
      for i := 0 to |c.signers|
        invariant forall x :: x in configs <==>
                    (exists l, j :: 0 <= l < k && 0 <= j < |c.signers| && c.signers[j].name == names[l] &&
                                    c.signers[j].keyConfig == x) ||
                    (exists j :: 0 <= j < i && c.signers[j].name == names[k] && c.signers[j].keyConfig == x)
      {
        if c.signers[i].name == names[k] { configs := configs + [c.signers[i].keyConfig]; }
      }
    }
  }

  datatype KeyType = Pgp | X509

  function Mounted(config: string, path: string): Option<KeyType> {
    if Contains(path, "/" + config + "/pgp/") then Some(Pgp)
    else if Contains(path, "/" + config + "/x509/") then Some(X509)
    else None
  }

  /** The kind of a mounted path: that of the first candidate configuration that names it. */
  function Classify(configs: seq<string>, path: string): Option<KeyType> {
    if configs == [] then None
    else if Mounted(configs[0], path).Some? then Mounted(configs[0], path)
    else Classify(configs[1..], path)
  }

  lemma {:induction false} ClassifyMeaning(configs: seq<string>, path: string)
    ensures Classify(configs, path).Some? <==> exists i :: 0 <= i < |configs| && Mounted(configs[i], path).Some?
    ensures Classify(configs, path).Some? ==>
              exists i :: 0 <= i < |configs| && Mounted(configs[i], path) == Classify(configs, path)
  {
    hide Mounted;
    if configs != [] {
      ClassifyMeaning(configs[1..], path);
      assert forall i :: 1 <= i < |configs| ==> configs[i] == configs[1..][i - 1];
    }
  }

  /** The kind of a path is the directory it lies in, under a candidate configuration. */
  lemma KindFromPath(configs: seq<string>, path: string)
    ensures Classify(configs, path) == Some(Pgp) ==> exists x :: x in configs && Contains(path, "/" + x + "/pgp/")
    ensures Classify(configs, path) == Some(X509) ==> exists x :: x in configs && Contains(path, "/" + x + "/x509/")
  {
    hide Classify, Contains;
    ClassifyMeaning(configs, path);
    if Classify(configs, path).Some? {
      var i :| 0 <= i < |configs| && Mounted(configs[i], path) == Classify(configs, path);
      assert configs[i] in configs;
    }
  }

  /** A signer of a policy for the namespace names the path. */
  ghost predicate NamedPath(c: SignerConfig, namespace: string, path: string) {
    exists x :: Named(c, namespace, x) && Mounted(x, path).Some?
  }

  method GetCandidatePubkeys(c: SignerConfig, keyPaths: seq<string>, namespace: string)
    returns (pgp: seq<string>, x509: seq<string>, ghost configs: seq<string>)
    ensures forall x :: x in configs <==> Named(c, namespace, x)
    ensures pgp == Filter(keyPaths, path => Classify(configs, path) == Some(Pgp))
    ensures x509 == Filter(keyPaths, path => Classify(configs, path) == Some(X509))
    ensures forall path :: path in pgp || path in x509 <==> path in keyPaths && NamedPath(c, namespace, path)
    ensures forall path :: !(path in pgp && path in x509)
    ensures forall path :: path in pgp ==> exists x :: Named(c, namespace, x) && Contains(path, "/" + x + "/pgp/")
    ensures forall path :: path in x509 ==> exists x :: Named(c, namespace, x) && Contains(path, "/" + x + "/x509/")
  {
    hide Named, Classify, NamedPath, Contains;
    var candidates := CandidateConfigs(c, namespace);
    configs := candidates;
    pgp, x509 := [], [];
    for i := 0 to |keyPaths|
      invariant pgp == Filter(keyPaths[..i], path => Classify(configs, path) == Some(Pgp))
      invariant x509 == Filter(keyPaths[..i], path => Classify(configs, path) == Some(X509))
    {
      assert keyPaths[..i + 1][..i] == keyPaths[..i];
      var kind := FirstMounted(candidates, keyPaths[i]);
      match kind
      case Some(Pgp) => pgp := pgp + [keyPaths[i]];
      case Some(X509) => x509 := x509 + [keyPaths[i]];
      case None =>
    }
    assert keyPaths[..|keyPaths|] == keyPaths;
    forall path
      ensures path in pgp || path in x509 <==> path in keyPaths && NamedPath(c, namespace, path)
      ensures !(path in pgp && path in x509)
      ensures path in pgp ==> exists x :: Named(c, namespace, x) && Contains(path, "/" + x + "/pgp/")
      ensures path in x509 ==> exists x :: Named(c, namespace, x) && Contains(path, "/" + x + "/x509/")
    {
      CandidateMeaning(c, keyPaths, namespace, configs, path);
      FilterMember(keyPaths, p => Classify(configs, p) == Some(Pgp), path);
      FilterMember(keyPaths, p => Classify(configs, p) == Some(X509), path);
      KindFromPath(configs, path);
    }
  }

  lemma PathPieces(config: string)
    ensures "/" + config + "/" + "pgp" + "/" == "/" + config + "/pgp/"
    ensures "/" + config + "/" + "x509" + "/" == "/" + config + "/x509/"
  {
    assert "/" + "pgp" + "/" == "/pgp/" && "/" + "x509" + "/" == "/x509/";
  }

  method FirstMounted(configs: seq<string>, path: string) returns (kind: Option<KeyType>)
    ensures kind == Classify(configs, path)
  {
    hide Contains;
    for i := 0 to |configs|
      invariant Classify(configs, path) == Classify(configs[i..], path)
    {
      PathPieces(configs[i]);
      if Contains(path, "/" + configs[i] + "/" + "pgp" + "/") {
        return Some(Pgp);
      } else if Contains(path, "/" + configs[i] + "/" + "x509" + "/") {
        return Some(X509);
      }
      assert configs[i..][1..] == configs[i + 1..];
    }
    return None;
  }

  /** A mounted path is a candidate exactly when a signer of an applicable policy names it, and
      it is a candidate of one kind only. */
  lemma CandidateMeaning(c: SignerConfig, keyPaths: seq<string>, namespace: string, configs: seq<string>, path: string)
    requires forall x :: x in configs <==> Named(c, namespace, x)
    ensures var pgp := Filter(keyPaths, p => Classify(configs, p) == Some(Pgp));
            var x509 := Filter(keyPaths, p => Classify(configs, p) == Some(X509));
            && (path in pgp || path in x509 <==> path in keyPaths && NamedPath(c, namespace, path))
            && !(path in pgp && path in x509)
  {
    hide Named, Mounted, Classify;
    FilterMember(keyPaths, p => Classify(configs, p) == Some(Pgp), path);
    FilterMember(keyPaths, p => Classify(configs, p) == Some(X509), path);
    ClassifyMeaning(configs, path);
    if x :| Named(c, namespace, x) && Mounted(x, path).Some? {
      var i :| 0 <= i < |configs| && configs[i] == x;
    }
    if Classify(configs, path).Some? {
      var i :| 0 <= i < |configs| && Mounted(configs[i], path).Some?;
      assert configs[i] in configs && Named(c, namespace, configs[i]);
      var kind := Classify(configs, path).value;
      assert kind.Pgp? || kind.X509?;
    }
  }

  /** Written out: policy `p` is for the namespace and lists, as number `k`, the name of signer `i`; no
      later signer has that name; all eleven fields of its subject `j` match; and the verified path
      `h` lies under its key configuration. */
  predicate AcceptedAs(sm: SerialMatcher, c: SignerConfig, namespace: string, info: SignerInfo, verified: seq<string>,
                       p: nat, k: nat, i: nat, j: nat, h: nat) {
    && p < |c.policies| && k < |c.policies[p].signers| && i < |c.signers|
    && j < |c.signers[i].subjects| && h < |verified|
    && SpeaksAbout(c.policies[p], namespace) && LastNamed(c.signers, c.policies[p].signers[k], i)
    && SubjectIs(sm, c.signers[i].subjects[j], info) && Contains(verified[h], "/" + c.signers[i].keyConfig + "/")
  }

  lemma AppliesExactly(p: PolicyCondition, namespace: string)
    ensures Applies(p, namespace) <==> SpeaksAbout(p, namespace)
  {
    hide MatchPattern;
  }

  lemma AcceptsExactly(sm: SerialMatcher, c: SignerConfig, namespace: string, info: SignerInfo, verified: seq<string>)
    ensures Accepts(sm, c, namespace, info, verified) <==>
            exists p: nat, k: nat, i: nat, j: nat, h: nat ::
              AcceptedAs(sm, c, namespace, info, verified, p, k, i, j, h)
  {
    hide AcceptedAs;
    if Accepts(sm, c, namespace, info, verified) { AcceptedSomehow(sm, c, namespace, info, verified); }
    if p: nat, k: nat, i: nat, j: nat, h: nat :| AcceptedAs(sm, c, namespace, info, verified, p, k, i, j, h) {
      AcceptedAccepts(sm, c, namespace, info, verified, p, k, i, j, h);
    }
  }

  lemma AcceptedSomehow(sm: SerialMatcher, c: SignerConfig, namespace: string, info: SignerInfo, verified: seq<string>)
    requires Accepts(sm, c, namespace, info, verified)
    ensures exists p: nat, k: nat, i: nat, j: nat, h: nat ::
              AcceptedAs(sm, c, namespace, info, verified, p, k, i, j, h)
  {
    hide Contains, Applies, SpeaksAbout, SubjectIs, SubjectMatches;
    var p: nat :| p < |c.policies| && Applies(c.policies[p], namespace) &&
                  PolicyAccepts(sm, c, c.policies[p], info, verified);
    var k: nat, i: nat :| k < |c.policies[p].signers| && Owns(c.signers, c.policies[p].signers[k], i) &&
                          SignerAccepts(sm, c.signers[i], info, verified);
    var j: nat :| j < |c.signers[i].subjects| && SubjectMatches(sm, c.signers[i].subjects[j], info);
    var h: nat :| h < |verified| && PathHas(verified[h], c.signers[i].keyConfig);
    AppliesExactly(c.policies[p], namespace);
    SubjectExactly(sm, c.signers[i].subjects[j], info);
    assert AcceptedAs(sm, c, namespace, info, verified, p, k, i, j, h);
  }

  lemma AcceptedAccepts(sm: SerialMatcher, c: SignerConfig, namespace: string, info: SignerInfo, verified: seq<string>,
                        p: nat, k: nat, i: nat, j: nat, h: nat)
    requires AcceptedAs(sm, c, namespace, info, verified, p, k, i, j, h)
    ensures Accepts(sm, c, namespace, info, verified)
  {
    hide Contains, Applies, SpeaksAbout, SubjectIs, SubjectMatches;
    AppliesExactly(c.policies[p], namespace);
    SubjectExactly(sm, c.signers[i].subjects[j], info);
    assert PathHas(verified[h], c.signers[i].keyConfig);
    assert SignerAccepts(sm, c.signers[i], info, verified);
    assert Owns(c.signers, c.policies[p].signers[k], i);
    assert PolicyAccepts(sm, c, c.policies[p], info, verified);
  }

  /** Cluster policies speak about cluster scope only, all others about the namespaces they include
      and do not exclude. */
  predicate SpeaksAbout(p: PolicyCondition, namespace: string) {
    || (namespace == "" && p.scope.Cluster?)
    || (namespace != "" && (p.scope.Namespaced? || p.scope.Undefined?) &&
        (exists i :: 0 <= i < |p.namespaces| && MatchPattern(p.namespaces[i], namespace)) &&
        forall i :: 0 <= i < |p.excludeNamespaces| ==> !MatchPattern(p.excludeNamespaces[i], namespace))
  }

  predicate LastNamed(signers: seq<Signer>, name: string, i: nat)
    requires i < |signers|
  {
    signers[i].name == name && forall j :: i < j < |signers| ==> signers[j].name != name
  }

  function SubjectPatterns(p: SubjectPattern): seq<string> {
    [p.email, p.uid, p.country, p.organization, p.organizationalUnit, p.locality, p.province, p.streetAddress,
     p.postalCode, p.commonName]
  }

  function SubjectValues(s: SignerInfo): seq<string> {
    [s.email, s.uid, s.country, s.organization, s.organizationalUnit, s.locality, s.province, s.streetAddress,
     s.postalCode, s.commonName]
  }

  predicate SubjectIs(sm: SerialMatcher, p: SubjectPattern, s: SignerInfo) {
    && sm(p.serialNumber, s.serialNumber)
    && forall i :: 0 <= i < 10 ==> MatchPattern(SubjectPatterns(p)[i], SubjectValues(s)[i])
  }

  lemma SubjectExactly(sm: SerialMatcher, p: SubjectPattern, s: SignerInfo)
    ensures SubjectIs(sm, p, s) <==> SubjectMatches(sm, p, s)
  {
    hide MatchPattern;
    var ps, vs := SubjectPatterns(p), SubjectValues(s);
    assert MatchPattern(ps[0], vs[0]) == MatchPattern(p.email, s.email);
    assert MatchPattern(ps[1], vs[1]) == MatchPattern(p.uid, s.uid);
    assert MatchPattern(ps[2], vs[2]) == MatchPattern(p.country, s.country);
    assert MatchPattern(ps[3], vs[3]) == MatchPattern(p.organization, s.organization);
    assert MatchPattern(ps[4], vs[4]) == MatchPattern(p.organizationalUnit, s.organizationalUnit);
    assert MatchPattern(ps[5], vs[5]) == MatchPattern(p.locality, s.locality);
    assert MatchPattern(ps[6], vs[6]) == MatchPattern(p.province, s.province);
    assert MatchPattern(ps[7], vs[7]) == MatchPattern(p.streetAddress, s.streetAddress);
    assert MatchPattern(ps[8], vs[8]) == MatchPattern(p.postalCode, s.postalCode);
    assert MatchPattern(ps[9], vs[9]) == MatchPattern(p.commonName, s.commonName);
  }

  /** With distinct signer names the owner of a name is simply the signer that has it. */
  lemma AcceptsWithDistinctNames(sm: SerialMatcher, c: SignerConfig, namespace: string, info: SignerInfo,
                                 verified: seq<string>)
    requires DistinctNames(c.signers)
    ensures Accepts(sm, c, namespace, info, verified) <==>
            exists p, k, i ::
              0 <= p < |c.policies| && Applies(c.policies[p], namespace) && 0 <= k < |c.policies[p].signers| &&
              0 <= i < |c.signers| && c.signers[i].name == c.policies[p].signers[k] &&
              SignerAccepts(sm, c.signers[i], info, verified)
  {
    hide Applies, SignerAccepts;
    forall name, i: nat | i < |c.signers| && c.signers[i].name == name ensures Owns(c.signers, name, i) {}
  }
}
