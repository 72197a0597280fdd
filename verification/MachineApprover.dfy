/** Who gets a certificate: the authorization of a CSR by the NodeClaims and the instances behind them. */
module MachineApprover {
  import opened Wrappers
  import opened Verifier

  const NODE_BOOTSTRAPPER := "system:serviceaccount:openshift-machine-config-operator:node-bootstrapper"
  const NODE_GROUP := "system:nodes"
  const NODE_PREFIX := "system:node:"

  datatype Signer = KubeAPIServerClientKubelet | KubeletServing | OtherSigner(name: string)

  /** `commonName` is the subject of the PEM request, None when that cannot be parsed. The spec never changes. */
  datatype Spec = Spec(signer: Signer, username: string, groups: seq<string>, commonName: Option<string>)

  datatype Kind = Approved | Denied | Failed

  /** What this controller saw when it decided: the listing of NodeClaims and the instances in the cloud. */
  datatype Grounds = Grounds(claims: seq<NodeClaim>, cloud: map<string, Instance>)

  /** `ours` is None on the conditions of everybody else. */
  datatype Condition = Condition(kind: Kind, ours: Option<Grounds>)

  predicate Decision(c: Condition) {
    c.kind == Approved || c.kind == Denied
  }

  predicate Pending(conditions: seq<Condition>) {
    forall c :: c in conditions ==> !Decision(c)
  }

  /** The watch filter. */
  predicate Selected(spec: Spec, conditions: seq<Condition>) {
    Pending(conditions) && Requestable(spec)
  }

  predicate Requestable(spec: Spec) {
    match spec.signer
    case KubeAPIServerClientKubelet => spec.username == NODE_BOOTSTRAPPER
    case KubeletServing => NODE_GROUP in spec.groups
    case OtherSigner(_) => false
  }

  function TrimPrefix(s: string, prefix: string): string {
    if prefix <= s then s[|prefix|..] else s
  }

  /** The claims no node has joined for, in order. */
  function Unbound(claims: seq<NodeClaim>): seq<NodeClaim> {
    if claims == [] then []
    else
      var last := claims[|claims| - 1];
      Unbound(claims[..|claims| - 1]) + (if last.nodeName != "" then [] else [last])
  }

  lemma {:induction false} UnboundClaims(claims: seq<NodeClaim>, c: NodeClaim)
    ensures c in Unbound(claims) <==> c in claims && c.nodeName == ""
  {
    if claims != [] {
      var n := |claims| - 1;
      UnboundClaims(claims[..n], c);
      assert claims == claims[..n] + [claims[n]];
    }
  }

  /** The first claim whose node has this name. */
  function Target(claims: seq<NodeClaim>, name: string): Option<NodeClaim> {
    if claims == [] then None
    else if claims[0].nodeName == name then Some(claims[0])
    else Target(claims[1..], name)
  }

  lemma {:induction false} TargetIsFirst(claims: seq<NodeClaim>, name: string)
    ensures match Target(claims, name)
      case Some(c) => exists i :: IsFirst(claims, name, i) && claims[i] == c
      case None => forall c :: c in claims ==> c.nodeName != name
  {
    if claims != [] && claims[0].nodeName != name {
      TargetIsFirst(claims[1..], name);
      if Target(claims, name).Some? {
        var i :| IsFirst(claims[1..], name, i) && claims[1..][i] == Target(claims, name).value;
        assert forall j :: 0 < j <= i ==> claims[j] == claims[1..][j - 1];
        assert IsFirst(claims, name, i + 1);
      }
    } else if claims != [] {
      assert IsFirst(claims, name, 0);
    }
  }

  predicate IsFirst(claims: seq<NodeClaim>, name: string, i: int) {
    0 <= i < |claims| && claims[i].nodeName == name && forall j :: 0 <= j < i ==> claims[j].nodeName != name
  }

  type Listing = Result<seq<NodeClaim>, Fault>

  function Listed(items: seq<NodeClaim>, failed: Option<Fault>): Listing {
    if failed.Some? then Err(failed.value) else Ok(items)
  }

  function AuthorizeClient(commonName: Option<string>, listing: Listing, describe: Describe): Result<bool, Fault> {
    if commonName.None? then Err(Fault("PEM block type must be CERTIFICATE REQUEST"))
    else
      var name := TrimPrefix(commonName.value, NODE_PREFIX);
      if name == "" then Err(Fault("subject common name does not have a valid node name"))
      else if listing.Err? then Err(listing.error)
      else if Unbound(listing.value) == [] then Ok(false)
      else Verified(describe, name, Unbound(listing.value))
  }

  function AuthorizeServing(username: string, listing: Listing, describe: Describe): Result<bool, Fault> {
    var name := TrimPrefix(username, NODE_PREFIX);
    if name == "" then Err(Fault("csr username does not have a valid node name"))
    else if listing.Err? then Err(listing.error)
    else
      var target := Target(listing.value, name);
      if target.None? then Ok(false) else Verified(describe, name, [target.value])
  }

  function Authorize(spec: Spec, listing: Listing, describe: Describe): Result<bool, Fault> {
    match spec.signer
    case KubeAPIServerClientKubelet => AuthorizeClient(spec.commonName, listing, describe)
    case KubeletServing => AuthorizeServing(spec.username, listing, describe)
    case OtherSigner(_) => Err(Fault("unrecognized signerName"))
  }

  /******* What an authorization means *******/

  /** The node name a CSR asks for, if it names one. */
  function RequestedName(spec: Spec): Option<string> {
    match spec.signer
    case KubeAPIServerClientKubelet =>
      if spec.commonName.None? then None else NonEmpty(TrimPrefix(spec.commonName.value, NODE_PREFIX))
    case KubeletServing => NonEmpty(TrimPrefix(spec.username, NODE_PREFIX))
    case OtherSigner(_) => None
  }

  function NonEmpty(s: string): Option<string> {
    if s == "" then None else Some(s)
  }

  /**
   A client CSR asks for the name of the instance of a NodeClaim without a node; a serving CSR asks for the name of
   the first NodeClaim with that node, and its instance has the name as well.
   */
  ghost predicate Entitled(spec: Spec, claims: seq<NodeClaim>, cloud: map<string, Instance>) {
    RequestedName(spec).Some? &&
    var name := RequestedName(spec).value;
    if spec.signer.KubeletServing? then exists i :: IsFirst(claims, name, i) && ClaimHas(cloud, claims[i], name)
    else exists c :: c in claims && c.nodeName == "" && ClaimHas(cloud, c, name)
  }

  /** The claims whose instances are looked up. */
  function Candidates(spec: Spec, claims: seq<NodeClaim>, name: string): seq<NodeClaim> {
    if !spec.signer.KubeletServing? then Unbound(claims)
    else if Target(claims, name).None? then []
    else [Target(claims, name).value]
  }

  lemma CandidatesMeanEntitled(spec: Spec, claims: seq<NodeClaim>, cloud: map<string, Instance>)
    requires RequestedName(spec).Some?
    ensures var name := RequestedName(spec).value;
      Entitled(spec, claims, cloud) <==> SomeClaimHas(cloud, Candidates(spec, claims, name), name)
  {
    var name := RequestedName(spec).value;
    var candidates := Candidates(spec, claims, name);
    if spec.signer.KubeletServing? {
      TargetIsFirst(claims, name);
      if Entitled(spec, claims, cloud) {
        var i :| IsFirst(claims, name, i) && ClaimHas(cloud, claims[i], name);
        assert claims[i] in claims;
        var j :| IsFirst(claims, name, j) && claims[j] == Target(claims, name).value;
        assert i == j;
        assert candidates[0] == claims[i];
      }
    } else {
      forall c ensures c in candidates <==> c in claims && c.nodeName == "" { UnboundClaims(claims, c); }
    }
  }

  lemma AuthorizeAsksForCandidates(spec: Spec, claims: seq<NodeClaim>, describe: Describe)
    requires RequestedName(spec).Some?
    ensures var name := RequestedName(spec).value;
      Authorize(spec, Ok(claims), describe) == Verified(describe, name, Candidates(spec, claims, name))
  {
    assert Chunks([]) == [];
  }

  /**
   An authorization is right: it is granted only to an entitled CSR and refused only to one that is not. It fails
   exactly when the CSR names no node, the listing fails, or a batch of the lookup fails before any match.
   */
  lemma AuthorizedMeansEntitled(spec: Spec, listing: Listing, describe: Describe, cloud: map<string, Instance>)
    requires Faithful(describe, cloud)
    ensures Authorize(spec, listing, describe) == Ok(true) ==> listing.Ok? && Entitled(spec, listing.value, cloud)
    ensures Authorize(spec, listing, describe) == Ok(false) ==> listing.Ok? && !Entitled(spec, listing.value, cloud)
    ensures Authorize(spec, listing, describe).Err? <==>
      RequestedName(spec).None? || listing.Err? ||
      var name := RequestedName(spec).value;
      FailsFirst(describe, cloud, Chunks(InstanceIDs(Candidates(spec, listing.value, name))), name)
  {
    if RequestedName(spec).Some? && listing.Ok? {
      var name := RequestedName(spec).value;
      AuthorizeAsksForCandidates(spec, listing.value, describe);
      CandidatesMeanEntitled(spec, listing.value, cloud);
      BatchesAnswerTheQuestion(describe, cloud, name, Candidates(spec, listing.value, name));
    }
  }

  lemma OneInstanceIsFaithful(name: string) returns (describe: Describe, cloud: map<string, Instance>)
    ensures Faithful(describe, cloud) && (forall ids :: describe(ids).Ok?)
    ensures cloud == map["i" := Instance(Some(name))]
  {
    var instance := Instance(Some(name));
    cloud := map["i" := instance];
    describe := ids => if "i" in ids then Ok([[instance]]) else Ok([]);
    forall ids: seq<string>, i: Instance ensures Returned(describe(ids).value, i) <==> Requested(cloud, ids, i) {
      if Requested(cloud, ids, i) {
        var id :| id in ids && id in cloud && cloud[id] == i;
        assert id == "i";
        assert [instance] in describe(ids).value && i in [instance];
      }
    }
  }

  lemma OneClaimEntitles(spec: Spec, claim: NodeClaim, cloud: map<string, Instance>)
    requires RequestedName(spec).Some? && ClaimHas(cloud, claim, RequestedName(spec).value)
    requires claim.nodeName == if spec.signer.KubeletServing? then RequestedName(spec).value else ""
    ensures Entitled(spec, [claim], cloud)
  {
    assert [claim][0] == claim;
    assert spec.signer.KubeletServing? ==> IsFirst([claim], RequestedName(spec).value, 0);
  }

  lemma TotalNeverFails(describe: Describe, cloud: map<string, Instance>, batches: seq<seq<string>>, name: string)
    requires forall ids :: describe(ids).Ok?
    ensures !FailsFirst(describe, cloud, batches, name)
  {
  }

  /**
   The node name behind the prefix is the one asked for, and a name without the prefix is taken whole: the subject of a
   client CSR, the user of a serving CSR.
   */
  lemma RequestedNameMeans(spec: Spec, name: string)
    ensures var given := if spec.signer.KubeletServing? then Some(spec.username) else spec.commonName;
      RequestedName(spec) == Some(name) <==>
        name != "" && !spec.signer.OtherSigner? &&
        (given == Some("system:node:" + name) || (given == Some(name) && !("system:node:" <= name)))
  {
    var given := if spec.signer.KubeletServing? then Some(spec.username) else spec.commonName;
    if given.Some? && NODE_PREFIX <= given.value {
      assert given.value == NODE_PREFIX + given.value[|NODE_PREFIX|..];
      assert given.value == NODE_PREFIX + name ==> given.value[|NODE_PREFIX|..] == name;
    }
    assert NODE_PREFIX <= NODE_PREFIX + name;
  }

  /** The cloud has the instance of the NodeClaim, by the last part of its provider ID, under this private DNS name. */
  ghost predicate Runs(cloud: map<string, Instance>, claim: NodeClaim, name: string) {
    exists id :: id in cloud && cloud[id].privateDNSName == Some(name) && id != "" && '/' !in id
                 && exists before: string :: claim.providerID == before + "/" + id
  }

  lemma ClaimHasMeansRuns(cloud: map<string, Instance>, claim: NodeClaim, name: string)
    requires name != ""
    ensures ClaimHas(cloud, claim, name) <==> Runs(cloud, claim, name)
  {
    if ClaimHas(cloud, claim, name) {
      InstanceIDIsTheLastPart(claim.providerID, InstanceID(claim.providerID).value);
    }
    if Runs(cloud, claim, name) {
      var id :| id in cloud && cloud[id].privateDNSName == Some(name) && id != "" && '/' !in id
                && exists before: string :: claim.providerID == before + "/" + id;
      InstanceIDIsTheLastPart(claim.providerID, id);
    }
  }

  lemma GrantedIffEntitled(spec: Spec, claims: seq<NodeClaim>, describe: Describe, cloud: map<string, Instance>)
    requires Faithful(describe, cloud) && (forall ids :: describe(ids).Ok?) && RequestedName(spec).Some?
    ensures Authorize(spec, Ok(claims), describe) == Ok(Entitled(spec, claims, cloud))
  {
    var name := RequestedName(spec).value;
    var candidates := Candidates(spec, claims, name);
    AuthorizeAsksForCandidates(spec, claims, describe);
    CandidatesMeanEntitled(spec, claims, cloud);
    TotalNeverFails(describe, cloud, Chunks(InstanceIDs(candidates)), name);
    BatchesAnswerTheQuestion(describe, cloud, name, candidates);
    AnswerIsRight(Verified(describe, name, candidates), SomeClaimHas(cloud, candidates, name));
  }

  lemma AnswerIsRight(r: Result<bool, Fault>, truth: bool)
    requires r.Ok? && (r == Ok(true) ==> truth) && (r == Ok(false) ==> !truth)
    ensures r == Ok(truth)
  {
    if r.value { assert r == Ok(true); } else { assert r == Ok(false); }
  }

  /**
   A kubelet that asks for a client certificate in the standard form gets it, as long as no call fails, exactly when
   the instance of some NodeClaim without a node has the name.
   */
  lemma ClientIsGrantedIff(
      spec: Spec, name: string, claims: seq<NodeClaim>, describe: Describe, cloud: map<string, Instance>)
    requires spec.signer.KubeAPIServerClientKubelet? && spec.commonName == Some("system:node:" + name) && name != ""
    requires Faithful(describe, cloud) && forall ids :: describe(ids).Ok?
    ensures Authorize(spec, Ok(claims), describe) ==
      Ok(exists c :: c in claims && c.nodeName == "" && Runs(cloud, c, name))
  {
    RequestedNameMeans(spec, name);
    GrantedIffEntitled(spec, claims, describe, cloud);
    forall c ensures ClaimHas(cloud, c, name) <==> Runs(cloud, c, name) { ClaimHasMeansRuns(cloud, c, name); }
  }

  /** One that asks for a serving certificate gets it exactly when the first NodeClaim of its node has the instance. */
  lemma ServingIsGrantedIff(
      spec: Spec, name: string, claims: seq<NodeClaim>, describe: Describe, cloud: map<string, Instance>)
    requires spec.signer.KubeletServing? && spec.username == "system:node:" + name && name != ""
    requires Faithful(describe, cloud) && forall ids :: describe(ids).Ok?
    ensures Authorize(spec, Ok(claims), describe) ==
      Ok(exists i :: 0 <= i < |claims| && claims[i].nodeName == name && Runs(cloud, claims[i], name)
                     && forall j :: 0 <= j < i ==> claims[j].nodeName != name)
  {
    RequestedNameMeans(spec, name);
    GrantedIffEntitled(spec, claims, describe, cloud);
    forall i | IsFirst(claims, name, i) ensures ClaimHas(cloud, claims[i], name) <==> Runs(cloud, claims[i], name) {
      ClaimHasMeansRuns(cloud, claims[i], name);
    }
  }

  /** Without a failing call the entitled are authorized. */
  lemma EntitledIsGranted(spec: Spec, claims: seq<NodeClaim>, describe: Describe, cloud: map<string, Instance>)
    requires Faithful(describe, cloud) && RequestedName(spec).Some? && Entitled(spec, claims, cloud)
    requires var name := RequestedName(spec).value;
      !FailsFirst(describe, cloud, Chunks(InstanceIDs(Candidates(spec, claims, name))), name)
    ensures Authorize(spec, Ok(claims), describe) == Ok(true)
  {
    AuthorizedMeansEntitled(spec, Ok(claims), describe, cloud);
    var r := Authorize(spec, Ok(claims), describe);
    assert r.Ok? && r.value;
  }

  lemma ClaimOfTheInstance(nodeName: string, name: string)
    ensures ClaimHas(map["i" := Instance(Some(name))], NodeClaim("/i", nodeName), name)
  {
    assert "/i" == "" + "/" + "i";
    InstanceIDIsTheLastPart("/i", "i");
  }

  /** Whatever names a node can be authorized: some NodeClaims and instances entitle it. */
  lemma NamedIsGrantable(spec: Spec) returns (listing: Listing, describe: Describe, cloud: map<string, Instance>)
    requires RequestedName(spec).Some?
    ensures Faithful(describe, cloud) && Authorize(spec, listing, describe) == Ok(true)
  {
    var name := RequestedName(spec).value;
    var claim := NodeClaim("/i", if spec.signer.KubeletServing? then name else "");
    listing := Ok([claim]);
    describe, cloud := OneInstanceIsFaithful(name);
    ClaimOfTheInstance(claim.nodeName, name);
    OneClaimEntitles(spec, claim, cloud);
    TotalNeverFails(describe, cloud, Chunks(InstanceIDs(Candidates(spec, [claim], name))), name);
    EntitledIsGranted(spec, [claim], describe, cloud);
  }

  /******* The methods *******/

  method IsCertificateRequestPending(conditions: seq<Condition>) returns (pending: bool)
    ensures pending == Pending(conditions)
    ensures pending <==> forall c :: c in conditions ==> c.kind != Approved && c.kind != Denied
  {
    for i := 0 to |conditions|
      invariant Pending(conditions[..i])
    {
      assert conditions[i] in conditions;
      if conditions[i].kind == Approved || conditions[i].kind == Denied { return false; }
      assert conditions[..i + 1] == conditions[..i] + [conditions[i]];
    }
    assert conditions[..|conditions|] == conditions;
    return true;
  }

  /** Filters the listing in place: the kept claims move to the front and the rest is cleared. */
  method DeleteBound(items: array<NodeClaim>) returns (n: nat)
    modifies items
    ensures n <= items.Length && items[..n] == Unbound(old(items[..]))
    ensures forall k :: n <= k < items.Length ==> items[k] == NodeClaim("", "")
  {
    ghost var was := items[..];
    n := 0;
    for j := 0 to items.Length
      invariant 0 <= n <= j && items[..n] == Unbound(was[..j])
      invariant forall k :: j <= k < items.Length ==> items[k] == was[k]
    {
      assert was[..j + 1][..j] == was[..j];
      if items[j].nodeName == "" {
        items[n] := items[j];
        n := n + 1;
      }
    }
    assert was[..items.Length] == was;
    ghost var kept := items[..n];
    for k := n to items.Length
      invariant items[..n] == kept
      invariant forall m :: n <= m < k ==> items[m] == NodeClaim("", "")
    {
      items[k] := NodeClaim("", "");
    }
  }

  method AuthorizeClientCSR(spec: Spec, items: array<NodeClaim>, failed: Option<Fault>, describe: Describe)
      returns (r: Result<bool, Fault>)
    modifies items
    ensures r == AuthorizeClient(spec.commonName, Listed(old(items[..]), failed), describe)
  {
    if spec.commonName.None? { return Err(Fault("PEM block type must be CERTIFICATE REQUEST")); }
    var name := TrimPrefix(spec.commonName.value, NODE_PREFIX);
    if |name| == 0 { return Err(Fault("subject common name does not have a valid node name")); }
    if failed.Some? { return Err(failed.value); }
    var n := DeleteBound(items);
    if n == 0 { return Ok(false); }
    r := Verify(describe, name, items[..n]);
  }

  method AuthorizeServingCSR(spec: Spec, items: array<NodeClaim>, failed: Option<Fault>, describe: Describe)
      returns (r: Result<bool, Fault>)
    ensures r == AuthorizeServing(spec.username, Listed(items[..], failed), describe)
  {
    var name := TrimPrefix(spec.username, NODE_PREFIX);
    if |name| == 0 { return Err(Fault("csr username does not have a valid node name")); }
    if failed.Some? { return Err(failed.value); }
    for i := 0 to items.Length
      invariant Target(items[..], name) == Target(items[..][i..], name)
    {
      if items[i].nodeName == name {
        r := Verify(describe, name, [items[i]]);
        return;
      }
      assert items[..][i..][1..] == items[..][i + 1..];
    }
    return Ok(false);
  }

  method AuthorizeCSR(spec: Spec, items: array<NodeClaim>, failed: Option<Fault>, describe: Describe)
      returns (r: Result<bool, Fault>)
    modifies items
    ensures r == Authorize(spec, Listed(old(items[..]), failed), describe)
  {
    match spec.signer {
      case KubeAPIServerClientKubelet => r := AuthorizeClientCSR(spec, items, failed, describe);
      case KubeletServing => r := AuthorizeServingCSR(spec, items, failed, describe);
      case OtherSigner(_) => r := Err(Fault("unrecognized signerName"));
    }
  }
}
