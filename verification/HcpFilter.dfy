/** The HostedControlPlane event filter of the EC2 NodeClass controller against everything the controller derives. */
module HcpFilter {
  import opened Wrappers
  import opened Tags
  import opened ControlPlane

  const INSTANCE_PROFILE_ANNOTATION := "hypershift.openshift.io/aws-karpenter-default-instance-profile"
  const CORE_E2E_ANNOTATION := "hypershift.openshift.io/karpenter-core-e2e-override"

  /** `platform` is None without AWS platform data; `rest` is everything the controller never reads. */
  datatype Hcp = Hcp(
    annotations: map<string, string>, infraID: string, platform: Option<seq<PlatformTag>>, version: Version, rest: int)

  /** A selector term by tags, ID and name. */
  datatype Term = Term(tags: TagMap, id: string, name: string)

  /** `plain` is all of the NodeClass spec that maps to the EC2NodeClass spec without looking at the HCP. */
  datatype NodeClass = NodeClass(
    plain: int, version: string, tags: Option<TagMap>,
    subnetTerms: Option<seq<Term>>, securityGroupTerms: Option<seq<Term>>)

  datatype EC2Spec = EC2Spec(
    plain: int, tags: Option<TagMap>, instanceProfile: Option<string>,
    subnetTerms: seq<Term>, securityGroupTerms: seq<Term>)

  function Annotation(hcp: Hcp, key: string): string {
    if key in hcp.annotations then hcp.annotations[key] else ""
  }

  function DefaultSubnetSelectorTags(infraID: string): TagMap {
    map["kubernetes.io/role/internal-elb" := "1", "kubernetes.io/cluster/" + infraID := "*"]
  }

  function DefaultSecurityGroupSelectorTags(infraID: string): TagMap {
    map["karpenter.sh/discovery" := infraID]
  }

  function EC2NodeClassSpec(patterns: seq<Pattern>, nodeClass: NodeClass, hcp: Hcp): EC2Spec {
    var profile := Annotation(hcp, INSTANCE_PROFILE_ANNOTATION);
    EC2Spec(
      nodeClass.plain,
      FinalTags(patterns, nodeClass.tags, hcp.platform),
      if profile != "" then Some(profile) else None,
      if nodeClass.subnetTerms.None? then [Term(DefaultSubnetSelectorTags(hcp.infraID), "", "")]
      else nodeClass.subnetTerms.value,
      if nodeClass.securityGroupTerms.None? then [Term(DefaultSecurityGroupSelectorTags(hcp.infraID), "", "")]
      else nodeClass.securityGroupTerms.value)
  }

  function ConflictReport(nodeClass: NodeClass, hcp: Hcp): Report {
    var tags, own := TagsOf(hcp.platform), NodeTagsOf(nodeClass.tags);
    if tags == [] || own == map[] then NoReport
    else Counts(|ReportedBlocked(tags, own)|, |ReportedOverridden(tags, own)|)
  }

  /** What a reconcile of the NodeClass takes from the HCP; None while the e2e override disables it. */
  datatype Derivation = Derivation(spec: EC2Spec, waits: bool, report: Report)

  function Derive(patterns: seq<Pattern>, nodeClass: NodeClass, hcp: Hcp): Option<Derivation> {
    if Annotation(hcp, CORE_E2E_ANNOTATION) == "true" then None
    else Some(Derivation(
      EC2NodeClassSpec(patterns, nodeClass, hcp),
      WaitsForControlPlaneUpgrade(hcp.version, nodeClass.version),
      ConflictReport(nodeClass, hcp)))
  }

  /** The update filter; its semantic comparison takes missing and empty tag lists for equal. */
  predicate Accepts(oldHcp: Hcp, newHcp: Hcp) {
    || Annotation(oldHcp, INSTANCE_PROFILE_ANNOTATION) != Annotation(newHcp, INSTANCE_PROFILE_ANNOTATION)
    || TagsOf(oldHcp.platform) != TagsOf(newHcp.platform)
    || oldHcp.version != newHcp.version
  }

  predicate Disabled(hcp: Hcp) {
    Annotation(hcp, CORE_E2E_ANNOTATION) == "true"
  }

  /** Either default selector determines the infra ID. */
  lemma DefaultTermsIdentifyInfraID(a: string, b: string)
    requires || DefaultSecurityGroupSelectorTags(a) == DefaultSecurityGroupSelectorTags(b)
             || DefaultSubnetSelectorTags(a) == DefaultSubnetSelectorTags(b)
    ensures a == b
  {
    if DefaultSecurityGroupSelectorTags(a) == DefaultSecurityGroupSelectorTags(b) {
      assert DefaultSecurityGroupSelectorTags(a)["karpenter.sh/discovery"] == a;
    } else {
      ClusterKeyIsIn(a, b);
    }
  }

  const CLUSTER_PREFIX := "kubernetes.io/cluster/"

  lemma ClusterKeyIsIn(a: string, b: string)
    requires DefaultSubnetSelectorTags(a) == DefaultSubnetSelectorTags(b)
    ensures a == b
  {
    var role, key := "kubernetes.io/role/internal-elb", CLUSTER_PREFIX + a;
    assert key in DefaultSubnetSelectorTags(b);
    assert key[14] == 'c' && role[14] == 'r';
    assert key == CLUSTER_PREFIX + b;
    assert key[|CLUSTER_PREFIX|..] == a && (CLUSTER_PREFIX + b)[|CLUSTER_PREFIX|..] == b;
  }

  /** What a NodeClass selects: its own terms, even an empty list of them, or else the default; and its final tags. */
  lemma OwnTermsWin(patterns: seq<Pattern>, nodeClass: NodeClass, hcp: Hcp)
    ensures var spec := EC2NodeClassSpec(patterns, nodeClass, hcp);
      var role, cluster := "kubernetes.io/role/internal-elb", "kubernetes.io/cluster/" + hcp.infraID;
      && spec.subnetTerms == (
           if nodeClass.subnetTerms.Some? then nodeClass.subnetTerms.value
           else [Term(map[role := "1", cluster := "*"], "", "")])
      && spec.securityGroupTerms == (
           if nodeClass.securityGroupTerms.Some? then nodeClass.securityGroupTerms.value
           else [Term(map["karpenter.sh/discovery" := hcp.infraID], "", "")])
      && spec.plain == nodeClass.plain && spec.tags == FinalTags(patterns, nodeClass.tags, hcp.platform)
  {
  }

  /** The selectors of a NodeClass follow the infra ID of the HCP exactly as far as it has no terms of its own. */
  lemma SelectorsFollowTheInfraIDIff(patterns: seq<Pattern>, nodeClass: NodeClass, a: Hcp, b: Hcp)
    ensures var x, y := EC2NodeClassSpec(patterns, nodeClass, a), EC2NodeClassSpec(patterns, nodeClass, b);
      && (x.subnetTerms == y.subnetTerms <==> nodeClass.subnetTerms.Some? || a.infraID == b.infraID)
      && (x.securityGroupTerms == y.securityGroupTerms <==>
            nodeClass.securityGroupTerms.Some? || a.infraID == b.infraID)
  {
    var x, y := EC2NodeClassSpec(patterns, nodeClass, a), EC2NodeClassSpec(patterns, nodeClass, b);
    if nodeClass.subnetTerms.None? && x.subnetTerms == y.subnetTerms {
      assert x.subnetTerms[0].tags == y.subnetTerms[0].tags;
      DefaultTermsIdentifyInfraID(a.infraID, b.infraID);
    }
    if nodeClass.securityGroupTerms.None? && x.securityGroupTerms == y.securityGroupTerms {
      assert x.securityGroupTerms[0].tags == y.securityGroupTerms[0].tags;
      DefaultTermsIdentifyInfraID(a.infraID, b.infraID);
    }
  }

  /** What else is taken from the HCP: whether anything is derived, the instance profile, the hold and the report. */
  lemma DerivationMeans(patterns: seq<Pattern>, nodeClass: NodeClass, hcp: Hcp)
    ensures var override := "hypershift.openshift.io/karpenter-core-e2e-override";
      var profile := "hypershift.openshift.io/aws-karpenter-default-instance-profile";
      var derived := Derive(patterns, nodeClass, hcp);
      && (derived == None <==> override in hcp.annotations && hcp.annotations[override] == "true")
      && (derived.Some? ==>
            && derived.value.spec.instanceProfile ==
                 (if profile in hcp.annotations && hcp.annotations[profile] != "" then Some(hcp.annotations[profile])
                  else None)
            && derived.value.waits == WaitsForControlPlaneUpgrade(hcp.version, nodeClass.version)
            && var tags, own := TagsOf(hcp.platform), NodeTagsOf(nodeClass.tags);
               match derived.value.report
               case NoReport => tags == [] || own == map[]
               case Counts(blocked, overridden) =>
                 && blocked == |ReportedBlocked(tags, own)| && overridden == |ReportedOverridden(tags, own)|
                 && tags != [] && own != map[])
  {
  }

  /** The filter lets an update through exactly when it changes the instance profile, the tags or the version. */
  lemma AcceptsMeans(oldHcp: Hcp, newHcp: Hcp)
    ensures var profile := "hypershift.openshift.io/aws-karpenter-default-instance-profile";
      var of := (hcp: Hcp) => if profile in hcp.annotations then hcp.annotations[profile] else "";
      var tags := (hcp: Hcp) => if hcp.platform.Some? then hcp.platform.value else [];
      Accepts(oldHcp, newHcp) <==>
        of(oldHcp) != of(newHcp) || tags(oldHcp) != tags(newHcp) || oldHcp.version != newHcp.version
  {
  }

  /**
   An update that the filter rejects leaves what is derived for every NodeClass as it was exactly when it neither
   turns the e2e override on or off nor, while the controller is enabled, changes the infra ID.
   */
  lemma RejectedUpdateIsHarmlessIff(patterns: seq<Pattern>, oldHcp: Hcp, newHcp: Hcp)
    requires !Accepts(oldHcp, newHcp)
    ensures
      (forall nodeClass :: Derive(patterns, nodeClass, oldHcp) == Derive(patterns, nodeClass, newHcp)) <==>
      (Disabled(oldHcp) == Disabled(newHcp) && (Disabled(oldHcp) || oldHcp.infraID == newHcp.infraID))
  {
    if Disabled(oldHcp) == Disabled(newHcp) && (Disabled(oldHcp) || oldHcp.infraID == newHcp.infraID) {
      forall nodeClass ensures Derive(patterns, nodeClass, oldHcp) == Derive(patterns, nodeClass, newHcp) {
        var before := FinalTags(patterns, nodeClass.tags, oldHcp.platform);
        assert before == FinalTags(patterns, nodeClass.tags, newHcp.platform);
      }
    }
    var plain := NodeClass(0, "", None, None, None);
    if Derive(patterns, plain, oldHcp) == Derive(patterns, plain, newHcp) && !Disabled(oldHcp) && !Disabled(newHcp) {
      var a, b := EC2NodeClassSpec(patterns, plain, oldHcp), EC2NodeClassSpec(patterns, plain, newHcp);
      assert a.securityGroupTerms[0].tags == b.securityGroupTerms[0].tags;
      DefaultTermsIdentifyInfraID(oldHcp.infraID, newHcp.infraID);
    }
  }
}
