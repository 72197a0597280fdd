/**
 The release of a NodeClass: its user data and image, which come from one user data Secret and are held back while
 the control plane upgrades. Both clouds follow the same rule with different images.
 */
module Release {
  import opened Wrappers
  import opened ControlPlane

  const AMI_LABEL := "hypershift.openshift.io/ami"
  const AMI_ARM64_LABEL := "hypershift.openshift.io/ami-arm64"
  const MARKETPLACE_ANNOTATIONS: seq<string> := [
    "hypershift.openshift.io/azure-marketplace-publisher",
    "hypershift.openshift.io/azure-marketplace-offer",
    "hypershift.openshift.io/azure-marketplace-sku",
    "hypershift.openshift.io/azure-marketplace-version"
  ]

  datatype Secret = Secret(data: map<string, string>, labels: map<string, string>, annotations: map<string, string>)

  /** A user data and an image; an empty AMI list is no image. */
  datatype Pair<I> = Pair(userData: Option<string>, image: Option<I>)

  predicate Complete<I>(p: Pair<I>) {
    p.userData.Some? && p.image.Some?
  }

  /** How a cloud reads the image from a Secret. */
  type ImageOf<I> = Secret -> Result<I, string>

  function Lookup(m: map<string, string>, key: string): string {
    if key in m then m[key] else ""
  }

  function Value(secret: Secret): string {
    Lookup(secret.data, "value")
  }

  /** The AMI IDs in the order of the supported architectures. */
  function AMIs(secret: Secret): Result<seq<string>, string> {
    var amd64 := if AMI_LABEL in secret.labels then [secret.labels[AMI_LABEL]] else [];
    var arm64 := if AMI_ARM64_LABEL in secret.labels then [secret.labels[AMI_ARM64_LABEL]] else [];
    if amd64 + arm64 == [] then Err("no AMIs found for supported architectures") else Ok(amd64 + arm64)
  }

  datatype MarketplaceImage = MarketplaceImage(publisher: string, offer: string, sku: string, version: string)

  function MarketplaceImageOf(secret: Secret): Result<MarketplaceImage, string> {
    var a := secret.annotations;
    if exists k :: k in MARKETPLACE_ANNOTATIONS && Lookup(a, k) == "" then Err("missing or empty annotation")
    else Ok(MarketplaceImage(
      Lookup(a, MARKETPLACE_ANNOTATIONS[0]), Lookup(a, MARKETPLACE_ANNOTATIONS[1]),
      Lookup(a, MARKETPLACE_ANNOTATIONS[2]), Lookup(a, MARKETPLACE_ANNOTATIONS[3])))
  }

  /** The pair that a Secret provides. */
  function FromSecret<I>(imageOf: ImageOf<I>, secret: Secret): Result<Pair<I>, string> {
    match imageOf(secret)
    case Err(e) => Err(e)
    case Ok(image) => Ok(Pair(Some(Value(secret)), Some(image)))
  }

  /** The pair that a reconcile writes. */
  function NextPair<I>(imageOf: ImageOf<I>, current: Pair<I>, waits: bool, secret: Secret): Result<Pair<I>, string> {
    if waits && Complete(current) then Ok(current) else FromSecret(imageOf, secret)
  }

  /******* Runs *******/

  /** `fields` is the rest of the spec, as computed from the NodeClass and the HCP. */
  datatype Spec<F, I> = Spec(fields: F, pair: Pair<I>)

  /** What one reconcile meets: the computed fields, spec.version, the control plane, the Secret, the write's fate. */
  datatype Input<F> = Input(
    fields: F, specVersion: string, controlPlane: Version, secret: Option<Secret>, accepted: bool)

  function CurrentPair<F, I>(stored: Option<Spec<F, I>>): Pair<I> {
    if stored.Some? then stored.value.pair else Pair(None, None)
  }

  /** One reconcile: nothing is written unless the whole spec could be computed and the API server accepts it. */
  function Reconcile<F, I>(imageOf: ImageOf<I>, stored: Option<Spec<F, I>>, input: Input<F>): Option<Spec<F, I>> {
    if input.secret.None? || !input.accepted then stored
    else
      match NextPair(imageOf, CurrentPair(stored),
                     WaitsForControlPlaneUpgrade(input.controlPlane, input.specVersion), input.secret.value)
      case Err(_) => stored
      case Ok(pair) => Some(Spec(input.fields, pair))
  }

  function Run<F, I>(imageOf: ImageOf<I>, stored: Option<Spec<F, I>>, inputs: seq<Input<F>>): Option<Spec<F, I>>
    decreases |inputs|
  {
    if inputs == [] then stored else Run(imageOf, Reconcile(imageOf, stored, inputs[0]), inputs[1..])
  }

  /** The pair came whole from one of the Secrets. */
  ghost predicate FromOneOf<F, I>(imageOf: ImageOf<I>, stored: Option<Spec<F, I>>, secrets: set<Secret>) {
    stored.Some? ==> exists secret :: secret in secrets && FromSecret(imageOf, secret) == Ok(stored.value.pair)
  }

  function SecretsOf<F>(inputs: seq<Input<F>>): set<Secret> {
    set i | 0 <= i < |inputs| && inputs[i].secret.Some? :: inputs[i].secret.value
  }

  lemma {:induction false} PairsStayWhole<F, I>(
      imageOf: ImageOf<I>, stored: Option<Spec<F, I>>, inputs: seq<Input<F>>, secrets: set<Secret>)
    requires FromOneOf(imageOf, stored, secrets)
    ensures FromOneOf(imageOf, Run(imageOf, stored, inputs), secrets + SecretsOf(inputs))
    decreases |inputs|
  {
    if inputs == [] {
      assert SecretsOf(inputs) == {};
      assert secrets + {} == secrets;
    } else {
      var next := Reconcile(imageOf, stored, inputs[0]);
      var seen := secrets + SecretsOf([inputs[0]]);
      if inputs[0].secret.Some? { assert [inputs[0]][0].secret.value in SecretsOf([inputs[0]]); }
      assert FromOneOf(imageOf, next, seen);
      PairsStayWhole(imageOf, next, inputs[1..], seen);
      SecretsSplit(inputs);
      assert seen + SecretsOf(inputs[1..]) == secrets + SecretsOf(inputs);
    }
  }

  lemma SecretsSplit<F>(inputs: seq<Input<F>>)
    requires inputs != []
    ensures SecretsOf(inputs) == SecretsOf([inputs[0]]) + SecretsOf(inputs[1..])
  {
    forall s | s in SecretsOf(inputs) ensures s in SecretsOf([inputs[0]]) + SecretsOf(inputs[1..]) {
      var i :| 0 <= i < |inputs| && inputs[i].secret.Some? && inputs[i].secret.value == s;
      if i == 0 { assert [inputs[0]][0].secret.value == s; } else { assert inputs[1..][i - 1].secret.value == s; }
    }
    forall s | s in SecretsOf(inputs[1..]) ensures s in SecretsOf(inputs) {
      var i :| 0 <= i < |inputs[1..]| && inputs[1..][i].secret.Some? && inputs[1..][i].secret.value == s;
      assert inputs[i + 1].secret.value == s;
    }
    assert [inputs[0]][0] == inputs[0];
  }

  /**
   No torn release: over any run in which only the controller writes the derived object, the stored pair is absent or
   came whole from one of the Secrets of the run, although the user data is assigned before the image can fail.
   */
  lemma NoTornRelease<F, I>(imageOf: ImageOf<I>, inputs: seq<Input<F>>)
    ensures var stored := Run<F, I>(imageOf, None, inputs);
      stored.Some? ==>
        exists secret :: secret in SecretsOf(inputs) && FromSecret(imageOf, secret) == Ok(stored.value.pair)
  {
    PairsStayWhole<F, I>(imageOf, None, inputs, {});
    assert {} + SecretsOf(inputs) == SecretsOf(inputs);
  }

  /** The NodeClass is unpinned and the control plane upgrades. */
  predicate Upgrading<F>(input: Input<F>) {
    WaitsForControlPlaneUpgrade(input.controlPlane, input.specVersion)
  }

  /** The fields of the last reconcile that got as far as a successful write, or `before`. */
  function LastFields<F>(before: F, inputs: seq<Input<F>>): F
    decreases |inputs|
  {
    if inputs == [] then before
    else
      var last := inputs[|inputs| - 1];
      if last.secret.Some? && last.accepted then last.fields else LastFields(before, inputs[..|inputs| - 1])
  }

  lemma {:induction false} LastFieldsOfTail<F>(before: F, inputs: seq<Input<F>>)
    requires inputs != []
    ensures LastFields(before, inputs) ==
      LastFields(if inputs[0].secret.Some? && inputs[0].accepted then inputs[0].fields else before, inputs[1..])
    decreases |inputs|
  {
    if |inputs| > 1 {
      var n := |inputs| - 1;
      LastFieldsOfTail(before, inputs[..n]);
      assert inputs[..n][1..] == inputs[1..][..n - 1];
    }
  }

  /**
   Upgrade hold: over any window of reconciles of an unpinned NodeClass during an upgrade, a complete pair is the
   same at the end as at the start, whatever Secrets appear, while the other fields follow the NodeClass; no Secret
   content can keep them from doing so.
   */
  lemma {:induction false} UpgradeHoldsThePair<F, I>(
      imageOf: ImageOf<I>, stored: Option<Spec<F, I>>, window: seq<Input<F>>)
    requires stored.Some? && Complete(stored.value.pair)
    requires forall input :: input in window ==> Upgrading(input)
    ensures Run(imageOf, stored, window) ==
      Some(Spec(LastFields(stored.value.fields, window), stored.value.pair))
    decreases |window|
  {
    if window != [] {
      assert window[0] in window;
      UpgradeHoldsThePair(imageOf, Reconcile(imageOf, stored, window[0]), window[1..]);
      LastFieldsOfTail(stored.value.fields, window);
    }
  }

  /** The pair that a Secret gives a NodeClass: the user data under "value", and the image. */
  ghost predicate PairOf<I>(imageOf: ImageOf<I>, secret: Secret, pair: Pair<I>) {
    && pair.userData == Some(if "value" in secret.data then secret.data["value"] else "")
    && pair.image.Some? && imageOf(secret) == Ok(pair.image.value)
  }

  /**
   A pinned NodeClass never waits: after any run, a reconcile of a NodeClass with a version of its own that can take the
   image of its Secret stores the computed fields with the pair of that Secret, whatever the control plane says.
   */
  lemma PinnedFollowsItsSecret<F, I>(
      imageOf: ImageOf<I>, stored: Option<Spec<F, I>>, inputs: seq<Input<F>>, input: Input<F>)
    requires input.specVersion != ""
    requires input.secret.Some? && input.accepted && imageOf(input.secret.value).Ok?
    ensures var after := Run(imageOf, stored, inputs + [input]);
      after.Some? && after.value.fields == input.fields && PairOf(imageOf, input.secret.value, after.value.pair)
  {
    RunAppends(imageOf, stored, inputs, input);
    WaitsMeans(input.controlPlane, input.specVersion);
  }

  /**
   An unpinned one waits exactly while the newest completed release is not the desired one and it has a pair to keep;
   otherwise it gets the pair of the Secret as well.
   */
  lemma UnpinnedWaitsIff<F, I>(
      imageOf: ImageOf<I>, stored: Option<Spec<F, I>>, inputs: seq<Input<F>>, input: Input<F>)
    requires input.specVersion == ""
    requires input.secret.Some? && input.accepted && imageOf(input.secret.value).Ok?
    ensures var before := Run(imageOf, stored, inputs); var after := Run(imageOf, stored, inputs + [input]);
      var v := input.controlPlane;
      && after.Some? && after.value.fields == input.fields
      && if before.Some? && before.value.pair.userData.Some? && before.value.pair.image.Some? && v.desiredImage != "" &&
            exists i :: 0 <= i < |v.history| && v.history[i].state == Completed
              && v.history[i].image != v.desiredImage && forall j :: 0 <= j < i ==> v.history[j].state != Completed
         then after.value.pair == before.value.pair
         else PairOf(imageOf, input.secret.value, after.value.pair)
  {
    RunAppends(imageOf, stored, inputs, input);
    WaitsMeans(input.controlPlane, input.specVersion);
  }

  /** The AMIs are those of the two labels, amd64 first, and no image exactly without either label. */
  lemma AMIsAreTheLabels(secret: Secret)
    ensures var amd64, arm64 := "hypershift.openshift.io/ami", "hypershift.openshift.io/ami-arm64";
      match AMIs(secret)
      case Err(_) => amd64 !in secret.labels && arm64 !in secret.labels
      case Ok(ids) =>
        if amd64 !in secret.labels then arm64 in secret.labels && ids == [secret.labels[arm64]]
        else if arm64 !in secret.labels then ids == [secret.labels[amd64]]
        else ids == [secret.labels[amd64], secret.labels[arm64]]
  {
    if AMI_LABEL in secret.labels && AMI_ARM64_LABEL in secret.labels {
      assert [secret.labels[AMI_LABEL]] + [secret.labels[AMI_ARM64_LABEL]]
          == [secret.labels[AMI_LABEL], secret.labels[AMI_ARM64_LABEL]];
    }
  }

  /** The marketplace image has each part from its own annotation, and there is none if one is missing or empty. */
  lemma MarketplaceImageIsTheAnnotations(secret: Secret)
    ensures var a := secret.annotations;
      var publisher := "hypershift.openshift.io/azure-marketplace-publisher";
      var offer := "hypershift.openshift.io/azure-marketplace-offer";
      var sku := "hypershift.openshift.io/azure-marketplace-sku";
      var version := "hypershift.openshift.io/azure-marketplace-version";
      && (MarketplaceImageOf(secret).Ok? <==>
            (publisher in a && offer in a && sku in a && version in a
             && "" !in [a[publisher], a[offer], a[sku], a[version]]))
      && (MarketplaceImageOf(secret).Ok? ==>
            MarketplaceImageOf(secret).value == MarketplaceImage(a[publisher], a[offer], a[sku], a[version]))
  {
    var keys := MARKETPLACE_ANNOTATIONS;
    assert forall k :: k in keys <==> k == keys[0] || k == keys[1] || k == keys[2] || k == keys[3];
  }

  /** A pair that a run has stored is complete, so the hold applies to every NodeClass that has been written once. */
  lemma StoredPairsAreComplete<F, I>(imageOf: ImageOf<I>, inputs: seq<Input<F>>)
    ensures var stored := Run<F, I>(imageOf, None, inputs); stored.Some? ==> Complete(stored.value.pair)
  {
    NoTornRelease<F, I>(imageOf, inputs);
  }

  /** The reconcile can take the pair of its Secret and have it stored. */
  predicate Usable<F, I>(imageOf: ImageOf<I>, input: Input<F>) {
    input.secret.Some? && input.accepted && imageOf(input.secret.value).Ok?
  }

  /** The NodeClass has been written at some time. */
  predicate EverUsable<F, I>(imageOf: ImageOf<I>, inputs: seq<Input<F>>) {
    exists i :: 0 <= i < |inputs| && Usable(imageOf, inputs[i])
  }

  /**
   The reconcile that decides the release of a whole run: the last usable one outside an upgrade, or the first usable
   one of all when every usable one fell into an upgrade.
   */
  ghost predicate Decides<F, I>(imageOf: ImageOf<I>, inputs: seq<Input<F>>, k: int) {
    && 0 <= k < |inputs| && Usable(imageOf, inputs[k])
    && (forall j :: k < j < |inputs| && Usable(imageOf, inputs[j]) ==> Upgrading(inputs[j]))
    && (Upgrading(inputs[k]) ==> forall j :: 0 <= j < k ==> !Usable(imageOf, inputs[j]))
  }

  lemma {:induction false} RunAppends<F, I>(
      imageOf: ImageOf<I>, stored: Option<Spec<F, I>>, inputs: seq<Input<F>>, last: Input<F>)
    ensures Run(imageOf, stored, inputs + [last]) == Reconcile(imageOf, Run(imageOf, stored, inputs), last)
    decreases |inputs|
  {
    if inputs == [] {
      assert inputs + [last] == [last];
      assert Run(imageOf, Reconcile(imageOf, stored, last), [last][1..]) == Reconcile(imageOf, stored, last);
    } else {
      assert (inputs + [last])[1..] == inputs[1..] + [last];
      RunAppends(imageOf, Reconcile(imageOf, stored, inputs[0]), inputs[1..], last);
    }
  }

  /**
   Which release a NodeClass has after any run: that of the reconcile that decides. So an upgrade keeps the pair of the
   last reconcile before it, the first usable reconcile after it moves the NodeClass on, and a NodeClass that is new
   during an upgrade gets the pair of its first Secret and keeps that.
   */
  lemma {:induction false} StoredPairIsTheDecidedOne<F, I>(imageOf: ImageOf<I>, inputs: seq<Input<F>>) returns (k: int)
    ensures var stored := Run<F, I>(imageOf, None, inputs);
      && (stored.Some? <==> EverUsable(imageOf, inputs))
      && (stored.Some? ==>
            Decides(imageOf, inputs, k) && FromSecret(imageOf, inputs[k].secret.value) == Ok(stored.value.pair))
    decreases |inputs|
  {
    k := 0;
    if inputs != [] {
      var n := |inputs| - 1;
      var before, last := inputs[..n], inputs[n];
      assert inputs == before + [last];
      k := StoredPairIsTheDecidedOne(imageOf, before);
      RunAppends<F, I>(imageOf, None, before, last);
      StoredPairsAreComplete<F, I>(imageOf, before);
      assert forall i :: 0 <= i < n ==> before[i] == inputs[i];
      if Usable(imageOf, last) && (!Upgrading(last) || Run<F, I>(imageOf, None, before).None?) { k := n; }
    }
  }

  /******* The code in place *******/

  class EC2NodeClassSpec<F> {
    var fields: F
    var userData: Option<string>
    var amiSelectorTerms: seq<string>

    constructor (fields: F)
      ensures this.fields == fields && userData == None && amiSelectorTerms == []
    {
      this.fields, userData, amiSelectorTerms := fields, None, [];
    }
  }

  function EC2Pair(userData: Option<string>, amiSelectorTerms: seq<string>): Pair<seq<string>> {
    Pair(userData, if amiSelectorTerms == [] then None else Some(amiSelectorTerms))
  }

  /**
   Writes the pair into `desired`. On an error `desired` already has the new user data and no image: it is torn,
   and must not be stored.
   */
  method ReconcileEC2NodeClassRelease<F>(
      desired: EC2NodeClassSpec<F>, currentUserData: Option<string>, currentTerms: seq<string>,
      specVersion: string, controlPlane: Version, secret: Secret)
      returns (err: bool)
    requires desired.userData == None && desired.amiSelectorTerms == []
    modifies desired
    ensures desired.fields == old(desired.fields)
    ensures var next := NextPair(AMIs, EC2Pair(currentUserData, currentTerms),
                                 WaitsForControlPlaneUpgrade(controlPlane, specVersion), secret);
      && err == next.Err?
      && (!err ==> next == Ok(EC2Pair(desired.userData, desired.amiSelectorTerms)))
      && (err ==> desired.userData == Some(Value(secret)) && desired.amiSelectorTerms == [])
    ensures specVersion != "" && !err ==>
      desired.userData == Some(Value(secret)) && AMIs(secret) == Ok(desired.amiSelectorTerms)
  {
    desired.userData := Some(Value(secret));
    if WaitsForControlPlaneUpgrade(controlPlane, specVersion) && currentUserData.Some? && |currentTerms| > 0 {
      desired.userData := currentUserData;
      desired.amiSelectorTerms := currentTerms;
      return false;
    }
    var terms := AMIs(secret);
    if terms.Err? { return true; }
    desired.amiSelectorTerms := terms.value;
    return false;
  }

  datatype StoredEC2<F> = StoredEC2(fields: F, userData: Option<string>, amiSelectorTerms: seq<string>)

  function AsSpec<F>(stored: Option<StoredEC2<F>>): Option<Spec<F, seq<string>>> {
    if stored.None? then None
    else Some(Spec(stored.value.fields, EC2Pair(stored.value.userData, stored.value.amiSelectorTerms)))
  }

  /** The EC2NodeClass in the API server; `version` counts its writes. */
  class EC2Store<F> {
    var stored: Option<StoredEC2<F>>
    var version: nat

    /**
     CreateOrUpdate: the mutation works on a copy of what the cache shows, which may be an old version. The copy is
     stored only if the mutation succeeds and the cache shows the stored version; so the pair that is kept during an
     upgrade is the stored one, not an older one.
     */
    method ReconcileEC2NodeClass(cached: Option<StoredEC2<F>>, cachedVersion: nat, input: Input<F>)
      requires input.secret.Some? && (cachedVersion == version ==> cached == stored)
      modifies this
      ensures AsSpec(stored) ==
        Reconcile(AMIs, AsSpec(old(stored)), input.(accepted := input.accepted && cachedVersion == old(version)))
      ensures stored != old(stored) ==> version == old(version) + 1
    {
      var userData, terms := None, [];
      if cached.Some? { userData, terms := cached.value.userData, cached.value.amiSelectorTerms; }
      var desired := new EC2NodeClassSpec(input.fields);
      var err := ReconcileEC2NodeClassRelease(
        desired, userData, terms, input.specVersion, input.controlPlane, input.secret.value);
      if err || !input.accepted || cachedVersion != version { return; }
      stored := Some(StoredEC2(desired.fields, desired.userData, desired.amiSelectorTerms));
      version := version + 1;
    }
  }

  class AKSNodeClassSpec<F> {
    var fields: F
    var userData: Option<string>
    var marketplaceImage: Option<MarketplaceImage>

    constructor (fields: F)
      ensures this.fields == fields && userData == None && marketplaceImage == None
    {
      this.fields, userData, marketplaceImage := fields, None, None;
    }
  }

  /** The Azure form: an error leaves `desired` without user data as well. */
  method ReconcileAKSNodeClassRelease<F>(
      desired: AKSNodeClassSpec<F>, current: Pair<MarketplaceImage>,
      specVersion: string, controlPlane: Version, secret: Secret)
      returns (err: bool)
    requires desired.userData == None && desired.marketplaceImage == None
    modifies desired
    ensures desired.fields == old(desired.fields)
    ensures var next := NextPair(MarketplaceImageOf, current,
                                 WaitsForControlPlaneUpgrade(controlPlane, specVersion), secret);
      && err == next.Err?
      && Pair(desired.userData, desired.marketplaceImage) == if next.Ok? then next.value else Pair(None, None)
    ensures specVersion != "" && !err ==>
      && desired.userData == Some(Value(secret))
      && desired.marketplaceImage.Some? && MarketplaceImageOf(secret) == Ok(desired.marketplaceImage.value)
  {
    if WaitsForControlPlaneUpgrade(controlPlane, specVersion) && current.userData.Some? && current.image.Some? {
      desired.userData := current.userData;
      desired.marketplaceImage := current.image;
      return false;
    }
    var image := MarketplaceImageOf(secret);
    if image.Err? { return true; }
    desired.userData := Some(Value(secret));
    desired.marketplaceImage := Some(image.value);
    return false;
  }

  /** The AKSNodeClass in the API server. */
  class AKSStore<F> {
    var stored: Option<Spec<F, MarketplaceImage>>
    var version: nat

    method ReconcileAKSNodeClass(cached: Option<Spec<F, MarketplaceImage>>, cachedVersion: nat, input: Input<F>)
      requires input.secret.Some? && (cachedVersion == version ==> cached == stored)
      modifies this
      ensures stored ==
        Reconcile(MarketplaceImageOf, old(stored),
                  input.(accepted := input.accepted && cachedVersion == old(version)))
      ensures stored != old(stored) ==> version == old(version) + 1
    {
      var desired := new AKSNodeClassSpec(input.fields);
      var err := ReconcileAKSNodeClassRelease(
        desired, CurrentPair(cached), input.specVersion, input.controlPlane, input.secret.value);
      if err || !input.accepted || cachedVersion != version { return; }
      stored := Some(Spec(desired.fields, Pair(desired.userData, desired.marketplaceImage)));
      version := version + 1;
    }
  }
}
