# karpenter-operator, verified

This project models the reconcilers of karpenter-operator in Dafny and proves what they keep over whole runs. Each
reconciler works against versioned API servers that users, Karpenter, HyperShift and the garbage collector change
between any two of its calls, so the protocols are state machines whose steps are single API calls and single writes
of others, and the main results quantify over every sequence of such steps. The parts of the source that are loops or
methods on objects are methods and classes here, each proved against a specification function or shown to be a run of
its machine.

`dafny verify dfyconfig.toml` checks everything.

| Modules | What they model |
|---|---|
| `Deletion`, `DeletionProgress`, `DeletionTermination`, `DeletionOutcome`, `DeletionAnnotations`, `DeletionController` | deletion of a hosted control plane: NodePools, then NodeClaims, then annotations, then the finalizer |
| `Mirror`, `MirrorHistory`, `MirrorStaleReads`, `NodeClassControllers` | the finalizer and derivation protocols of both clouds, with caches that lag |
| `Subnets`, `SubnetRetention` | the published subnet list, and how long it keeps the subnets of a terminating NodeClass |
| `ControlPlane`, `Release` | the user data and image pair, and its hold during control plane upgrades |
| `AutoNodeCount`, `AutoNodeStatus` | informers, filters, work queue and recount of the AutoNode status |
| `HcpFilter`, `Tags`, `Conditions`, `EC2Status` | the EC2 event filter, the tag merge with its conflict report, condition syncing |
| `Kubelet` | the JSON form of KubeletConfiguration with its overflow |
| `Verifier`, `MachineApprover`, `Approvals` | batched instance lookup, CSR authorization, and CSR approval over whole runs |
| `UserDataSecret` | the lookup of the user data Secret and the way back to the NodeClass |
| `Finalizers`, `Listings`, `Wrappers` | finalizer lists, listings in any order, Option and Result |

## What the proofs found

Where a promise holds only under a condition, the condition is proved sufficient (or exact) and a concrete run shows
that it is needed.

- The termination annotation of a NodeClaim can be rewritten: the patch has no optimistic lock, so an annotation that
  somebody else sets between the listing and the patch is replaced (`DeletionAnnotations.AnnotationRace`;
  `DeletionAnnotations.RewritesExactlyWhenListedBare` is exact).
- A NodePool created at the wrong time is left behind when the Karpenter finalizer is released
  (`Deletion.LatePoolIsLeftBehind`): exactly one that appears between the listing of the NodeClaims and the release, while
  the HCP is the one that was read (`Deletion.LatePoolIsLeftBehindIff`). For a NodeClaim it is the time just before the
  release (`Deletion.LateClaimIsLeftBehindIff`). Without these the release is safe, also when the answer about the CAPI
  Cluster flaps.
- The EC2 NodeClass controller decides by a cached Get that the EC2NodeClass is gone. A cache that lags one write behind
  orphans it (`MirrorStaleReads.EC2OrphansUnderLag`); the release is safe exactly when the report of the Get is true
  (`MirrorStaleReads.ReleaseIsSafeIffCheckIsTrue`). The Azure controller decides by the answer of Delete and tolerates
  any lag.
- A subnet list in flight is sure to keep the subnets of a NodeClass exactly when the NodeClass is terminating by now and
  the list has its present subnets (`SubnetRetention.RetainedIff`); for an up-to-date listing that means that it saw the
  NodeClass terminating. A list computed before the last status patch can be written after the NodeClass began to
  terminate and then misses a subnet (`SubnetRetention.EarlyListingMissesASubnet`), although the comment at
  `pkg/controllers/nodeclass/ec2/subnet/controller.go:179-181` says that subnets are kept.
- With duplicate platform tag keys the conflict report and the tag merge look at different entries
  (`Tags.ReportAgreesIffCoherent`).
- Condition syncing is idempotent exactly for providers that, where they give one kind several statuses, date the turn
  to the last of them (`Conditions.SyncIsIdempotentIff`). Both provider schemas demand the time of every condition, so
  the status loop comes to rest also for a provider that reports a kind twice (`Conditions.UniqueOrTimedIsRestful`).
- The HostedControlPlane filter of the EC2 controller ignores the infra ID and the core-e2e annotation, although both
  matter to what the controller derives (`HcpFilter.RejectedUpdateIsHarmlessIff` is exact).
- An empty, non-nil map of a KubeletConfiguration does not survive a round trip, and an overflow that holds JSON `null`
  makes encoding panic when a typed field is set (`Kubelet.RoundTripsIffCanonical`, `Kubelet.Encode`).
- The reconcile of the machine approver does not ask the watch filter again. What the next reconcile can approve depends
  on the name being queued (`Approvals.ApprovableIffQueuedAndNamed`), so a name that is used again while its old item
  still waits is not filtered again (`Approvals.WaitingNameIsNotFilteredAgain`). Once the item is handled it is
  (`Approvals.HandledNameIsFilteredAgain`).

## Assumptions

- Deletion: reads are fresh. The safety of the release also assumes that no NodePool and no NodeClaim appears while the
  controller relies on there being none; it is enough that no NodePool appears once the HCP has its own deletion
  timestamp, and that NodeClaims appear only while there is a NodePool. Progress assumes that nobody else creates work,
  and that the reconcile is told that the HCP or its CAPI Cluster is being deleted. Termination also assumes that others
  let go what is waited for. What a whole reconcile leaves behind (`DeletionOutcome`) is stated for reconciles during which
  nobody else writes the HCP.
- Mirror: only the controller takes its finalizer off an owner, and caches move forward. EC2 also needs the Get before
  the release to report no object only when none has a controlling owner. Only the controller makes an owner the
  controlling owner of a derived object. Results on histories, such as frozen subnets, need none of this. What a whole
  reconcile leaves behind is stated for reconciles that nothing disturbs. All of them take the EC2 controller for the only writer of the status subnets of an owner.
- Approvals: others may append conditions to a CSR and delete CSRs, but not take a decision back, as the API server
  enforces. Caches may show any version that ever existed. DescribeInstances returns the requested instances that exist.
- Release: only the controller writes the derived object; an equal version is an equal object.

## Model

| member | source | states |
|---|---|---|
| `Finalizers.AddFinalizer` | pkg/controllers/hcp/deletion/controller.go:112 | adding changes a list only by the one finalizer, at most once |
| `Finalizers.RemoveFinalizer` | pkg/controllers/hcp/deletion/controller.go:147 | removing takes away every occurrence of the one finalizer and keeps the multiplicity of all others |
| `Finalizers.RemovesAllIffAlone` | pkg/controllers/hcp/deletion/controller.go:147 | nothing is left exactly when there was no other finalizer |
| `Finalizers.RemoveKeepsOrder` | pkg/controllers/hcp/deletion/controller.go:147 | what is left keeps its order: removing works on each part of a list for itself |
| `Finalizers.EditsActOnTexts` | pkg/controllers/hcp/deletion/controller.go:110-150 | the edits of finalizer values are the edits of the stored lists of strings |
| `Finalizers.RemoveUndoesAdd` | pkg/controllers/hcp/deletion/controller.go:110-150 | removing what was added gives back the list |
| `Deletion.UnmarkedIn` | pkg/controllers/hcp/deletion/controller.go:179-187 | the pools the loop deletes are exactly the listed ones without a deletion timestamp |
| `Deletion.TodosIn` | pkg/controllers/hcp/deletion/controller.go:208-225 | the calls of the NodeClaim loop: delete the unmarked, annotate the marked without annotation, nothing for the rest |
| `Deletion.StepKeepsInv` | pkg/controllers/hcp/deletion/controller.go:94-170 | every call of the controller and every write of others keeps the protocol invariant |
| `Deletion.RunKeepsInv` | pkg/controllers/hcp/deletion/controller.go:94-170 | the invariant holds after every admissible run, under any interleaving and any faults |
| `Deletion.ReleaseIsSafe` | pkg/controllers/hcp/deletion/controller.go:124-154 | the finalizer is taken away only from an HCP with its own deletion timestamp and only when no NodePool and no NodeClaim is left, whatever the CAPI Cluster answers were, unless one appeared while the controller relied on there being none |
| `Deletion.ReleaseIsSafeInOrder` | pkg/controllers/hcp/deletion/controller.go:124-170 | the same for others who know nothing of the controller: no NodePool after the deletion timestamp, NodeClaims only while there is a NodePool |
| `Deletion.LatePoolIsLeftBehindIff` | pkg/controllers/hcp/deletion/controller.go:164-170 | in every state of the protocol: a new NodePool can be stored still at the release exactly when the controller is between the listing of the NodeClaims and the release with the HCP that is stored |
| `Deletion.LateClaimIsLeftBehindIff` | pkg/controllers/hcp/deletion/controller.go:141-150 | the same for a new NodeClaim, exactly when the release is the next call |
| `Deletion.LatePoolIsLeftBehind` | pkg/controllers/hcp/deletion/controller.go:164-170 | such a run from the start of the operator, which leaves a NodePool behind |
| `Deletion.FinalizerEditsLoseNothing` | pkg/controllers/hcp/deletion/controller.go:110-150 | whatever other writers do, an accepted patch changes the stored list only by the Karpenter finalizer: added to an HCP that is not deleting, removed from one that is; everything else stays |
| `DeletionProgress.StepShrinks` | pkg/controllers/hcp/deletion/controller.go:173-256 | no step of anybody makes the remaining work grow, save the call that puts the finalizer on |
| `DeletionProgress.PassLowersMeasure` | pkg/controllers/hcp/deletion/controller.go:94-256 | an error-free reconcile that is not told that the cluster stays strictly lowers the measure of remaining work unless all of it waits for others, also when only the CAPI Cluster is being deleted |
| `DeletionProgress.SteadyDeletionIsNotDeclined` | pkg/hypershift/capicluster.go:42-64 | a reconcile that begins while the HCP or its CAPI Cluster is being deleted is told so, unless the Cluster disappears meanwhile |
| `DeletionProgress.PassMarksPools` | pkg/controllers/hcp/deletion/controller.go:173-190 | an error-free reconcile that is not told that the cluster stays leaves no NodePool unmarked, however many there are |
| `DeletionProgress.PassCovers` | pkg/controllers/hcp/deletion/controller.go:193-229 | such a reconcile without NodePools leaves every NodeClaim marked, and annotated if all were marked before |
| `DeletionProgress.TwoPassesAnnotateEveryClaim` | pkg/controllers/hcp/deletion/controller.go:193-256 | two such reconciles leave every surviving NodeClaim marked and annotated, with anything of others in between |
| `DeletionTermination.WorkRunsOut` | pkg/controllers/hcp/deletion/controller.go:94-256 | among more error-free reconciles than there is work, one begins with nothing left for the controller to write |
| `DeletionTermination.FinalizerGoes` | pkg/controllers/hcp/deletion/controller.go:124-154 | once the HCP has its own deletion timestamp, and as long as others let go what is waited for, that many reconciles take the finalizer away |
| `DeletionTermination.EndingIsNotDeclined` | pkg/hypershift/capicluster.go:42-48 | a reconcile of an HCP with its own deletion timestamp is never told that the cluster stays, whatever the CAPI Cluster does |
| `DeletionOutcome.StayingClusterIsGuarded` | pkg/controllers/hcp/deletion/controller.go:113-121 | a reconcile that is told that the cluster stays and ends without an error leaves the HCP with the Karpenter finalizer behind all others, and otherwise as it was |
| `DeletionOutcome.UndeletedIsDeclined` | pkg/hypershift/capicluster.go:42-64 | it is told so when neither the HCP nor the CAPI Cluster of its infra ID is being deleted |
| `DeletionOutcome.StayingClusterLosesNothing` | pkg/controllers/hcp/deletion/controller.go:106-121 | and it touches no NodePool and no NodeClaim: they are as the writes of others alone have made them |
| `DeletionOutcome.ReleaseTakesTheGuardOff` | pkg/controllers/hcp/deletion/controller.go:146-150 | the removing call on the stored version takes the finalizer away and keeps all others in order; without others the HCP is gone |
| `DeletionOutcome.EmptyClusterIsReleased` | pkg/controllers/hcp/deletion/controller.go:124-154 | so does every error-free reconcile of a deleting HCP without NodePools and NodeClaims |
| `DeletionAnnotations.OtherAnnotationsStay` | pkg/controllers/hcp/deletion/controller.go:245-253 | a call touches no annotation but the termination annotation and never takes that one away |
| `DeletionAnnotations.AnnotationIsNeverRewritten` | pkg/controllers/hcp/deletion/controller.go:232-240 | while nobody else writes termination annotations, the controller never rewrites one, over every run |
| `DeletionAnnotations.AnnotationIsTheListedTime` | pkg/controllers/hcp/deletion/controller.go:232-256 | over every course of a reconcile after its listing: a call that changes an annotation gives it the deletion time that the listing showed, and only where the listing showed none |
| `DeletionAnnotations.RewritesExactlyWhenListedBare` | pkg/controllers/hcp/deletion/controller.go:193-256 | over every course of a reconcile after its listing: the call for a NodeClaim replaces its annotation exactly when the listing showed it bare and a write of somebody else has since given it a value other than the listed deletion time |
| `DeletionAnnotations.AnnotationRace` | pkg/controllers/hcp/deletion/controller.go:247-253 | a run with another writer in which an annotation is rewritten |
| `DeletionController.Controller.Reconcile` | pkg/controllers/hcp/deletion/controller.go:94-122 | the code is one pass of the machine, whatever happens between its calls; its error is the machine's; without an error, a cluster that stays ends with the finalizer and all its objects, and one that ends without objects has lost it |
| `DeletionController.Controller.ReconcileDeletion` | pkg/controllers/hcp/deletion/controller.go:124-154 | ends the pass: cleanup, then the release only for an HCP that is deleting |
| `DeletionController.Controller.CleanupKarpenterResources` | pkg/controllers/hcp/deletion/controller.go:164-170 | goes on to the release only when both listings were empty, pools before claims |
| `DeletionController.Controller.DeleteNodePools` | pkg/controllers/hcp/deletion/controller.go:173-190 | makes the machine's delete calls in listing order, and reports none left only for an empty listing |
| `DeletionController.Controller.DeleteNodeClaims` | pkg/controllers/hcp/deletion/controller.go:193-229 | makes the machine's delete and annotate calls in listing order |
| `DeletionController.Controller.HandleForcefulNodeClaimDeletion` | pkg/controllers/hcp/deletion/controller.go:232-256 | one annotate call with the deletion time for a claim without annotation, no call otherwise |
| `DeletionController.Controller.IsClusterDeletingCall` | pkg/hypershift/capicluster.go:42-64 | the answer: the HCP is deleting, or the CAPI Cluster of its infra ID exists and is deleting; the machine goes on from it |
| `Mirror.StepKeepsInv` | pkg/controllers/nodeclass/ec2/controller.go:122-215 | every call of either controller, every write of others and every move of a cache keeps the mirror invariant |
| `Mirror.RunKeepsInv` | pkg/controllers/nodeclass/azure/controller.go:100-207 | the invariant holds after every admissible run, for both clouds |
| `Mirror.DerivedHasItsOwner` | pkg/controllers/nodeclass/ec2/controller.go:122-164 | in every reachable state, also after a restart of the operator, a controlled derived object exists only while that very owner, by uid, is stored with the finalizer |
| `Mirror.LockMeansLatest` | pkg/controllers/nodeclass/ec2/controller.go:133-147 | a patch that passes the optimistic lock was computed from the version that is stored when it arrives |
| `MirrorHistory.RunIsRecorded` | pkg/controllers/nodeclass/ec2/controller.go:91-276 | over every run, without any assumption: versions grow, deletion is permanent and freezes the status subnets, and a reconcile in flight knows a version that was stored |
| `MirrorHistory.AcceptedWriteUsedTheStored` | pkg/controllers/nodeclass/ec2/controller.go:195-215 | a create or update that is accepted was computed from the version of the derived object that is stored when it arrives, however old the cache |
| `MirrorHistory.ForeignObjectsStay` | pkg/controllers/nodeclass/ec2/controller.go:195-215 | over every run, whatever caches and others do: only a Delete touches a derived object that another owner controls |
| `MirrorStaleReads.AzureToleratesLag` | pkg/controllers/nodeclass/azure/controller.go:188-207 | for Azure the invariant needs nothing of the caches but that they move forward |
| `MirrorStaleReads.EC2OrphansUnderLag` | pkg/controllers/nodeclass/ec2/controller.go:122-140 | for EC2 it does: a run with a lagging cache that orphans an EC2NodeClass |
| `MirrorStaleReads.ReleaseIsSafeIffCheckIsTrue` | pkg/controllers/nodeclass/ec2/controller.go:122-140 | in every state of the protocol: the release after a Get that found nothing keeps the mirror exactly when nothing controlled is there, or the release is not due or loses its lock |
| `NodeClassControllers.Reconciler.ReconcileEC2` | pkg/controllers/nodeclass/ec2/controller.go:91-171 | the code only ever extends a run of the machine, and does all that the machine does from reading the owner to the end unless a fault or missing input stops it; without an HCP or under the e2e override it does nothing; undisturbed and with caches up to date, an owner that stays has its finalizer, controls a derived object with the desired spec and reports its subnets and conditions, and one that is being deleted has dismissed its derived object or, without one, has lost just this finalizer and is gone if it had no other; what it asks for then |
| `NodeClassControllers.Reconciler.DeleteIfNeeded` | pkg/controllers/nodeclass/ec2/controller.go:174-191 | goes on to the release exactly when the object is gone by Get, by the answer that the server lacks the kind, or by Delete |
| `NodeClassControllers.Reconciler.CreateOrUpdate` | pkg/controllers/nodeclass/ec2/controller.go:195-215 | the spec is computed from the version of the derived object that the write replaces, or from the unchanged one that has it already; an object of another owner is refused and left alone |
| `NodeClassControllers.Reconciler.ReconcileStatus` | pkg/controllers/nodeclass/ec2/controller.go:217-276 | writes the computed conditions, and for EC2 the subnets of the derived object, or nothing if they are already there |
| `NodeClassControllers.Reconciler.EnsureFinalizer` | pkg/controllers/nodeclass/azure/controller.go:110-116 | no derivation goes on before the finalizer is stored; afterwards the version is the one the patch returned |
| `NodeClassControllers.Reconciler.ReconcileAzure` | pkg/controllers/nodeclass/azure/controller.go:100-143 | as for EC2, but before the HCP is looked up: also without one a deleting owner is carried to the end and let go, and one that stays has its finalizer stored; its error exactly |
| `NodeClassControllers.Reconciler.ReconcileDelete` | pkg/controllers/nodeclass/azure/controller.go:188-207 | releases only on a NotFound of the Delete call itself; undisturbed, it dismisses the derived object or, without one, takes this finalizer off the owner and no other |
| `NodeClassControllers.CodeKeepsMirror` | pkg/controllers/nodeclass/azure/controller.go:100-207 | whatever a reconciler has done so far, the mirror property holds of its world |
| `Subnets.LessMeans` | pkg/controllers/nodeclass/ec2/subnet/controller.go:193 | a string comes first as a proper prefix, or by the smaller character where the two first differ |
| `Subnets.LessIsTransitive` | pkg/controllers/nodeclass/ec2/subnet/controller.go:193 | the byte order of strings is transitive |
| `Subnets.LessIsTotal` | pkg/controllers/nodeclass/ec2/subnet/controller.go:193 | and total, so that sorting has one result |
| `Subnets.SortedListingIsUnique` | pkg/controllers/nodeclass/ec2/subnet/controller.go:189-194 | a strictly sorted list is determined by its set of elements |
| `Subnets.ResolvedSubnetIDs` | pkg/controllers/nodeclass/ec2/subnet/controller.go:176-195 | the loops produce the one strictly sorted list of all non-empty subnet IDs, in whatever order the map is iterated |
| `Subnets.ResolvedIgnoresOrder` | pkg/controllers/nodeclass/ec2/subnet/controller.go:176-195 | the order of the NodeClasses does not matter |
| `SubnetRetention.TerminatingSubnetsAreFrozen` | pkg/controllers/nodeclass/ec2/controller.go:268-272 | once an owner terminates its status subnets never change, over every run, whatever caches and others do: in-flight status patches fail the lock |
| `SubnetRetention.ListingMeans` | pkg/controllers/nodeclass/ec2/subnet/controller.go:131-195 | a list in flight is the sorted listing of the IDs of this NodeClass, as the cache shows it, and of all others; the write stores just that |
| `SubnetRetention.WrittenSubnetsAreRetained` | pkg/controllers/nodeclass/ec2/subnet/controller.go:131-174 | a written list whose listing saw the owner terminating contains all its subnets as long as its EC2NodeClass exists |
| `SubnetRetention.RetainedIff` | pkg/controllers/nodeclass/ec2/subnet/controller.go:131-195 | for listings of any age: a list in flight is good on every way to go on exactly when the owner is terminating by now and the list has its present subnets |
| `SubnetRetention.RetainedIffTerminating` | pkg/controllers/nodeclass/ec2/subnet/controller.go:131-195 | so a listing of the latest version gives a good list exactly when that version is terminating, and one that sees a terminating version always does |
| `SubnetRetention.SomeSubnetIsMissed` | pkg/controllers/nodeclass/ec2/controller.go:217-276 | from every state in which the owner is not terminating there is a way on to one in which it is, with its derived object, and has a subnet outside a given list |
| `SubnetRetention.EarlyListingMissesASubnet` | pkg/controllers/nodeclass/ec2/subnet/controller.go:131-138 | such a run from the start of the operator, in which the written list misses a subnet |
| `ControlPlane.UpgradingMeans` | pkg/hypershift/controlplaneversion.go:23-36 | upgrading exactly when a release has completed and the newest completed one is not the desired one |
| `ControlPlane.WaitsMeans` | pkg/hypershift/controlplaneversion.go:10-37 | a NodeClass waits exactly if it has no version of its own and the newest completed release is not the desired one |
| `ControlPlane.PartialEntriesDoNotMatter` | pkg/hypershift/controlplaneversion.go:23-36 | any number of partial entries on top of the history changes nothing |
| `Release.NoTornRelease` | pkg/controllers/nodeclass/ec2/spec.go:90-105 | over every run the stored pair is absent or came whole from one of the Secrets |
| `Release.StoredPairsAreComplete` | pkg/controllers/nodeclass/ec2/spec.go:95-99 | a pair that a run has stored is complete, so the hold applies to it |
| `Release.UpgradeHoldsThePair` | pkg/controllers/nodeclass/azure/spec.go:48-57 | over any window of an upgrade a complete pair stays the same while the other fields are those of the last successful reconcile |
| `Release.PinnedFollowsItsSecret` | pkg/controllers/nodeclass/ec2/spec.go:88-105 | after any run and whatever the control plane says, a reconcile of a NodeClass with a version of its own stores the computed fields with the pair of its Secret |
| `Release.UnpinnedWaitsIff` | pkg/controllers/nodeclass/ec2/spec.go:88-105 | one without keeps its pair exactly while the newest completed release is not the desired one and there is a pair to keep, and gets that of the Secret otherwise |
| `Release.AMIsAreTheLabels` | pkg/controllers/nodeclass/ec2/userdata.go:35-40 | the AMIs are those of the two labels, amd64 first, and there is no image exactly without either |
| `Release.MarketplaceImageIsTheAnnotations` | pkg/controllers/nodeclass/azure/spec.go:68-86 | each part of the image comes from its own annotation, and there is no image exactly if one is missing or empty |
| `Release.StoredPairIsTheDecidedOne` | pkg/controllers/nodeclass/ec2/spec.go:90-105 | after every run the NodeClass has the pair of the last usable reconcile outside an upgrade, or of the first usable one when all fell into upgrades, and is stored exactly if one was usable |
| `Release.ReconcileEC2NodeClassRelease` | pkg/controllers/nodeclass/ec2/spec.go:90-105 | writes the next pair into the object; on an error the object is torn, new user data without AMIs |
| `Release.EC2Store.ReconcileEC2NodeClass` | pkg/controllers/nodeclass/ec2/controller.go:195-215 | the torn object is never stored, and a spec computed from an old cached version is not either: the store makes exactly the step of the run |
| `Release.ReconcileAKSNodeClassRelease` | pkg/controllers/nodeclass/azure/spec.go:48-65 | the same for Azure, where an error leaves neither field |
| `Release.AKSStore.ReconcileAKSNodeClass` | pkg/controllers/nodeclass/azure/controller.go:147-168 | for a cached version of any age the store makes exactly the step of the run |
| `AutoNodeCount.RoundingIsBounded` | pkg/controllers/hcp/autonodestatus/controller.go:202-214 | a thousand times the sum exceeds the exact capacity by 0 to 999 for each counted NodeClaim |
| `AutoNodeCount.SumIgnoresOrder` | pkg/controllers/hcp/autonodestatus/controller.go:202-214 | the order of the list does not matter |
| `AutoNodeCount.OneMoreClaim` | pkg/controllers/hcp/autonodestatus/controller.go:203-213 | a NodeClaim adds its CPU capacity rounded up if its node exists and it has one, and nothing otherwise |
| `AutoNodeCount.NarrowingForgetsTheWrap` | pkg/controllers/hcp/autonodestatus/controller.go:213 | int32 of the wrapped int64 total is int32 of the exact total |
| `AutoNodeCount.SumNodeClaimVCPUs` | pkg/controllers/hcp/autonodestatus/controller.go:202-214 | the loop gives the exact sum over NodeClaims with a live node exactly when that is below 2^31, and its int32 truncation otherwise |
| `AutoNodeStatus.RecountAgrees` | pkg/controllers/hcp/autonodestatus/controller.go:94-126 | the recount depends only on what the two filters compare |
| `AutoNodeStatus.RecountMeans` | pkg/controllers/hcp/autonodestatus/controller.go:149-214 | the recount by sizes of sets: the nodes with the NodePool label, the NodeClaims, and the whole vCPUs begun by NodeClaims whose node exists, each right below 2^31 |
| `AutoNodeStatus.AcceptsMeans` | pkg/controllers/hcp/autonodestatus/controller.go:94-126 | the filters let through exactly the Node updates that can change the recount, the NodeClaim updates of node name or CPU capacity, and all creations and deletions |
| `AutoNodeStatus.RejectedUpdateIsHarmless` | pkg/controllers/hcp/autonodestatus/controller.go:94-126 | an update that a filter rejects changes neither the recount nor the validity of a reconcile in flight |
| `AutoNodeStatus.StepKeepsInv` | pkg/controllers/hcp/autonodestatus/controller.go:128-197 | every step of informers, queue, reconcile and API server keeps the invariant |
| `AutoNodeStatus.NoUpdateIsLost` | pkg/controllers/hcp/autonodestatus/controller.go:94-197 | in every reachable state a reconcile is due, or one in flight still matches the caches, or the HCP cache is behind, or the stored status is the full recount |
| `AutoNodeStatus.CountNodes` | pkg/controllers/hcp/autonodestatus/controller.go:155-162 | the loop gives all node names and the int32 count of nodes with the NodePool label |
| `AutoNodeStatus.ReconcileAutoNodeStatus` | pkg/controllers/hcp/autonodestatus/controller.go:149-180 | for listings in any order: applies the full recount, or nothing when it is already there |
| `Tags.MergeEC2NodeClassTags` | pkg/controllers/nodeclass/ec2/controller.go:333-370 | the loops compute the specified merge for every map iteration order, with a missing map only for no tags at all |
| `Tags.MergePlatformTags` | pkg/controllers/nodeclass/ec2/controller.go:337-346 | the last value of a platform key wins, and one Allow allows the key |
| `Tags.OverlayNodeTags` | pkg/controllers/nodeclass/ec2/controller.go:348-354 | NodeClass tags are laid over the platform's where allowed, in any order |
| `Tags.FilterRestrictedTags` | pkg/controllers/nodeclass/ec2/controller.go:430-453 | filtering partitions the keys; what is kept keeps its value |
| `Tags.MatchesAny` | pkg/controllers/nodeclass/ec2/controller.go:438-446 | a key is restricted exactly when some pattern matches |
| `Tags.TagRule` | pkg/controllers/nodeclass/ec2/controller.go:326-332 | each unrestricted key has the platform's value unless only the NodeClass has it or the platform allows it |
| `Tags.FinalTagMeans` | pkg/controllers/nodeclass/ec2/controller.go:326-370 | each key by the lists alone: a restricted one is dropped; the NodeClass value where the platform has no entry or some entry allows it; otherwise the value of the last platform entry |
| `Tags.NoTagsAtAllIff` | pkg/controllers/nodeclass/ec2/controller.go:363-369 | there is no map at all exactly when the NodeClass has none and every platform key is restricted |
| `Tags.ReportedMeans` | pkg/controllers/nodeclass/ec2/controller.go:378-397 | a tag is reported exactly where the first platform entry of its key has another value: as blocked, or as overridden if that entry allows it |
| `Tags.CountConflicts` | pkg/controllers/nodeclass/ec2/controller.go:372-397 | the loop counts exactly the reported blocked and overridden keys, or reports nothing without tags |
| `Tags.FindTag` | pkg/controllers/nodeclass/ec2/controller.go:380-388 | finds the first entry of a key |
| `Tags.DistinctKeysAreCoherent` | pkg/controllers/nodeclass/ec2/controller.go:372-425 | distinct platform keys are coherent |
| `Tags.CoherentReportIsExact` | pkg/controllers/nodeclass/ec2/controller.go:372-425 | then blocked keys are exactly the NodeClass values the merge drops, and overridden keys the platform values it replaces |
| `Tags.ReportAgreesIffCoherent` | pkg/controllers/nodeclass/ec2/controller.go:333-425 | report and merge agree for every NodeClass exactly when the platform list is coherent |
| `Conditions.SyncConditions` | pkg/controllers/nodeclass/status/conditions.go:19-52 | the loop over SetStatusCondition computes the specified sync |
| `Conditions.SyncCopiesTheProvider` | pkg/controllers/nodeclass/status/conditions.go:19-35 | every kind but Ready ends as the last provider condition of that kind, with the old time for an old status and otherwise the provider's or the present; kinds that the provider lacks stay |
| `Conditions.ReadyFollowsTheProvider` | pkg/controllers/nodeclass/status/conditions.go:36-51 | once the version is resolved Ready is the provider's last one, or stays without one; until then it is false, with the reason and message of the version |
| `Conditions.ReadyOnlyIfVersionResolved` | pkg/controllers/nodeclass/status/conditions.go:36-51 | Ready is true in the result only if VersionResolved is |
| `Conditions.IgnitionConditionsAreUntouched` | pkg/controllers/nodeclass/status/conditions.go:19-35 | the ignition controller's conditions stay as they are if the provider has none of these kinds |
| `Conditions.TransitionTimesFollowStatus` | pkg/controllers/nodeclass/status/conditions.go:19-52 | no condition disappears, and its transition time changes only with its status, for every kind that the provider gives one status |
| `Conditions.TransitionTimesFollowStatusIff` | pkg/controllers/nodeclass/status/conditions.go:19-52 | and only for those: any other kind redates some existing condition of the same status |
| `Conditions.SyncIsIdempotent` | pkg/controllers/nodeclass/azure/controller.go:170-183 | for a restful provider, syncing again at any later time changes nothing, so no patch is sent on an unchanged world |
| `Conditions.SyncIsIdempotentIff` | pkg/controllers/nodeclass/status/conditions.go:19-52 | syncing is idempotent for every list, generation and clock exactly for restful providers: where one gives a kind several statuses, it dates the turn to the last |
| `Conditions.UniqueOrTimedIsRestful` | pkg/assets/aws/karpenter.k8s.aws_ec2nodeclasses.yaml:883-888 | a provider with unique kinds, or with the time of every condition as its schema demands, is restful |
| `Conditions.UntimedTurnFlaps` | pkg/controllers/nodeclass/status/conditions.go:19-35 | for every provider that is not, a second sync that changes the list |
| `EC2Status.SetAWSResourceTagConflictCondition` | pkg/controllers/nodeclass/ec2/controller.go:372-425 | the condition is there exactly if both sides have tags, and true exactly if a tag is blocked, with its reason; no other condition changes; for coherent platform tags it is true exactly when the merge drops some NodeClass value |
| `EC2Status.EC2ConditionsComeToRest` | pkg/controllers/nodeclass/ec2/controller.go:264-274 | for a restful provider, sync and conflict condition together compute what they find the second time |
| `HcpFilter.RejectedUpdateIsHarmlessIff` | pkg/controllers/nodeclass/ec2/controller.go:279-297 | a rejected HCP update leaves spec, upgrade hold and conflict report of every NodeClass as they were exactly when it does not touch the e2e override and, while enabled, the infra ID |
| `HcpFilter.AcceptsMeans` | pkg/controllers/nodeclass/ec2/controller.go:279-297 | the filter lets an update through exactly when it changes the instance profile, the resource tags or the version |
| `HcpFilter.OwnTermsWin` | pkg/controllers/nodeclass/ec2/spec.go:57-83 | the selectors are the NodeClass's own terms, even an empty list, and else the default for the infra ID; the tags are the final ones |
| `HcpFilter.SelectorsFollowTheInfraIDIff` | pkg/controllers/nodeclass/ec2/spec.go:57-83 | two HCPs give a NodeClass the same selectors exactly if it has its own or their infra IDs are equal |
| `HcpFilter.DerivationMeans` | pkg/controllers/nodeclass/ec2/controller.go:102-104 | nothing is derived exactly under the e2e override; the instance profile, the hold and the conflict report of a derivation |
| `HcpFilter.DefaultTermsIdentifyInfraID` | pkg/controllers/nodeclass/ec2/spec.go:107-120 | either default selector, of subnets or of security groups, determines the infra ID |
| `Kubelet.OverflowIsUnknown` | api/karpenter/v1/kubelet_config.go:151-164 | the overflow is absent or a non-empty object without any known name, whatever is decoded |
| `Kubelet.KubeletConfiguration.UnmarshalJSON` | api/karpenter/v1/kubelet_config.go:134-165 | the loop over the known names gives the specified decoding, independent of what the receiver held before |
| `Kubelet.KubeletConfiguration.MarshalJSON` | api/karpenter/v1/kubelet_config.go:169-194 | gives the specified encoding, with its error and its panic |
| `Kubelet.MergeInto` | api/karpenter/v1/kubelet_config.go:190-192 | the merge loop lets structured fields win, in any order |
| `Kubelet.EncodeThenDecode` | api/karpenter/v1/kubelet_config.go:134-194 | what comes back from any typed fields and any overflow of unknown names |
| `Kubelet.FieldsAreUnderTheirNames` | api/karpenter/v1/kubelet_config.go:169-194 | each typed field is encoded under its own name in place of the overflow's; a field that is left out does not hide the overflow, and unknown fields stay |
| `Kubelet.EncodeFailsIff` | api/karpenter/v1/kubelet_config.go:179-192 | encoding fails exactly for an overflow that is no object, and panics exactly for a null one that a field has to go into |
| `Kubelet.DecodesIff` | api/karpenter/v1/kubelet_config.go:134-150 | exactly the documents are decoded whose known fields are null or of their types, and null |
| `Kubelet.EachFieldByItself` | api/karpenter/v1/kubelet_config.go:140-146 | each field is decoded by itself, also when another one is rejected; then no overflow is kept |
| `Kubelet.RoundTripsIffCanonical` | api/karpenter/v1/kubelet_config.go:134-194 | decode after encode is the identity exactly on configurations without empty non-nil maps and with absent or disjoint non-empty object overflow |
| `Kubelet.NormalisationKeepsUnknownFields` | api/karpenter/v1/kubelet_config.go:134-194 | encode after decode keeps every unknown field, adds no known one, and is idempotent |
| `Kubelet.ZeroMeansZero` | api/karpenter/v1/kubelet_config.go:196-219 | IsZero holds exactly of the zero configuration, so HasTypedFields forgets no field |
| `Verifier.InstanceIDIsTheLastPart` | pkg/cloudprovider/aws/node_identity_verifier.go:63-69 | the instance ID is the non-empty part behind the last slash |
| `Verifier.EC2InstanceID` | pkg/cloudprovider/aws/node_identity_verifier.go:63-69 | found exactly when there is such a part |
| `Verifier.Chunks` | pkg/cloudprovider/aws/node_identity_verifier.go:33 | no batch is empty or larger than the limit of the call |
| `Verifier.ChunksCover` | pkg/cloudprovider/aws/node_identity_verifier.go:33 | batching neither loses an ID nor invents one |
| `Verifier.ChunksAreTheIDs` | pkg/cloudprovider/aws/node_identity_verifier.go:33 | the batches are the IDs in order, cut every 1000 |
| `Verifier.MatchesPrivateDNSName` | pkg/cloudprovider/aws/node_identity_verifier.go:45-61 | true exactly when a returned instance has the name |
| `Verifier.Verify` | pkg/cloudprovider/aws/node_identity_verifier.go:23-43 | the loops with early exit compute the specified batched lookup |
| `Verifier.BatchesAnswerTheQuestion` | pkg/cloudprovider/aws/node_identity_verifier.go:23-61 | its answers are those of the single question whether some claim's instance has the name, and it fails exactly when a batch fails before any match |
| `MachineApprover.IsCertificateRequestPending` | pkg/controllers/machineapprover/controller.go:216-223 | true exactly when no condition approves or denies |
| `MachineApprover.DeleteBound` | pkg/controllers/machineapprover/controller.go:175-178 | filters in place: the unbound claims in order at the front, the rest cleared |
| `MachineApprover.UnboundClaims` | pkg/controllers/machineapprover/controller.go:175-178 | the filter keeps exactly the claims without a node |
| `MachineApprover.TargetIsFirst` | pkg/controllers/machineapprover/controller.go:243-256 | the target is the first claim with the node name, and none means that there is none |
| `MachineApprover.AuthorizeClientCSR` | pkg/controllers/machineapprover/controller.go:159-184 | the code computes the specified client authorization, without a lookup when no claim is unbound |
| `MachineApprover.AuthorizeServingCSR` | pkg/controllers/machineapprover/controller.go:186-198 | the code computes the specified serving authorization |
| `MachineApprover.AuthorizeCSR` | pkg/controllers/machineapprover/controller.go:148-157 | by signer, with an error for any other one |
| `MachineApprover.AuthorizedMeansEntitled` | pkg/controllers/machineapprover/controller.go:148-198 | granted only to an entitled CSR and refused only to one that is not; the exact error cases |
| `MachineApprover.RequestedNameMeans` | pkg/controllers/machineapprover/controller.go:165-168 | the name asked for is what follows "system:node:", or the whole text without that prefix, and not empty |
| `MachineApprover.ClientIsGrantedIff` | pkg/controllers/machineapprover/controller.go:159-184 | a client CSR in the standard form is granted, as long as no call fails, exactly when the instance of some NodeClaim without a node has the name |
| `MachineApprover.ServingIsGrantedIff` | pkg/controllers/machineapprover/controller.go:186-198 | a serving CSR exactly when the instance of the first NodeClaim of that node has the name |
| `Approvals.StepKeepsInv` | pkg/controllers/machineapprover/controller.go:108-145 | every step of the controller, its watch and others keeps the invariant |
| `Approvals.CheckedVersionIsStored` | pkg/controllers/machineapprover/controller.go:208-211 | an accepted approval was computed from the version that is stored when it arrives |
| `Approvals.ApprovalsAreSoundAndSingle` | pkg/controllers/machineapprover/controller.go:108-145 | over every run with arbitrarily stale reads: each approval is justified by what the controller saw, comes before any other decision, and is the only one for its CSR |
| `Approvals.ApprovalHitsAPendingCsr` | pkg/controllers/machineapprover/controller.go:200-214 | a call changes nothing, or appends one approval to a stored, undecided CSR that is not deleting, and nothing else |
| `Approvals.ApprovedCsrsPassedTheFilter` | pkg/controllers/machineapprover/controller.go:92-106 | over every run a CSR approved by the controller has a name under which some CSR passed the watch filter; while no name is used twice it passes it itself, and so is of the bootstrapper or of a node, although the reconcile does not ask again |
| `Approvals.WatchQueuesIff` | pkg/controllers/machineapprover/controller.go:92-106 | the watch queues exactly undecided CSRs: of the bootstrapper for client certificates, of the node group for serving ones |
| `Approvals.RequestWaitsUntilAnswered` | pkg/controllers/machineapprover/controller.go:108-145 | no request is dropped: over every run after the watch delivered such a CSR, its name waits until it is found gone, deleting or decided, is refused, or its approval is accepted; errors, conflicts and lost reconciles do not count |
| `Approvals.AnsweredNameIsDone` | pkg/controllers/machineapprover/controller.go:108-145 | and then it neither waits nor is in flight, unless the watch brought it in again meanwhile |
| `Approvals.ApprovableIffQueuedAndNamed` | pkg/controllers/machineapprover/controller.go:92-184 | in every state of the protocol: the next reconcile can approve an undecided CSR exactly when its name is queued and it asks for a node name |
| `Approvals.WaitingNameIsNotFilteredAgain` | pkg/controllers/machineapprover/controller.go:92-145 | from every state in which a name is free: its CSR can pass the filter and be deleted, and the next reconcile can approve a new CSR of the name exactly when that asks for a node name |
| `Approvals.HandledNameIsFilteredAgain` | pkg/controllers/machineapprover/controller.go:92-144 | once the item of a name is handled, nothing is approved under it until the watch delivers a version that passes the filter |
| `MachineApprover.NamedIsGrantable` | pkg/controllers/machineapprover/controller.go:148-198 | every CSR that asks for a node name is authorized for some NodeClaims and instances |
| `Approvals.Controller.Reconcile` | pkg/controllers/machineapprover/controller.go:108-145 | the code is one review of the machine, followed by an approval exactly when the machine approves; its error cases |
| `Approvals.Controller.Approve` | pkg/controllers/machineapprover/controller.go:200-214 | appends the condition to the version that was read and sends it; an error exactly on a conflict |
| `UserDataSecret.GetUserDataSecret` | pkg/hypershift/userdatasecret.go:38-61 | succeeds exactly when one stored Secret is wanted, with that Secret; not found for none, ambiguous with their number for several |
| `UserDataSecret.SelectedIffMappedBack` | pkg/hypershift/userdatasecret.go:38-99 | a Secret is selected for a NodeClass exactly when it maps back to that NodeClass and names the namespace, for any name |
| `UserDataSecret.SelectedOnce` | pkg/hypershift/userdatasecret.go:44-51 | no Secret is selected for two NodeClasses |
| `UserDataSecret.SelectedInOneNamespace` | pkg/hypershift/userdatasecret.go:44-51 | nor for two namespaces |
| `UserDataSecret.WantedMeans` | pkg/hypershift/userdatasecret.go:38-51 | the wanted Secrets are those of the namespace with the Karpenter label and the NodePool annotation of the NodeClass that are no token Secrets |
| `UserDataSecret.TokenSecretsEnqueueNothing` | pkg/hypershift/userdatasecret.go:88-91 | an event on a token Secret enqueues nothing |
| `UserDataSecret.FoundSecretMapsBack` | pkg/hypershift/userdatasecret.go:38-99 | the Secret that the lookup returns enqueues its NodeClass and is wanted for no other |
| `UserDataSecret.EveryWantedSecretEnqueues` | pkg/hypershift/userdatasecret.go:87-99 | the wanted Secrets of a NodeClass are exactly those listed ones that enqueue it for the namespace |
| `UserDataSecret.CutSuffixUndoesAppend` | pkg/hypershift/userdatasecret.go:63-98 | cutting the suffix undoes appending it, also for names that already end in it |

## Left out

- Manager, client, cache and scheme wiring; only the filters, the single work item of the AutoNode status and the rule that one key is not processed twice at once are kept.
- Operand rendering, ClusterOperator status, ValidatingAdmissionPolicy, CRD and default NodeClass controllers: builder calls and fixed tables, which would only add easy members.
- The field-by-field enum mappings of `ec2NodeClassSpec` are one uninterpreted value of the NodeClass (`plain`); `aksNodeClassSpec` likewise.
- Security groups and capacity reservations in the EC2 status: copied like the subnets, they stand in the uninterpreted rest of the status.
- Restricted tag patterns, PEM and X.509 parsing and the AWS API are parameters; two equal batches of one lookup get equal answers.
- The path of `deleteNodeClaims` for `force == false`: the constant makes it unreachable.
- Deletion reads of a lagging cache: the deletion results assume fresh reads.
- Requeue delays, log texts, message texts, metrics and the formatting of time.
- JSON keys that match a known name only up to letter case, duplicate keys and number syntax; a document is a map of names.
- The ConfigMap's labels and owner reference; only its list of subnet IDs is kept.
- Several HostedControlPlanes in the namespace: they count as a fault of the read.
- Quantities finer than thousandths, and negative CPU capacities.
- The pull-secret merge of the operand controllers, a smaller case of the same lock argument.
- SubnetRetention.WrittenSubnetsAreRetained: is about listings that saw the owner terminating; `SubnetRetention.RetainedIff` is about all.
- The event filters of the Azure and subnet controllers: each compares all that its reconcile reads of the HostedControlPlane, the deletion timestamp aside.
- NodeClassControllers.Reconciler.ReconcileEC2: the HCP, the Secret, the spec and the conditions are inputs of the reconcile; their own modules say how they are computed.
