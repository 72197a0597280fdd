/** What one whole reconcile of the HCP leaves behind: a guarded cluster that stays, or the end of an empty one. */
module DeletionOutcome {
  import opened Wrappers
  import opened Finalizers
  import opened Deletion
  import opened DeletionProgress
  import opened DeletionTermination
  import opened Listings

  /** Nobody else writes or deletes the HCP meanwhile. */
  predicate LeaveHcp(es: seq<Event>) {
    forall e :: e in es && e.Env? ==> !e.move.HcpWrite? && !e.move.HcpDelete?
  }

  predicate LeaveCapi(es: seq<Event>) {
    forall e :: e in es && e.Env? ==> !e.move.CapiChange?
  }

  predicate CreateNothing(es: seq<Event>) {
    forall e :: e in es && e.Env? ==> !e.move.PoolCreate? && !e.move.ClaimCreate?
  }

  /** The stored HCP carries the finalizer behind all that were there, and is otherwise as it was. */
  predicate GuardPutOn(before: Hcp, after: World) {
    && after.hcp.Some?
    && after.hcp.value.(rv := before.rv) ==
         if KARPENTER_FINALIZER in before.finalizers then before
         else before.(finalizers := before.finalizers + [KARPENTER_FINALIZER])
  }

  /** The finalizer is gone and all others stay in order; without others the HCP itself is gone. */
  predicate GuardTakenOff(before: Hcp, after: World) {
    var left := RemoveFinalizer(before.finalizers, KARPENTER_FINALIZER);
    if forall f :: f in before.finalizers ==> f == KARPENTER_FINALIZER then after.hcp == None
    else after.hcp.Some? && after.hcp.value.(rv := before.rv) == before.(finalizers := left)
  }

  /******* A cluster that stays *******/

  lemma {:induction false} AddingFlightGuards(s: Sys, es: seq<Event>, hcp: Hcp)
    requires InFlight(s, es) && LeaveHcp(es) && Run(s, es).pc == Idle(true)
    requires s.pc == Adding(hcp) && s.w.hcp == Some(hcp) && !hcp.deleting && KARPENTER_FINALIZER !in hcp.finalizers
    ensures GuardPutOn(hcp, Run(s, es).w)
    decreases |es|
  {
    if es[0].Env? { AddingFlightGuards(Step(s, es[0]), es[1..], hcp); }
  }

  lemma {:induction false} DeclinedFlightGuards(s: Sys, es: seq<Event>, hcp: Hcp)
    requires InFlight(s, es) && LeaveHcp(es) && Declined(s, es) && Run(s, es).pc == Idle(true)
    requires s.pc == Decide(hcp) && s.w.hcp == Some(hcp)
    ensures !hcp.deleting && GuardPutOn(hcp, Run(s, es).w)
    decreases |es|
  {
    var next := Step(s, es[0]);
    if es[0].Env? {
      DeclinedFlightGuards(next, es[1..], hcp);
    } else if !DeclinedBy(s, es[0]) {
      DeletingFlightIsNotDeclined(next, es[1..]);
    } else if KARPENTER_FINALIZER !in hcp.finalizers {
      AddingFlightGuards(next, es[1..], hcp);
    }
  }

  /**
   A cluster that stays is guarded: a reconcile that is told so and ends without an error leaves the HCP with the
   Karpenter finalizer, and adds that one only.
   */
  lemma StayingClusterIsGuarded(s: Sys, es: seq<Event>)
    requires Pass(s, es) && LeaveHcp(es) && Declined(s, es) && Run(s, es).pc == Idle(true) && s.w.hcp.Some?
    ensures !s.w.hcp.value.deleting && GuardPutOn(s.w.hcp.value, Run(s, es).w)
  {
    DeclinedFlightGuards(Step(s, es[0]), es[1..], s.w.hcp.value);
  }

  lemma {:induction false} UndeletedFlightIsDeclined(s: Sys, es: seq<Event>, hcp: Hcp)
    requires InFlight(s, es) && LeaveCapi(es) && Run(s, es).pc == Idle(true) && s.pc == Decide(hcp)
    requires !hcp.deleting && !(hcp.infraID != "" && hcp.infraID in s.w.capi && s.w.capi[hcp.infraID])
    ensures Declined(s, es)
    decreases |es|
  {
    if es[0].Env? { UndeletedFlightIsDeclined(Step(s, es[0]), es[1..], hcp); }
  }

  /** A reconcile is told that the cluster stays when neither the HCP nor its CAPI Cluster is being deleted. */
  lemma UndeletedIsDeclined(s: Sys, es: seq<Event>, hcp: Hcp)
    requires Pass(s, es) && LeaveCapi(es) && Run(s, es).pc == Idle(true) && s.w.hcp == Some(hcp)
    requires !hcp.deleting && !(hcp.infraID != "" && hcp.infraID in s.w.capi && s.w.capi[hcp.infraID])
    ensures Declined(s, es)
  {
    if es[0].fault.NoFault? { UndeletedFlightIsDeclined(Step(s, es[0]), es[1..], hcp); }
  }

  /** What the writes of others alone would have made of the world. */
  function OthersOnly(w: World, es: seq<Event>): World
    decreases |es|
  {
    if es == [] then w else OthersOnly(if es[0].Env? then Apply(w, es[0].move) else w, es[1..])
  }

  predicate SameObjects(w: World, v: World) {
    w.pools == v.pools && w.claims == v.claims
  }

  lemma OthersKeepSameObjects(w: World, v: World, m: Move)
    requires SameObjects(w, v)
    ensures SameObjects(Apply(w, m), Apply(v, m))
  {
  }

  lemma {:induction false} DeclinedFlightTouchesNothing(s: Sys, es: seq<Event>, v: World)
    requires InFlight(s, es) && SameObjects(s.w, v)
    requires s.pc.Idle? || s.pc.Adding? || (s.pc.Decide? && Declined(s, es))
    ensures SameObjects(Run(s, es).w, OthersOnly(v, es))
    decreases |es|
  {
    if !s.pc.Idle? {
      var next := Step(s, es[0]);
      if es[0].Env? { OthersKeepSameObjects(s.w, v, es[0].move); }
      if s.pc.Decide? && es[0].Ctl? && !DeclinedBy(s, es[0]) { DeletingFlightIsNotDeclined(next, es[1..]); }
      DeclinedFlightTouchesNothing(next, es[1..], if es[0].Env? then Apply(v, es[0].move) else v);
    }
  }

  /** A reconcile that is told that the cluster stays touches no NodePool and no NodeClaim. */
  lemma StayingClusterLosesNothing(s: Sys, es: seq<Event>)
    requires Pass(s, es) && Declined(s, es)
    ensures SameObjects(Run(s, es).w, OthersOnly(s.w, es))
  {
    DeclinedFlightTouchesNothing(Step(s, es[0]), es[1..], s.w);
  }

  /******* A cluster without objects that ends *******/

  /** The call that removes the finalizer takes it away from the stored version. */
  lemma ReleaseTakesTheGuardOff(s: Sys, call: Event)
    requires s.pc.Removing? && s.pc.hcp.deleting && s.w.hcp == Some(s.pc.hcp)
    requires call.Ctl? && !call.fault.Refused?
    ensures !Guarded(Step(s, call).w) && GuardTakenOff(s.pc.hcp, Step(s, call).w)
  {
    RemovesAllIffAlone(s.pc.hcp.finalizers, KARPENTER_FINALIZER);
  }

  /** The HCP is as it was read, and there is no object. */
  predicate Emptied(s: Sys, hcp: Hcp) {
    && s.w.hcp == Some(hcp) && s.w.pools == map[] && s.w.claims == map[]
    && match s.pc
       case Decide(h) => h == hcp
       case ListPools(h) => h == hcp
       case ListClaims(h) => h == hcp
       case Removing(h) => h == hcp
       case _ => false
  }

  lemma {:induction false} EmptyFlightReleases(s: Sys, es: seq<Event>, hcp: Hcp)
    requires InFlight(s, es) && LeaveHcp(es) && CreateNothing(es) && Run(s, es).pc == Idle(true)
    requires Emptied(s, hcp) && hcp.deleting && KARPENTER_FINALIZER in hcp.finalizers
    ensures !Guarded(Run(s, es).w) && GuardTakenOff(hcp, Run(s, es).w)
    decreases |es|
  {
    var next := Step(s, es[0]);
    if es[0].Env? {
      EmptyFlightReleases(next, es[1..], hcp);
    } else if s.pc.Removing? {
      if es[0].fault.NoFault? { ReleaseTakesTheGuardOff(s, es[0]); }
    } else if es[0].fault.NoFault? {
      if IsListing(es[0].order, {}) { EmptyListing(es[0].order, {}); }
      EmptyFlightReleases(next, es[1..], hcp);
    }
  }

  /**
   The end: a reconcile of a deleting HCP without NodePools and NodeClaims that ends without an error takes the
   Karpenter finalizer away, and only that one; without other finalizers the HCP is gone.
   */
  lemma EmptyClusterIsReleased(s: Sys, es: seq<Event>)
    requires Pass(s, es) && LeaveHcp(es) && CreateNothing(es) && Run(s, es).pc == Idle(true)
    requires Guarded(s.w) && s.w.hcp.value.deleting && s.w.pools == map[] && s.w.claims == map[]
    ensures !Guarded(Run(s, es).w) && GuardTakenOff(s.w.hcp.value, Run(s, es).w)
  {
    if es[0].fault.NoFault? { EmptyFlightReleases(Step(s, es[0]), es[1..], s.w.hcp.value); }
  }
}
