/**
 Progress of the hosted control plane deletion, whether it is the HCP itself that is deleted or, earlier, its CAPI
 Cluster only.
 */
module DeletionProgress {
  import opened Wrappers
  import opened Finalizers
  import opened Deletion
  import opened Listings

  function UnmarkedPools(w: World): set<string> { set n | n in w.pools && !w.pools[n].marked }
  function UnmarkedClaims(w: World): set<string> { set n | n in w.claims && w.claims[n].deletedAt.None? }
  function Unannotated(w: World): set<string> { set n | n in w.claims && Termination(w.claims[n]) == "" }

  /** The work left: every entry is a write that somebody still has to make. */
  function Measure(w: World): nat {
    |UnmarkedPools(w)| + |w.pools.Keys| + |UnmarkedClaims(w)| + |Unannotated(w)| + |w.claims.Keys|
      + (if Guarded(w) then 1 else 0)
  }

  predicate Shrinks(w: World, w': World) {
    && UnmarkedPools(w') <= UnmarkedPools(w) && w'.pools.Keys <= w.pools.Keys
    && UnmarkedClaims(w') <= UnmarkedClaims(w) && Unannotated(w') <= Unannotated(w)
    && w'.claims.Keys <= w.claims.Keys && (Guarded(w') ==> Guarded(w))
  }

  predicate SameWork(w: World, w': World) {
    && UnmarkedPools(w') == UnmarkedPools(w) && w'.pools.Keys == w.pools.Keys
    && UnmarkedClaims(w') == UnmarkedClaims(w) && Unannotated(w') == Unannotated(w)
    && w'.claims.Keys == w.claims.Keys && Guarded(w') == Guarded(w)
  }

  lemma SubsetSize<T>(a: set<T>, b: set<T>)
    requires a <= b
    ensures |a| <= |b|
    ensures |a| == |b| ==> a == b
  {
    assert b == a + (b - a);
    if a != b { assert b - a != {}; }
  }

  lemma ShrinkingLowersMeasure(w: World, w': World)
    requires Shrinks(w, w')
    ensures Measure(w') <= Measure(w)
    ensures Measure(w') == Measure(w) ==> SameWork(w, w')
  {
    SubsetSize(UnmarkedPools(w'), UnmarkedPools(w));
    SubsetSize(w'.pools.Keys, w.pools.Keys);
    SubsetSize(UnmarkedClaims(w'), UnmarkedClaims(w));
    SubsetSize(Unannotated(w'), Unannotated(w));
    SubsetSize(w'.claims.Keys, w.claims.Keys);
  }

  /** Nobody else creates work: no new objects, no finalizer put back, no annotation cleared. */
  predicate Calm(w: World, e: Event) {
    match e
    case Env(HcpCreate(_, _, _)) => false
    case Env(HcpWrite(finalizers, _, _)) => KARPENTER_FINALIZER in finalizers ==> Guarded(w)
    case Env(PoolCreate(_, _)) => false
    case Env(ClaimCreate(_, _, _)) => false
    case Env(ClaimAnnotate(n, annotations)) =>
      n in w.claims && Termination(w.claims[n]) != "" ==> Termination(w.claims[n].(annotations := annotations)) != ""
    case _ => true
  }

  ghost predicate CalmRun(s: Sys, es: seq<Event>)
    decreases |es|
  {
    es == [] || (Calm(s.w, es[0]) && CalmRun(Step(s, es[0]), es[1..]))
  }

  /**
   The reconcile is told that the cluster is not being deleted. Such an answer ends the cleanup of that reconcile; it
   can come after others that said so, when the CAPI Cluster disappears before the HCP is deleted.
   */
  predicate DeclinedBy(s: Sys, e: Event) {
    e.Ctl? && e.fault.NoFault? && s.pc.Decide? && !IsClusterDeleting(s.w, s.pc.hcp)
  }

  ghost predicate Declined(s: Sys, es: seq<Event>)
    decreases |es|
  {
    es != [] && (DeclinedBy(s, es[0]) || Declined(Step(s, es[0]), es[1..]))
  }

  lemma DeletePoolShrinks(w: World, n: string)
    requires DeletePool(w, n).Ok?
    ensures Shrinks(w, DeletePool(w, n).value) && n !in UnmarkedPools(DeletePool(w, n).value)
  {
  }

  lemma DeleteClaimShrinks(w: World, n: string, now: Timestamp)
    requires DeleteClaim(w, n, now).Ok?
    ensures Shrinks(w, DeleteClaim(w, n, now).value) && n !in UnmarkedClaims(DeleteClaim(w, n, now).value)
  {
  }

  lemma AnnotateClaimShrinks(w: World, n: string, at: Timestamp)
    requires AnnotateClaim(w, n, at).Ok?
    ensures Shrinks(w, AnnotateClaim(w, n, at).value) && n !in Unannotated(AnnotateClaim(w, n, at).value)
  {
  }

  lemma ClaimMovesShrink(w: World, m: Move)
    requires Calm(w, Env(m)) && (m.ClaimDelete? || m.ClaimRelease? || m.ClaimAnnotate?)
    ensures Shrinks(w, Apply(w, m))
  {
    if m.ClaimDelete? && m.name in w.claims { DeleteClaimShrinks(w, m.name, m.now); }
  }

  lemma OthersShrinkOnce(w: World, m: Move)
    requires Calm(w, Env(m))
    ensures Shrinks(w, Apply(w, m))
  {
    if m.ClaimDelete? || m.ClaimRelease? || m.ClaimAnnotate? {
      ClaimMovesShrink(w, m);
    } else if m.PoolDelete? && m.name in w.pools {
      DeletePoolShrinks(w, m.name);
    }
  }

  lemma ActShrinks(s: Sys, order: seq<string>, now: Timestamp)
    requires !s.pc.Adding?
    ensures Shrinks(s.w, Act(s, order, now).w)
  {
    match s.pc
    case PoolLoop(_, pools) =>
      if pools != [] && pools[0] in s.w.pools { DeletePoolShrinks(s.w, pools[0]); }
    case ClaimLoop(_, claims) =>
      if claims != [] && claims[0].name in s.w.claims {
        match claims[0]
        case Mark(n) => DeleteClaimShrinks(s.w, n, now);
        case Annotate(n, at) => AnnotateClaimShrinks(s.w, n, at);
      }
    case _ =>
  }

  /** No step of anybody makes the remaining work grow, save the call that puts the finalizer on. */
  lemma StepShrinks(s: Sys, e: Event)
    requires Calm(s.w, e) && !s.pc.Adding?
    ensures Shrinks(s.w, Step(s, e).w)
  {
    match e
    case Env(m) => OthersShrinkOnce(s.w, m);
    case Ctl(_, order, now) => ActShrinks(s, order, now);
  }

  /******* One reconcile *******/

  /** `es` carries a reconcile that is in flight in `s` exactly to its end. */
  ghost predicate InFlight(s: Sys, es: seq<Event>)
    decreases |es|
  {
    if s.pc.Idle? then es == [] else es != [] && InFlight(Step(s, es[0]), es[1..])
  }

  /** No reconcile has ended anywhere in `es`. */
  ghost predicate Flying(s: Sys, es: seq<Event>)
    decreases |es|
  {
    !s.pc.Idle? && (es == [] || Flying(Step(s, es[0]), es[1..]))
  }

  /** `es` is one whole reconcile, with what others do meanwhile. */
  ghost predicate Pass(s: Sys, es: seq<Event>) {
    s.pc.Idle? && es != [] && es[0].Ctl? && InFlight(Step(s, es[0]), es[1..])
  }

  /** There is nothing the controller can write: everything left waits for somebody else. */
  predicate Waiting(w: World) {
    || !Guarded(w)
    || (w.pools != map[] && UnmarkedPools(w) == {})
    || (w.pools == map[] && w.claims != map[] && UnmarkedClaims(w) == {} && Unannotated(w) == {})
    || (w.pools == map[] && w.claims == map[] && !w.hcp.value.deleting)
  }

  /** As long as no work has been done since `w0`, this is where the reconcile has got to. */
  predicate OnTrack(w0: World, pc: Pc) {
    match pc
    case Idle(ok) => ok ==> Waiting(w0)
    case Decide(h) => w0.hcp == Some(h)
    case Adding(_) => false
    case ListPools(h) => w0.hcp == Some(h) && Guarded(w0)
    case PoolLoop(_, pools) => pools != [] && pools[0] in UnmarkedPools(w0)
    case ListClaims(h) => w0.hcp == Some(h) && Guarded(w0) && w0.pools == map[]
    case ClaimLoop(_, claims) =>
      w0.pools == map[] && claims != [] && (
        match claims[0]
        case Mark(n) => n in UnmarkedClaims(w0)
        case Annotate(n, _) => n in Unannotated(w0))
    case Removing(_) => Guarded(w0)
  }

  predicate Progressing(w0: World, s: Sys) {
    && !s.pc.Adding? && Shrinks(w0, s.w)
    && (SameWork(w0, s.w) ==> OnTrack(w0, s.pc))
  }

  lemma ListingPoolsProgresses(w: World, order: seq<string>)
    requires IsListing(order, w.pools.Keys)
    ensures var todo := UnmarkedIn(w.pools, order);
      if todo == [] then UnmarkedPools(w) == {} else todo[0] in UnmarkedPools(w)
  {
    var todo := UnmarkedIn(w.pools, order);
    if todo == [] {
      assert forall n :: n in UnmarkedPools(w) ==> n in todo;
    } else {
      assert todo[0] in todo;
    }
  }

  lemma ListingClaimsProgresses(w: World, order: seq<string>)
    requires IsListing(order, w.claims.Keys)
    ensures var todo := TodosIn(w.claims, order);
      if todo == [] then UnmarkedClaims(w) == {} && Unannotated(w) == {}
      else todo[0].name in (if todo[0].Mark? then UnmarkedClaims(w) else Unannotated(w))
  {
    var todo := TodosIn(w.claims, order);
    if todo == [] {
      assert forall n :: n in w.claims ==> n in order && TodoFor(n, w.claims[n]) == [];
    } else {
      assert todo[0] in todo;
    }
  }

  /** While no work has been done the reconcile stays on track, and its next write does some. */
  lemma ActStaysOnTrack(w0: World, s: Sys, order: seq<string>, now: Timestamp)
    requires SameWork(w0, s.w) && OnTrack(w0, s.pc) && !s.pc.Idle?
    requires s.pc.Decide? ==> IsClusterDeleting(s.w, s.pc.hcp)
    ensures SameWork(w0, Act(s, order, now).w) ==> OnTrack(w0, Act(s, order, now).pc)
  {
    assert w0.pools == map[] <==> s.w.pools == map[] by { assert w0.pools.Keys == s.w.pools.Keys; }
    assert w0.claims == map[] <==> s.w.claims == map[] by { assert w0.claims.Keys == s.w.claims.Keys; }
    match s.pc
    case ListPools(_) =>
      if IsListing(order, s.w.pools.Keys) {
        EmptyListing(order, s.w.pools.Keys);
        ListingPoolsProgresses(s.w, order);
      }
    case PoolLoop(_, pools) => if pools[0] in s.w.pools { DeletePoolShrinks(s.w, pools[0]); }
    case ListClaims(_) =>
      if IsListing(order, s.w.claims.Keys) {
        EmptyListing(order, s.w.claims.Keys);
        ListingClaimsProgresses(s.w, order);
      }
    case ClaimLoop(_, claims) =>
      if claims[0].name in s.w.claims {
        match claims[0]
        case Mark(n) => DeleteClaimShrinks(s.w, n, now);
        case Annotate(n, at) => AnnotateClaimShrinks(s.w, n, at);
      }
    case _ =>
  }

  lemma StepProgresses(w0: World, s: Sys, e: Event)
    requires Progressing(w0, s) && Calm(s.w, e) && !DeclinedBy(s, e) && !s.pc.Idle?
    ensures Progressing(w0, Step(s, e))
  {
    StepShrinks(s, e);
    if SameWork(w0, Step(s, e).w) {
      assert SameWork(w0, s.w);
      if e.Ctl? && e.fault.NoFault? { ActStaysOnTrack(w0, s, e.order, e.now); }
    }
  }

  lemma {:induction false} FlightProgresses(w0: World, s: Sys, es: seq<Event>)
    requires Progressing(w0, s) && InFlight(s, es) && CalmRun(s, es) && !Declined(s, es)
    ensures Progressing(w0, Run(s, es))
    decreases |es|
  {
    if !s.pc.Idle? {
      StepProgresses(w0, s, es[0]);
      FlightProgresses(w0, Step(s, es[0]), es[1..]);
    }
  }

  /**
   Main progress result. While nobody creates new work, the measure never grows over a reconcile that is not told that
   the cluster stays, and such a reconcile, if it ends without an error, strictly lowers it unless nothing was left for
   the controller to write when it began. It does not matter whether the HCP or only its CAPI Cluster is being deleted.
   */
  lemma PassLowersMeasure(s: Sys, es: seq<Event>)
    requires Pass(s, es) && CalmRun(s, es) && !Declined(s, es)
    ensures var s' := Run(s, es);
      && Measure(s'.w) <= Measure(s.w)
      && (s'.pc == Idle(true) ==> Measure(s'.w) < Measure(s.w) || Waiting(s.w))
  {
    StepShrinks(s, es[0]);
    FlightProgresses(s.w, Step(s, es[0]), es[1..]);
    ShrinkingLowersMeasure(s.w, Run(s, es).w);
  }

  /** Nobody takes the deletion of a CAPI Cluster back: a Cluster that is being deleted stays so, and stays. */
  predicate Steady(w: World, e: Event) {
    e.Env? && e.move.CapiChange? ==>
      forall n :: n in w.capi && w.capi[n] ==> n in e.move.capi && e.move.capi[n]
  }

  ghost predicate SteadyRun(s: Sys, es: seq<Event>)
    decreases |es|
  {
    es == [] || (Steady(s.w, es[0]) && SteadyRun(Step(s, es[0]), es[1..]))
  }

  lemma {:induction false} SteadyFlightIsNotDeclined(s: Sys, es: seq<Event>)
    requires InFlight(s, es) && SteadyRun(s, es)
    requires s.pc.Decide? ==> IsClusterDeleting(s.w, s.pc.hcp)
    ensures !Declined(s, es)
    decreases |es|
  {
    if !s.pc.Idle? { SteadyFlightIsNotDeclined(Step(s, es[0]), es[1..]); }
  }

  /** Only a CAPI Cluster that disappears declines a reconcile that begins while the HCP or its Cluster is deleted. */
  lemma SteadyDeletionIsNotDeclined(s: Sys, es: seq<Event>)
    requires Pass(s, es) && SteadyRun(s, es)
    requires s.w.hcp.Some? ==> IsClusterDeleting(s.w, s.w.hcp.value)
    ensures !Declined(s, es)
  {
    SteadyFlightIsNotDeclined(Step(s, es[0]), es[1..]);
  }

  /******* One pass marks every NodePool *******/

  /** The NodePools that are not marked are still ahead of the reconcile. */
  predicate PoolsCovered(s: Sys) {
    match s.pc
    case Decide(_) => true
    case ListPools(_) => true
    case PoolLoop(_, pools) => forall n :: n in UnmarkedPools(s.w) ==> n in pools
    case Idle(ok) => ok ==> UnmarkedPools(s.w) == {}
    case _ => UnmarkedPools(s.w) == {}
  }

  lemma PoolLoopCovers(s: Sys, e: Event)
    requires PoolsCovered(s) && s.pc.PoolLoop? && e.Ctl?
    ensures PoolsCovered(Step(s, e))
  {
    StepShrinks(s, e);
    if s.pc.pools != [] { assert s.pc.pools == [s.pc.pools[0]] + s.pc.pools[1..]; }
  }

  lemma StepCoversPools(s: Sys, e: Event)
    requires Calm(s.w, e) && PoolsCovered(s) && !DeclinedBy(s, e) && !s.pc.Idle? && !s.pc.Adding?
    requires s.pc.Decide? ==> KARPENTER_FINALIZER in s.pc.hcp.finalizers
    ensures PoolsCovered(Step(s, e))
  {
    StepShrinks(s, e);
    if e.Ctl? && s.pc.PoolLoop? {
      PoolLoopCovers(s, e);
    } else if e.Ctl? && s.pc.ListPools? && IsListing(e.order, s.w.pools.Keys) {
      EmptyListing(e.order, s.w.pools.Keys);
    }
  }

  lemma {:induction false} FlightCoversPools(s: Sys, es: seq<Event>)
    requires InFlight(s, es) && CalmRun(s, es) && !Declined(s, es) && PoolsCovered(s) && !s.pc.Adding?
    requires s.pc.Decide? ==> KARPENTER_FINALIZER in s.pc.hcp.finalizers
    ensures Run(s, es).pc.Idle? && PoolsCovered(Run(s, es))
    decreases |es|
  {
    if !s.pc.Idle? {
      StepCoversPools(s, es[0]);
      FlightCoversPools(Step(s, es[0]), es[1..]);
    }
  }

  /** A reconcile that ends without an error leaves no NodePool unmarked, however many there are. */
  lemma PassMarksPools(s: Sys, es: seq<Event>)
    requires Guarded(s.w)
    requires Pass(s, es) && CalmRun(s, es) && !Declined(s, es) && Run(s, es).pc == Idle(true)
    ensures UnmarkedPools(Run(s, es).w) == {}
  {
    FlightCoversPools(Step(s, es[0]), es[1..]);
  }

  /******* Two passes mark and annotate every NodeClaim *******/

  predicate Listed(n: string, todo: seq<Todo>) {
    exists t :: t in todo && t.Annotate? && t.name == n
  }

  /**
   A reconcile without NodePools, told apart by whether all NodeClaims were marked when it began: what it has not
   handled yet is still ahead of it.
   */
  predicate Covered(s: Sys, marked: bool) {
    && s.w.pools == map[]
    && (marked ==> UnmarkedClaims(s.w) == {})
    && match s.pc
       case Idle(ok) => ok ==> UnmarkedClaims(s.w) == {} && (marked ==> Unannotated(s.w) == {})
       case Decide(h) => KARPENTER_FINALIZER in h.finalizers
       case Adding(_) => false
       case ListPools(_) => true
       case PoolLoop(_, _) => false
       case ListClaims(_) => true
       case ClaimLoop(_, todo) =>
         && (forall n :: n in UnmarkedClaims(s.w) ==> Mark(n) in todo)
         && (marked ==> forall n :: n in Unannotated(s.w) ==> Listed(n, todo))
       case Removing(_) => s.w.claims == map[]
  }

  /** The loop over a listing has all the work of the listing ahead of it. */
  lemma ListingCovers(w: World, order: seq<string>)
    requires IsListing(order, w.claims.Keys)
    ensures var todo := TodosIn(w.claims, order);
      && (forall n :: n in UnmarkedClaims(w) ==> Mark(n) in todo)
      && (UnmarkedClaims(w) == {} ==> forall n :: n in Unannotated(w) ==> Listed(n, todo))
  {
    var todo := TodosIn(w.claims, order);
    forall n | n in UnmarkedClaims(w) ensures Mark(n) in todo {
      assert TodoFor(n, w.claims[n]) == [Mark(n)];
    }
    forall n | UnmarkedClaims(w) == {} && n in Unannotated(w) ensures Listed(n, todo) {
      assert n !in UnmarkedClaims(w);
      assert Annotate(n, w.claims[n].deletedAt.value) in todo;
    }
  }

  lemma OthersCover(s: Sys, e: Event, marked: bool)
    requires Calm(s.w, e) && Covered(s, marked) && e.Env?
    ensures Covered(Step(s, e), marked)
  {
    StepShrinks(s, e);
  }

  lemma ClaimLoopCovers(s: Sys, e: Event, marked: bool)
    requires Covered(s, marked) && s.pc.ClaimLoop? && e.Ctl?
    ensures Covered(Step(s, e), marked)
  {
    StepShrinks(s, e);
    if s.pc.claims != [] { assert s.pc.claims == [s.pc.claims[0]] + s.pc.claims[1..]; }
  }

  lemma StepCovers(s: Sys, e: Event, marked: bool)
    requires Calm(s.w, e) && Covered(s, marked) && !DeclinedBy(s, e) && !s.pc.Idle?
    ensures Covered(Step(s, e), marked)
  {
    if e.Env? {
      OthersCover(s, e, marked);
    } else if s.pc.ClaimLoop? {
      ClaimLoopCovers(s, e, marked);
    } else if s.pc.ListPools? && IsListing(e.order, s.w.pools.Keys) {
      EmptyListing(e.order, s.w.pools.Keys);
    } else if s.pc.ListClaims? && IsListing(e.order, s.w.claims.Keys) {
      EmptyListing(e.order, s.w.claims.Keys);
      ListingCovers(s.w, e.order);
    }
  }

  lemma {:induction false} FlightCovers(s: Sys, es: seq<Event>, marked: bool)
    requires InFlight(s, es) && CalmRun(s, es) && !Declined(s, es) && Covered(s, marked)
    ensures Run(s, es).pc.Idle? && Covered(Run(s, es), marked)
    decreases |es|
  {
    if !s.pc.Idle? {
      StepCovers(s, es[0], marked);
      FlightCovers(Step(s, es[0]), es[1..], marked);
    }
  }

  /** What a reconcile without NodePools achieves when it ends without an error. */
  lemma PassCovers(s: Sys, es: seq<Event>)
    requires Guarded(s.w) && s.w.pools == map[]
    requires Pass(s, es) && CalmRun(s, es) && !Declined(s, es) && Run(s, es).pc == Idle(true)
    ensures var s' := Run(s, es);
      && s'.w.pools == map[] && UnmarkedClaims(s'.w) == {}
      && (UnmarkedClaims(s.w) == {} ==> Unannotated(s'.w) == {})
  {
    StepShrinks(s, es[0]);
    if es[0].fault.NoFault? {
      FlightCovers(Step(s, es[0]), es[1..], UnmarkedClaims(s.w) == {});
    }
  }

  predicate OnlyOthers(es: seq<Event>) {
    forall e :: e in es ==> e.Env?
  }

  lemma {:induction false} OthersShrink(s: Sys, es: seq<Event>)
    requires OnlyOthers(es) && CalmRun(s, es)
    ensures Run(s, es).pc == s.pc && Shrinks(s.w, Run(s, es).w)
    decreases |es|
  {
    if es != [] {
      OthersShrinkOnce(s.w, es[0].move);
      OthersShrink(Step(s, es[0]), es[1..]);
    }
  }

  /**
   After the NodePools are gone, two reconciles that end without an error leave every surviving NodeClaim marked
   for deletion and annotated for forceful termination.
   */
  lemma TwoPassesAnnotateEveryClaim(s0: Sys, first: seq<Event>, gap: seq<Event>, second: seq<Event>)
    requires Guarded(s0.w) && s0.w.pools == map[]
    requires Pass(s0, first) && CalmRun(s0, first) && !Declined(s0, first)
    requires var s1 := Run(s0, first);
      s1.pc == Idle(true) && OnlyOthers(gap) && CalmRun(s1, gap) &&
      var s2 := Run(s1, gap);
      && Guarded(s2.w) && Pass(s2, second) && CalmRun(s2, second) && !Declined(s2, second)
      && Run(s2, second).pc == Idle(true)
    ensures var w := Run(Run(Run(s0, first), gap), second).w;
      forall n :: n in w.claims ==> w.claims[n].deletedAt.Some? && Termination(w.claims[n]) != ""
  {
    PassCovers(s0, first);
    var s1 := Run(s0, first);
    OthersShrink(s1, gap);
    var s2 := Run(s1, gap);
    assert s2.w.pools == map[] by { assert s2.w.pools.Keys == {}; }
    PassCovers(s2, second);
    var w := Run(s2, second).w;
    forall n | n in w.claims ensures w.claims[n].deletedAt.Some? && Termination(w.claims[n]) != "" {
      assert n !in UnmarkedClaims(w) && n !in Unannotated(w);
    }
  }
}
