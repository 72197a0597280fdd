/** What the deletion controller may do to the annotations of NodeClaims. */
module DeletionAnnotations {
  import opened Wrappers
  import opened Deletion
  import opened Finalizers
  import opened Listings
  import opened DeletionProgress

  /** Only the NodeClaim loop writes NodeClaims. */
  lemma OutsideTheLoop(s: Sys, call: Event)
    requires call.Ctl? && !s.pc.ClaimLoop?
    ensures Step(s, call).w.claims == s.w.claims
  {
    ActOutsideTheLoop(s, call.order, call.now);
  }

  lemma ActOutsideTheLoop(s: Sys, order: seq<string>, now: Timestamp)
    requires !s.pc.ClaimLoop?
    ensures Act(s, order, now).w.claims == s.w.claims
  {
    match s.pc
    case Adding(hcp) => PatchKeepsClaims(s.w, hcp, AddFinalizer(hcp.finalizers, KARPENTER_FINALIZER));
    case Removing(hcp) => PatchKeepsClaims(s.w, hcp, RemoveFinalizer(hcp.finalizers, KARPENTER_FINALIZER));
    case _ =>
  }

  lemma PatchKeepsClaims(w: World, read: Hcp, finalizers: seq<Finalizer>)
    ensures OrElse(PatchFinalizers(w, read, finalizers), w).claims == w.claims
  {
  }

  function LoopResult(s: Sys, todo: Todo, now: Timestamp): World {
    match todo
    case Mark(name) => OrElse(DeleteClaim(s.w, name, now), s.w)
    case Annotate(name, at) => OrElse(AnnotateClaim(s.w, name, at), s.w)
  }

  lemma InsideTheLoop(s: Sys, call: Event)
    requires call.Ctl? && s.pc.ClaimLoop?
    ensures Step(s, call).w ==
      if s.pc.claims == [] || call.fault.Refused? then s.w else LoopResult(s, s.pc.claims[0], call.now)
  {
  }

  lemma LoopKeepsOtherAnnotations(s: Sys, todo: Todo, now: Timestamp, n: string)
    requires n in s.w.claims && n in LoopResult(s, todo, now).claims
    ensures var before := s.w.claims[n].annotations; var after := LoopResult(s, todo, now).claims[n].annotations;
      && after - {TERMINATION_ANNOTATION} == before - {TERMINATION_ANNOTATION}
      && (TERMINATION_ANNOTATION in before ==> TERMINATION_ANNOTATION in after)
  {
  }

  lemma LoopRewrites(s: Sys, todo: Todo, now: Timestamp, n: string)
    requires n in s.w.claims && n in LoopResult(s, todo, now).claims && Termination(s.w.claims[n]) != ""
    ensures Termination(LoopResult(s, todo, now).claims[n]) != Termination(s.w.claims[n]) <==>
      todo.Annotate? && todo.name == n && todo.at != Termination(s.w.claims[n])
  {
  }

  /** A call of the controller writes at most the termination annotation of one NodeClaim, and keeps all others. */
  lemma OtherAnnotationsStay(s: Sys, call: Event, n: string)
    requires call.Ctl? && n in s.w.claims && n in Step(s, call).w.claims
    ensures var before := s.w.claims[n].annotations; var after := Step(s, call).w.claims[n].annotations;
      && after - {TERMINATION_ANNOTATION} == before - {TERMINATION_ANNOTATION}
      && (TERMINATION_ANNOTATION in before ==> TERMINATION_ANNOTATION in after)
  {
    if s.pc.ClaimLoop? {
      InsideTheLoop(s, call);
      if s.pc.claims != [] && !call.fault.Refused? { LoopKeepsOtherAnnotations(s, s.pc.claims[0], call.now, n); }
    } else {
      OutsideTheLoop(s, call);
    }
  }

  /** Nobody else sets or changes a termination annotation. */
  predicate Quiet(w: World, e: Event) {
    match e
    case Env(ClaimCreate(_, _, annotations)) => Termination(Claim(None, false, annotations)) == ""
    case Env(ClaimAnnotate(n, annotations)) =>
      n in w.claims ==> Termination(w.claims[n].(annotations := annotations)) == Termination(w.claims[n])
    case _ => true
  }

  ghost predicate QuietRun(s: Sys, es: seq<Event>)
    decreases |es|
  {
    es == [] || (Quiet(s.w, es[0]) && QuietRun(Step(s, es[0]), es[1..]))
  }

  ghost predicate DistinctNames(todo: seq<Todo>) {
    forall i, j :: 0 <= i < j < |todo| ==> todo[i].name != todo[j].name
  }

  lemma {:induction false} ListingIsDistinct(claims: map<string, Claim>, order: seq<string>)
    requires forall n :: n in order ==> n in claims
    requires forall i, j :: 0 <= i < j < |order| ==> order[i] != order[j]
    ensures DistinctNames(TodosIn(claims, order))
  {
    if order != [] {
      var rest := TodosIn(claims, order[1..]);
      ListingIsDistinct(claims, order[1..]);
      assert forall t :: t in rest ==> t.name in order[1..] && t.name != order[0];
    }
  }

  /** The NodeClaims still to be annotated have no termination annotation yet. */
  ghost predicate Pending(s: Sys) {
    s.pc.ClaimLoop? ==>
      && DistinctNames(s.pc.claims)
      && forall i :: 0 <= i < |s.pc.claims| && s.pc.claims[i].Annotate? && s.pc.claims[i].name in s.w.claims ==>
           Termination(s.w.claims[s.pc.claims[i].name]) == ""
  }

  lemma FreshListingIsPending(claims: map<string, Claim>, order: seq<string>)
    requires IsListing(order, claims.Keys)
    ensures var todo := TodosIn(claims, order);
      && DistinctNames(todo)
      && forall i :: 0 <= i < |todo| && todo[i].Annotate? ==>
           todo[i].name in claims && Termination(claims[todo[i].name]) == ""
  {
    ListingIsDistinct(claims, order);
    var todo := TodosIn(claims, order);
    assert forall i :: 0 <= i < |todo| ==> todo[i] in todo;
  }

  lemma LoopKeepsPending(s: Sys, call: Event)
    requires Pending(s) && call.Ctl? && s.pc.ClaimLoop?
    ensures Pending(Step(s, call))
  {
    InsideTheLoop(s, call);
  }

  lemma CallKeepsPending(s: Sys, call: Event)
    requires Pending(s) && call.Ctl?
    ensures Pending(Step(s, call))
  {
    if s.pc.ClaimLoop? {
      LoopKeepsPending(s, call);
    } else {
      OutsideTheLoop(s, call);
      if s.pc.ListClaims? && IsListing(call.order, s.w.claims.Keys) {
        FreshListingIsPending(s.w.claims, call.order);
      }
    }
  }

  lemma StepKeepsPending(s: Sys, e: Event)
    requires Pending(s) && Quiet(s.w, e)
    ensures Pending(Step(s, e))
  {
    if e.Ctl? { CallKeepsPending(s, e); }
  }

  lemma {:induction false} RunKeepsPending(s: Sys, es: seq<Event>)
    requires Pending(s) && QuietRun(s, es)
    ensures Pending(Run(s, es))
    decreases |es|
  {
    if es != [] {
      StepKeepsPending(s, es[0]);
      RunKeepsPending(Step(s, es[0]), es[1..]);
    }
  }

  lemma CallRewrites(s: Sys, call: Event, n: string)
    requires call.Ctl? && n in s.w.claims && n in Step(s, call).w.claims && Termination(s.w.claims[n]) != ""
    ensures Termination(Step(s, call).w.claims[n]) != Termination(s.w.claims[n]) <==>
      && !call.fault.Refused? && Turn(s.pc, n)
      && s.pc.claims[0].Annotate? && s.pc.claims[0].at != Termination(s.w.claims[n])
  {
    if s.pc.ClaimLoop? {
      InsideTheLoop(s, call);
      if s.pc.claims != [] && !call.fault.Refused? { LoopRewrites(s, s.pc.claims[0], call.now, n); }
    } else {
      OutsideTheLoop(s, call);
    }
  }

  /** The loop has come to the NodeClaim. */
  predicate Turn(pc: Pc, n: string) {
    pc.ClaimLoop? && pc.claims != [] && pc.claims[0].name == n
  }

  predicate Carries(w: World, n: string, v: string) {
    n in w.claims && Termination(w.claims[n]) == v
  }

  /** A listing of this world shows the NodeClaim marked and without the annotation. */
  predicate ListedBare(w: World, n: string) {
    Carries(w, n, "") && w.claims[n].deletedAt.Some?
  }

  /** In the course of `es` a write of somebody else gives the NodeClaim the annotation `v`. */
  ghost predicate SetByOthers(s: Sys, es: seq<Event>, n: string, v: string)
    decreases |es|
  {
    es != [] &&
    ((es[0].Env? && !Carries(s.w, n, v) && Carries(Step(s, es[0]).w, n, v))
     || SetByOthers(Step(s, es[0]), es[1..], n, v))
  }

  /** The calls still ahead are calls of the listing. */
  lemma {:induction false} FlightFollowsListing(s: Sys, es: seq<Event>)
    requires s.pc.ClaimLoop? && Flying(s, es)
    ensures Run(s, es).pc.ClaimLoop? && forall t :: t in Run(s, es).pc.claims ==> t in s.pc.claims
    decreases |es|
  {
    if es != [] { FlightFollowsListing(Step(s, es[0]), es[1..]); }
  }

  lemma {:induction false} FlightStaysRemoving(s: Sys, es: seq<Event>)
    requires s.pc.Removing? && Flying(s, es)
    ensures Run(s, es).pc.Removing?
    decreases |es|
  {
    if es != [] { FlightStaysRemoving(Step(s, es[0]), es[1..]); }
  }

  lemma LoopSetsOnlyItsTime(s: Sys, call: Event, n: string, v: string, at: Timestamp)
    requires s.pc.ClaimLoop? && call.Ctl? && v != at && !Carries(s.w, n, v)
    requires forall t :: t in s.pc.claims && t.Annotate? && t.name == n ==> t.at == at
    ensures !Carries(Step(s, call).w, n, v)
  {
    InsideTheLoop(s, call);
  }

  lemma {:induction false} OnlyOthersSetAnotherValue(s: Sys, es: seq<Event>, n: string, v: string, at: Timestamp)
    requires s.pc.ClaimLoop? && Flying(s, es) && v != at && !Carries(s.w, n, v) && Carries(Run(s, es).w, n, v)
    requires forall t :: t in s.pc.claims && t.Annotate? && t.name == n ==> t.at == at
    ensures SetByOthers(s, es, n, v)
    decreases |es|
  {
    if es != [] && !Carries(Step(s, es[0]).w, n, v) {
      OnlyOthersSetAnotherValue(Step(s, es[0]), es[1..], n, v, at);
    } else if es != [] && es[0].Ctl? {
      LoopSetsOnlyItsTime(s, es[0], n, v, at);
    }
  }

  /**
   Over every course of a reconcile after its listing of the NodeClaims: when the loop comes to a NodeClaim that carries
   the annotation `v`, its call replaces `v` exactly when the listing showed the NodeClaim without the annotation, a
   write of somebody else has set `v` since then, and `v` is not the deletion time that the listing showed.
   */
  lemma RewritesExactlyWhenListedBare(s0: Sys, list: Event, es: seq<Event>, call: Event, n: string, v: string)
    requires s0.pc.ListClaims? && list.Ctl? && list.fault.NoFault? && IsListing(list.order, s0.w.claims.Keys)
    requires Flying(Step(s0, list), es) && call.Ctl? && !call.fault.Refused?
    requires var s := Run(Step(s0, list), es);
      Turn(s.pc, n) && v != "" && Carries(s.w, n, v) && n in Step(s, call).w.claims
    ensures var s1 := Step(s0, list);
      !Carries(Step(Run(s1, es), call).w, n, v) <==>
        ListedBare(s0.w, n) && s0.w.claims[n].deletedAt.value != v && SetByOthers(s1, es, n, v)
  {
    var s1 := Step(s0, list);
    var s := Run(s1, es);
    var todo := TodosIn(s0.w.claims, list.order);
    EmptyListing(list.order, s0.w.claims.Keys);
    if s1.pc.Removing? {
      FlightStaysRemoving(s1, es);
      return;
    }
    FlightFollowsListing(s1, es);
    var next := s.pc.claims[0];
    assert next in todo && TodoFor(n, s0.w.claims[n]) == [next];
    CallRewrites(s, call, n);
    if next.Annotate? && next.at != v { OnlyOthersSetAnotherValue(s1, es, n, v, next.at); }
  }

  lemma LoopAnnotates(s: Sys, todo: Todo, now: Timestamp, n: string)
    requires n in s.w.claims && n in LoopResult(s, todo, now).claims
    ensures Termination(LoopResult(s, todo, now).claims[n]) ==
      if todo.Annotate? && todo.name == n then todo.at else Termination(s.w.claims[n])
  {
  }

  /**
   Over every course of a reconcile after its listing: a call that changes the annotation of a NodeClaim gives it the
   deletion time that the listing showed, and only if the listing showed no annotation.
   */
  lemma AnnotationIsTheListedTime(s0: Sys, list: Event, es: seq<Event>, call: Event, n: string)
    requires s0.pc.ListClaims? && list.Ctl? && list.fault.NoFault? && IsListing(list.order, s0.w.claims.Keys)
    requires Flying(Step(s0, list), es) && call.Ctl?
    requires var s := Run(Step(s0, list), es); n in s.w.claims && n in Step(s, call).w.claims
    ensures var s := Run(Step(s0, list), es);
      var before := Termination(s.w.claims[n]); var after := Termination(Step(s, call).w.claims[n]);
      after != before ==> ListedBare(s0.w, n) && after == s0.w.claims[n].deletedAt.value
  {
    var s1 := Step(s0, list);
    var s := Run(s1, es);
    EmptyListing(list.order, s0.w.claims.Keys);
    if s1.pc.Removing? {
      FlightStaysRemoving(s1, es);
      OutsideTheLoop(s, call);
    } else {
      FlightFollowsListing(s1, es);
      InsideTheLoop(s, call);
      if s.pc.claims != [] && !call.fault.Refused? {
        var next := s.pc.claims[0];
        assert next in TodosIn(s0.w.claims, list.order) && TodoFor(next.name, s0.w.claims[next.name]) == [next];
        LoopAnnotates(s, next, call.now, n);
      }
    }
  }

  /** While the controller is the only writer of termination annotations, it never rewrites one. */
  lemma AnnotationIsNeverRewritten(s0: Sys, es: seq<Event>, call: Event, n: string)
    requires s0.pc.Idle? && QuietRun(s0, es) && call.Ctl?
    requires var s := Run(s0, es); n in s.w.claims && n in Step(s, call).w.claims
    ensures var s := Run(s0, es);
      Termination(s.w.claims[n]) != "" ==> Termination(Step(s, call).w.claims[n]) == Termination(s.w.claims[n])
  {
    RunKeepsPending(s0, es);
    var s := Run(s0, es);
    if Termination(s.w.claims[n]) != "" { CallRewrites(s, call, n); }
  }

  /**
   With another writer it can: the patch carries no lock, so an annotation set between the listing and the
   patch is replaced by the deletion timestamp.
   */
  lemma AnnotationRace() returns (s0: Sys, es: seq<Event>, call: Event, n: string)
    ensures s0.pc.Idle? && call.Ctl?
    ensures var s := Run(s0, es);
      && n in s.w.claims && n in Step(s, call).w.claims
      && Termination(s.w.claims[n]) == "later" && Termination(Step(s, call).w.claims[n]) == "now"
  {
    n := "c";
    var hcp := Hcp(0, true, [KARPENTER_FINALIZER], "", 0);
    var bare := Claim(Some("now"), true, map[]);
    var w := World(1, Some(hcp), map[], map[], map[n := bare]);
    call := Ctl(NoFault, [], "t");
    var list := Ctl(NoFault, [n], "t");
    var later := map[TERMINATION_ANNOTATION := "later"];
    assert IsListing([n], w.claims.Keys);
    assert TodosIn(w.claims, [n]) == [Annotate(n, "now")];
    var loop := Sys(w, ClaimLoop(hcp, [Annotate(n, "now")]));
    var raced := loop.(w := w.(claims := w.claims[n := bare.(annotations := later)]));
    RunFirstTo(loop, Env(ClaimAnnotate(n, later)), raced, []);
    es := [Env(ClaimAnnotate(n, later))] + [];
    RunFirstTo(Sys(w, ListClaims(hcp)), list, loop, es);
    es := ReachesClaims(w, hcp, call, [list] + es);
    s0 := Sys(w, Idle(true));
    assert Run(raced, []) == raced;
  }
}
