/** The deletion protocol over many reconciles: it runs out of work, and in the end the finalizer goes. */
module DeletionTermination {
  import opened Wrappers
  import opened Finalizers
  import opened Deletion
  import opened DeletionProgress
  import opened Listings

  /** One reconcile with what others do meanwhile, and what others do until the next one. */
  datatype Round = Round(pass: seq<Event>, gap: seq<Event>)

  ghost function After(s: Sys, r: Round): Sys {
    Run(Run(s, r.pass), r.gap)
  }

  ghost function AfterAll(s: Sys, rounds: seq<Round>): Sys
    decreases |rounds|
  {
    if rounds == [] then s else AfterAll(After(s, rounds[0]), rounds[1..])
  }

  /** The reconcile ends without an error and is not told that the cluster stays, and nobody creates work. */
  ghost predicate Smooth(s: Sys, r: Round) {
    && Pass(s, r.pass) && CalmRun(s, r.pass) && !Declined(s, r.pass) && Run(s, r.pass).pc == Idle(true)
    && OnlyOthers(r.gap) && CalmRun(Run(s, r.pass), r.gap)
  }

  ghost predicate AllSmooth(s: Sys, rounds: seq<Round>)
    decreases |rounds|
  {
    rounds == [] || (Smooth(s, rounds[0]) && AllSmooth(After(s, rounds[0]), rounds[1..]))
  }

  lemma ShrinkingIsTransitive(a: World, b: World, c: World)
    requires Shrinks(a, b) && Shrinks(b, c)
    ensures Shrinks(a, c)
  {
  }

  lemma RoundShrinks(s: Sys, r: Round)
    requires Smooth(s, r)
    ensures Shrinks(s.w, After(s, r).w)
    ensures Measure(After(s, r).w) < Measure(s.w) || Waiting(s.w)
  {
    StepShrinks(s, r.pass[0]);
    FlightProgresses(s.w, Step(s, r.pass[0]), r.pass[1..]);
    PassLowersMeasure(s, r.pass);
    OthersShrink(Run(s, r.pass), r.gap);
    ShrinkingIsTransitive(s.w, Run(s, r.pass).w, After(s, r).w);
    ShrinkingLowersMeasure(Run(s, r.pass).w, After(s, r).w);
  }

  /**
   The controller runs out of work: among more smooth reconciles than there is work, one begins with nothing left for
   the controller to write.
   */
  lemma {:induction false} WorkRunsOut(s: Sys, rounds: seq<Round>) returns (k: nat)
    requires AllSmooth(s, rounds) && |rounds| > Measure(s.w)
    ensures k < |rounds| && Waiting(AfterAll(s, rounds[..k]).w)
    decreases |rounds|
  {
    k := 0;
    assert rounds[..0] == [];
    if !Waiting(s.w) {
      RoundShrinks(s, rounds[0]);
      var rest := WorkRunsOut(After(s, rounds[0]), rounds[1..]);
      k := rest + 1;
      assert rounds[..k][1..] == rounds[1..][..rest];
    }
  }

  /******* The end *******/

  /** The HCP, while it exists, has its own deletion timestamp. */
  predicate Ending(w: World) {
    w.hcp.Some? ==> w.hcp.value.deleting
  }

  lemma ActKeepsEnding(s: Sys, order: seq<string>, now: Timestamp)
    requires Ending(s.w)
    ensures Ending(Act(s, order, now).w)
  {
  }

  lemma StepKeepsEnding(s: Sys, e: Event)
    requires Ending(s.w) && Calm(s.w, e)
    ensures Ending(Step(s, e).w)
  {
    if e.Ctl? { ActKeepsEnding(s, e.order, e.now); }
  }

  lemma {:induction false} RunKeepsEnding(s: Sys, es: seq<Event>)
    requires Ending(s.w) && CalmRun(s, es)
    ensures Ending(Run(s, es).w)
    decreases |es|
  {
    if es != [] {
      StepKeepsEnding(s, es[0]);
      RunKeepsEnding(Step(s, es[0]), es[1..]);
    }
  }

  /** Others let something go of what the controller waits for. */
  ghost predicate Generous(s: Sys, r: Round) {
    Waiting(s.w) && (s.w.pools != map[] || s.w.claims != map[]) ==>
      After(s, r).w.pools.Keys != s.w.pools.Keys || After(s, r).w.claims.Keys != s.w.claims.Keys
  }

  ghost predicate AllGenerous(s: Sys, rounds: seq<Round>)
    decreases |rounds|
  {
    rounds == [] || (Generous(s, rounds[0]) && AllGenerous(After(s, rounds[0]), rounds[1..]))
  }

  lemma EndingRoundLowersMeasure(s: Sys, r: Round)
    requires Smooth(s, r) && Generous(s, r) && Ending(s.w) && Guarded(s.w)
    ensures Measure(After(s, r).w) < Measure(s.w) && Ending(After(s, r).w)
  {
    RoundShrinks(s, r);
    RunKeepsEnding(s, r.pass);
    RunKeepsEnding(Run(s, r.pass), r.gap);
    ShrinkingLowersMeasure(s.w, After(s, r).w);
  }

  lemma {:induction false} ReleasedStaysReleased(s: Sys, rounds: seq<Round>)
    requires AllSmooth(s, rounds) && !Guarded(s.w)
    ensures !Guarded(AfterAll(s, rounds).w)
    decreases |rounds|
  {
    if rounds != [] {
      RoundShrinks(s, rounds[0]);
      ReleasedStaysReleased(After(s, rounds[0]), rounds[1..]);
    }
  }

  /**
   The termination theorem: once the HCP has its own deletion timestamp, and as long as others let go what the
   controller waits for, more smooth reconciles than there is work take the finalizer away.
   */
  lemma {:induction false} FinalizerGoes(s: Sys, rounds: seq<Round>)
    requires Ending(s.w) && AllSmooth(s, rounds) && AllGenerous(s, rounds) && |rounds| > Measure(s.w)
    ensures !Guarded(AfterAll(s, rounds).w)
    decreases |rounds|
  {
    if !Guarded(s.w) {
      ReleasedStaysReleased(s, rounds);
    } else {
      EndingRoundLowersMeasure(s, rounds[0]);
      FinalizerGoes(After(s, rounds[0]), rounds[1..]);
    }
  }

  lemma {:induction false} DeletingFlightIsNotDeclined(s: Sys, es: seq<Event>)
    requires InFlight(s, es) && (s.pc.Decide? ==> s.pc.hcp.deleting)
    ensures !Declined(s, es)
    decreases |es|
  {
    if !s.pc.Idle? { DeletingFlightIsNotDeclined(Step(s, es[0]), es[1..]); }
  }

  /** A reconcile that begins when the HCP has its timestamp is never told that the cluster stays. */
  lemma EndingIsNotDeclined(s: Sys, es: seq<Event>)
    requires Pass(s, es) && Ending(s.w)
    ensures !Declined(s, es)
  {
    DeletingFlightIsNotDeclined(Step(s, es[0]), es[1..]);
  }
}
