/** Why the EC2 protocol needs a fresh read where the Azure one does not. */
module MirrorStaleReads {
  import opened Wrappers
  import opened Finalizers
  import opened Mirror

  /** Caches that only move forward, however far they lag. */
  ghost predicate LaggingRun(s: Sys, es: seq<Event>)
    decreases |es|
  {
    es == [] || (Admissible(s, es[0]) && LaggingRun(Step(s, es[0]), es[1..]))
  }

  lemma First(s: Sys, e: Event, t: Sys, es: seq<Event>)
    requires Step(s, e) == t && Admissible(s, e) && LaggingRun(t, es)
    ensures Run(s, [e] + es) == Run(t, es) && LaggingRun(s, [e] + es)
  {
    assert ([e] + es)[1..] == es;
  }

  /** For Azure every lagging run is good enough. */
  lemma {:induction false} AzureToleratesLag(s: Sys, es: seq<Event>)
    requires Inv(s) && s.cloud.Azure? && LaggingRun(s, es)
    ensures Inv(Run(s, es))
    decreases |es|
  {
    if es != [] {
      StepKeepsInv(s, es[0]);
      StepKeepsCloud(s, es[0]);
      AzureToleratesLag(Step(s, es[0]), es[1..]);
    }
  }

  /**
   For EC2 it is not: the cache that has not seen the EC2NodeClass created one reconcile earlier lets the next one
   release the finalizer, and the EC2NodeClass stays without its owner.
   */
  lemma EC2OrphansUnderLag() returns (s0: Sys, es: seq<Event>)
    ensures Init(s0) && s0.cloud.EC2? && LaggingRun(s0, es)
    ensures var w := Run(s0, es).w;
      LiveOwner(w).None? && LiveDerived(w).Some? && LiveDerived(w).value.controller == Some(0)
  {
    var owner := Owner(0, 0, false, [FinalizerOf(EC2)], [], 0);
    var call, refused := Ctl(NoFault, 7, 0), Ctl(Refused, 0, 0);
    var delete, sync := Env(OwnerDelete), Sync(1, 0);
    s0 := Sys(EC2, World(1, [Some(owner)], 0, [None], 0, []), Idle, Waiting);
    var s1 := s0.(pc := Fetch(0, owner));
    var s2 := s0.(pc := Write(0, owner, 0));
    var derived := Derived(1, Some(0), false, false, [], 7);
    var w3 := PushDerived(s0.w, Some(derived));
    var s3 := s0.(w := w3, pc := Status(0, owner, derived));
    var s4 := s3.(pc := Idle);
    var deleting := owner.(rv := 2, deleting := true);
    var w5 := PushOwner(w3, owner.(deleting := true));
    var s5 := s4.(w := w5);
    var s6 := s5.(w := w5.(ownerSeen := 1));
    var s7 := s6.(pc := Check(1, deleting));
    var s8 := s6.(pc := Release(1, deleting));
    assert RemoveFinalizer([FinalizerOf(EC2)], FinalizerOf(EC2)) == [];
    var s9 := s6.(w := PushOwner(s6.w, deleting.(finalizers := [])));
    assert Run(s9, []) == s9;
    First(s8, call, s9, []);
    es := [call] + [];
    First(s7, call, s8, es);
    es := [call] + es;
    First(s6, call, s7, es);
    es := [call] + es;
    First(s5, sync, s6, es);
    es := [sync] + es;
    First(s4, delete, s5, es);
    es := [delete] + es;
    First(s3, refused, s4, es);
    es := [refused] + es;
    First(s2, call, s3, es);
    es := [call] + es;
    First(s1, call, s2, es);
    es := [call] + es;
    First(s0, call, s1, es);
    es := [call] + es;
  }

  /**
   Exactly when the release of an EC2 owner orphans its EC2NodeClass: in every state of the protocol in which the Get
   reports that there is none, the release that follows keeps the mirror exactly when the report is true, or the
   release does not happen because the owner has no finalizer or has changed since it was read.
   */
  lemma ReleaseIsSafeIffCheckIsTrue(s: Sys, check: Event, release: Event)
    requires Inv(s) && s.cloud.EC2? && TakesForGone(s, check) && release.Ctl? && release.fault.NoFault?
    ensures Mirrored(EC2, Step(Step(s, check), release).w) <==>
      || FreshCheck(s, check)
      || EC2Finalizer !in s.pc.read.finalizers || LiveOwner(s.w) != Some(s.pc.read)
  {
    var read := s.pc.read;
    var t := Step(s, check);
    if EC2Finalizer in read.finalizers {
      assert t == s.(pc := Release(s.pc.at, read));
      if PatchOwner(s.w, read, Released(s, read)).Some? { LockMeansLatest(s.w, s.pc.at, read); }
    }
  }
}
