/** What the recorded histories of the mirror keep on every run, with no assumption on caches or on anybody. */
module MirrorHistory {
  import opened Wrappers
  import opened Finalizers
  import opened Mirror

  /** Versions grow, deletion is permanent, and a reconcile in flight knows a version that was stored. */
  ghost predicate Recorded(s: Sys) {
    && Shaped(s.w) && OwnersOk(s.w) && DerivedsOk(s.w)
    && (!s.pc.Idle? ==> s.pc.at < |s.w.owners| && s.w.owners[s.pc.at] == Some(s.pc.read))
    && (s.pc.AddFin? || s.pc.Fetch? || s.pc.Write? || s.pc.Status? ==> !s.pc.read.deleting)
  }

  lemma InitIsRecorded(s: Sys)
    requires Init(s)
    ensures Recorded(s)
  {
  }

  lemma StoringAnOwner(s: Sys, owner: Owner)
    requires Recorded(s) && Next(s.w, owner)
    ensures Recorded(s.(w := PushOwner(s.w, owner)))
    ensures Recorded(s.(w := PushOwner(s.w, owner), pc := Idle))
  {
    PushOwnerKeepsHistory(s.w, owner);
  }

  lemma StoringADerived(s: Sys, derived: Option<Derived>)
    requires Recorded(s)
    ensures Recorded(s.(w := PushDerived(s.w, derived)))
    ensures Recorded(s.(w := PushDerived(s.w, derived), pc := Idle))
  {
    var w, w' := s.w, PushDerived(s.w, derived);
    assert forall i :: 0 <= i < |w.deriveds| ==> w'.deriveds[i] == w.deriveds[i];
  }

  lemma DeletingTheDerived(s: Sys)
    requires Recorded(s) && DeleteDerived(s.w).Some?
    ensures Recorded(s.(w := DeleteDerived(s.w).value))
  {
    var live := LiveDerived(s.w).value;
    StoringADerived(s, None);
    StoringADerived(s, Some(live.(marked := true)));
  }

  lemma OwnerMoveIsRecorded(s: Sys, m: Move)
    requires Recorded(s) && (m.OwnerCreate? || m.OwnerWrite? || m.OwnerDelete?)
    ensures Recorded(s.(w := Apply(s.w, m)))
  {
    var w, owner := s.w, LiveOwner(s.w);
    match m
    case OwnerCreate(finalizers, rest) =>
      if owner.None? { StoringAnOwner(s, Owner(w.clock, 0, false, finalizers, [], rest)); }
    case OwnerWrite(finalizers, rest) =>
      if owner.Some? { StoringAnOwner(s, owner.value.(finalizers := finalizers, rest := rest)); }
    case OwnerDelete =>
      if owner.Some? && !owner.value.deleting { StoringAnOwner(s, owner.value.(deleting := true)); }
  }

  lemma DerivedMoveIsRecorded(s: Sys, m: Move)
    requires Recorded(s) && (m.DerivedCreate? || m.DerivedWrite? || m.DerivedDelete? || m.DerivedRelease?)
    ensures Recorded(s.(w := Apply(s.w, m)))
  {
    var w, derived := s.w, LiveDerived(s.w);
    match m
    case DerivedCreate(held, rest) =>
      if derived.None? { StoringADerived(s, Some(Derived(0, None, false, held, [], rest))); }
    case DerivedWrite(strip, held, subnets, rest) =>
      if derived.Some? {
        var d := derived.value;
        var controller := if strip then None else d.controller;
        var written := d.(controller := controller, held := d.held || held, subnets := subnets, rest := rest);
        StoringADerived(s, Some(written));
      }
    case DerivedDelete => if DeleteDerived(w).Some? { DeletingTheDerived(s); }
    case DerivedRelease =>
      if derived.Some? {
        StoringADerived(s, None);
        StoringADerived(s, Some(derived.value.(held := false)));
      }
  }

  /** A locked patch that keeps what is permanent of the version read. */
  lemma PatchIsRecorded(s: Sys, patched: Owner)
    requires Recorded(s) && !s.pc.Idle? && PatchOwner(s.w, s.pc.read, patched).Some?
    requires patched.uid == s.pc.read.uid
    requires s.pc.read.deleting ==> patched.deleting && patched.subnets == s.pc.read.subnets
    ensures LiveOwner(s.w) == Some(s.pc.read)
    ensures Recorded(s.(w := PushOwner(s.w, patched), pc := Idle))
  {
    LockMeansLatest(s.w, s.pc.at, s.pc.read);
    StoringAnOwner(s, patched);
  }

  lemma AddingIsRecorded(s: Sys)
    requires Recorded(s) && s.pc.AddFin?
    ensures Recorded(PatchInFinalizer(s, s.pc.read))
  {
    if Added(s, s.pc.read).Some? {
      PatchIsRecorded(s, s.pc.read.(finalizers := AddFinalizer(s.pc.read.finalizers, FinalizerOf(s.cloud))));
    }
  }

  lemma WritingIsRecorded(s: Sys, spec: int)
    requires Recorded(s) && s.pc.Write? && s.pc.cached < |s.w.deriveds|
    ensures Recorded(CreateOrUpdate(s, s.pc.at, s.pc.read, s.w.deriveds[s.pc.cached], spec))
  {
    var read, cached := s.pc.read, s.w.deriveds[s.pc.cached];
    if WriteDerived(s.w, cached, read.uid, spec).Some? {
      if cached.None? {
        StoringADerived(s, Some(Derived(0, Some(read.uid), false, false, [], spec)));
      } else {
        StoringADerived(s, Some(LiveDerived(s.w).value.(controller := Some(read.uid), rest := spec)));
      }
    }
  }

  lemma PatchingStatusIsRecorded(s: Sys, status: int)
    requires Recorded(s) && s.pc.Status?
    ensures Recorded(PatchStatus(s, s.pc.read, s.pc.derived, status))
  {
    var read := s.pc.read;
    var subnets := if s.cloud.EC2? then s.pc.derived.subnets else read.subnets;
    if PatchOwner(s.w, read, read.(subnets := subnets, rest := status)).Some? {
      PatchIsRecorded(s, read.(subnets := subnets, rest := status));
    }
  }

  lemma ReleasingIsRecorded(s: Sys)
    requires Recorded(s) && s.pc.Release?
    ensures Recorded(Done(s, PatchOwner(s.w, s.pc.read, Released(s, s.pc.read))))
  {
    if PatchOwner(s.w, s.pc.read, Released(s, s.pc.read)).Some? { PatchIsRecorded(s, Released(s, s.pc.read)); }
  }

  lemma DeletingIsRecorded(s: Sys)
    requires Recorded(s) && s.pc.Delete?
    ensures Recorded(DeleteCall(s, s.pc.at, s.pc.read))
  {
    if DeleteDerived(s.w).Some? { DeletingTheDerived(s); }
  }

  lemma ActIsRecorded(s: Sys, spec: int, status: int)
    requires Recorded(s)
    ensures Recorded(Act(s, spec, status))
  {
    match s.pc
    case AddFin(_, _) => AddingIsRecorded(s);
    case Write(_, _, cached) => if cached < |s.w.deriveds| { WritingIsRecorded(s, spec); }
    case Status(_, _, _) => PatchingStatusIsRecorded(s, status);
    case Delete(_, _) => DeletingIsRecorded(s);
    case Release(_, _) => ReleasingIsRecorded(s);
    case _ =>
  }

  lemma StoppingIsRecorded(s: Sys)
    requires Recorded(s)
    ensures Recorded(s.(pc := Idle))
  {
  }

  lemma CallIsRecorded(s: Sys, e: Event)
    requires Recorded(s) && e.Ctl?
    ensures Recorded(Step(s, e))
  {
    ActIsRecorded(s, e.spec, e.status);
    StoppingIsRecorded(Act(s, e.spec, e.status));
    StoppingIsRecorded(s);
  }

  lemma StepIsRecorded(s: Sys, e: Event)
    requires Recorded(s)
    ensures Recorded(Step(s, e))
  {
    if e.Ctl? {
      CallIsRecorded(s, e);
    } else if e.Env? {
      if e.move.OwnerCreate? || e.move.OwnerWrite? || e.move.OwnerDelete? {
        OwnerMoveIsRecorded(s, e.move);
      } else {
        DerivedMoveIsRecorded(s, e.move);
      }
    }
  }

  lemma {:induction false} RunIsRecorded(s: Sys, es: seq<Event>)
    requires Recorded(s)
    ensures Recorded(Run(s, es))
    decreases |es|
  {
    if es != [] {
      StepIsRecorded(s, es[0]);
      RunIsRecorded(Step(s, es[0]), es[1..]);
    }
  }

  lemma AcceptedWrite(s: Sys, spec: int)
    requires Recorded(s) && s.pc.Write? && s.pc.cached < |s.w.deriveds|
    requires WriteDerived(s.w, s.w.deriveds[s.pc.cached], s.pc.read.uid, spec).Some?
    ensures s.w.deriveds[s.pc.cached] == LiveDerived(s.w)
  {
    if s.w.deriveds[s.pc.cached].Some? { LockMeansLatestDerived(s.w, s.pc.cached); }
  }

  /**
   What a write of the derived object was computed from: over every run, a write that is accepted was computed from
   the version that is stored when it arrives, however old the cache was that the version came from.
   */
  lemma AcceptedWriteUsedTheStored(s0: Sys, es: seq<Event>, spec: int)
    requires Init(s0)
    requires var s := Run(s0, es);
      s.pc.Write? && s.pc.cached < |s.w.deriveds| &&
      WriteDerived(s.w, s.w.deriveds[s.pc.cached], s.pc.read.uid, spec).Some?
    ensures var s := Run(s0, es); s.w.deriveds[s.pc.cached] == LiveDerived(s.w)
  {
    InitIsRecorded(s0);
    RunIsRecorded(s0, es);
    AcceptedWrite(Run(s0, es), spec);
  }

  /**
   Over every run, whatever caches and others do: only a Delete touches a derived object that another owner controls;
   the NodeClass controller never writes it or takes it over.
   */
  lemma ForeignObjectsStay(s0: Sys, es: seq<Event>, call: Event)
    requires Init(s0) && call.Ctl?
    requires var s := Run(s0, es);
      && !s.pc.Idle? && !s.pc.Delete?
      && LiveDerived(s.w).Some? && LiveDerived(s.w).value.controller.Some?
      && LiveDerived(s.w).value.controller != Some(s.pc.read.uid)
    ensures Step(Run(s0, es), call).w.deriveds == Run(s0, es).w.deriveds
  {
    InitIsRecorded(s0);
    RunIsRecorded(s0, es);
    var s := Run(s0, es);
    if s.pc.Write? && s.pc.cached < |s.w.deriveds| {
      var cached := s.w.deriveds[s.pc.cached];
      if WriteDerived(s.w, cached, s.pc.read.uid, call.spec).Some? { AcceptedWrite(s, call.spec); }
    }
  }
}
