/**
 The NodeClass reconcilers of both clouds in the form of their sources, against API servers and caches that move
 between any two calls. Everything a reconciler does in its life is shown to be a run of the machine in module Mirror,
 so what is proved about the runs holds of this code.
 */
module NodeClassControllers {
  import opened Wrappers
  import opened Finalizers
  import opened Mirror
  import opened MirrorHistory

  /** What others do: a write, or the caches catching up. */
  datatype Other = Write(move: Move) | CatchUp(owner: nat, derived: nat)

  /** What happens around one call. */
  datatype Beat = Beat(others: seq<Other>, fault: Fault)

  function EventOf(o: Other): Event {
    match o
    case Write(move) => Env(move)
    case CatchUp(owner, derived) => Sync(owner, derived)
  }

  function ApplyOther(w: World, o: Other): World {
    match o
    case Write(move) => Mirror.Apply(w, move)
    case CatchUp(owner, derived) =>
      w.(ownerSeen := if w.ownerSeen <= owner < |w.owners| then owner else w.ownerSeen,
         derivedSeen := if w.derivedSeen <= derived < |w.deriveds| then derived else w.derivedSeen)
  }

  lemma OthersOnlyAddHistory(w: World, o: Other)
    requires Shaped(w)
    ensures Shaped(ApplyOther(w, o)) && w.deriveds <= ApplyOther(w, o).deriveds
  {
  }

  lemma OtherIsStep(s: Sys, o: Other)
    requires Shaped(s.w)
    ensures Step(s, EventOf(o)) == s.(w := ApplyOther(s.w, o)) && !EventOf(o).Ctl?
  {
  }

  lemma {:induction false} RunAppend(s: Sys, es: seq<Event>, e: Event)
    ensures Run(s, es + [e]) == Step(Run(s, es), e)
    decreases |es|
  {
    if es == [] {
      assert Run(Step(s, e), []) == Step(s, e);
    } else {
      assert (es + [e])[1..] == es[1..] + [e];
      RunAppend(Step(s, es[0]), es[1..], e);
    }
  }

  /******* One whole reconcile *******/

  /**
   How far a reconcile has come in a run: its first call is still ahead, it is under way, the machine says that it is
   over, or it broke off where the machine would go on.
   */
  datatype Phase = Ahead | Going | Over | Broken

  /** The call brings back an answer; that the server lacks the kind is one for the Get before the release. */
  predicate Heard(pc: Pc, fault: Fault) {
    fault.NoFault? || (fault.NoMatch? && pc.Check?)
  }

  /** The write of the call takes effect. */
  predicate Lands(fault: Fault) {
    fault.NoFault? || fault.Unreported?
  }

  ghost function NextPhase(phase: Phase, s: Sys, e: Event): Phase {
    if !e.Ctl? then phase
    else if !Heard(s.pc, e.fault) || phase.Over? || phase.Broken? then Broken
    else if Step(s, e).pc.Idle? then Over
    else Going
  }

  lemma CallAdvances(phase: Phase, s: Sys, e: Event)
    requires e.Ctl? && Heard(s.pc, e.fault) && (phase.Ahead? || phase.Going?)
    ensures NextPhase(phase, s, e) == if Step(s, e).pc.Idle? then Over else Going
  {
  }

  /** The phase of the reconcile whose events begin at `mark`. */
  ghost function PhaseOf(s: Sys, es: seq<Event>, mark: nat): Phase
    decreases |es|
  {
    if |es| <= mark then Ahead
    else
      var n := |es| - 1;
      NextPhase(PhaseOf(s, es[..n], mark), Run(s, es[..n]), es[n])
  }

  lemma PhaseGrows(s: Sys, es: seq<Event>, mark: nat, e: Event)
    requires mark <= |es|
    ensures PhaseOf(s, es + [e], mark) == NextPhase(PhaseOf(s, es, mark), Run(s, es), e)
  {
    assert (es + [e])[..|es|] == es;
  }

  /** The status that the last call of a run carries. */
  ghost function LastStatus(es: seq<Event>): Option<int> {
    if es != [] && es[|es| - 1].Ctl? then Some(es[|es| - 1].status) else None
  }

  /** None of the calls fails for reasons of its own; conflicts still happen. */
  predicate Calm(beats: seq<Beat>) {
    forall b :: b in beats ==> b.fault.NoFault?
  }

  /** Nothing happens around the calls, and none of them fails. */
  predicate Quiet(beats: seq<Beat>) {
    forall b :: b in beats ==> b.others == [] && b.fault.NoFault?
  }

  /** The outcome of looking up something that the reconcile only needs to exist. */
  datatype Lookup = Found | NotFound | Failed

  datatype Outcome = Done | Again | Error

  /** The computed spec, None when the release cannot be resolved, and the computed conditions. */
  type Desired = (Owner, Option<Derived>) -> Option<int>
  type Conditions = (Owner, Derived) -> int

  /** Nothing but a conflict can keep the reconcile from its end. */
  ghost predicate Untroubled(beats: seq<Beat>, secret: Lookup, desired: Desired) {
    Calm(beats) && secret.Found? && Resolvable(desired)
  }

  ghost predicate Resolvable(desired: Desired) {
    forall owner, derived :: desired(owner, derived).Some?
  }

  /** The caches show what is stored. */
  predicate UpToDate(w: World) {
    Shaped(w) && w.ownerSeen == |w.owners| - 1 && w.derivedSeen == |w.deriveds| - 1
  }

  /** There is an owner that stays. */
  predicate Staying(w: World) {
    LiveOwner(w).Some? && !LiveOwner(w).value.deleting
  }

  /** There is an owner that stays, and no other owner controls the derived object. */
  predicate Claimable(w: World) {
    Staying(w) && MayControl(LiveOwner(w).value, LiveDerived(w))
  }

  predicate MayControl(owner: Owner, derived: Option<Derived>) {
    derived.None? || derived.value.controller.None? || derived.value.controller == Some(owner.uid)
  }

  /** `stored` is the owner with the finalizer behind all that it had, and otherwise as it was. */
  predicate With(owner: Owner, f: Finalizer, stored: Owner) {
    stored.(rv := owner.rv) ==
      if f in owner.finalizers then owner else owner.(finalizers := owner.finalizers + [f])
  }

  /** `stored` has the computed status: the conditions, and for EC2 the subnets of the derived object. */
  predicate Reports(cloud: Cloud, owner: Owner, derived: Derived, conditions: Conditions, stored: Owner) {
    stored.(rv := owner.rv) ==
      owner.(subnets := if cloud.EC2? then derived.subnets else owner.subnets, rest := conditions(owner, derived))
  }

  /** The owner `o` controls a derived object whose spec is the one desired of it, and the owner reports on that. */
  predicate Derives(o: Owner, before: World, after: World, cloud: Cloud, desired: Desired, conditions: Conditions) {
    && LiveDerived(after).Some? && LiveDerived(after).value.controller == Some(o.uid)
    && desired(o, LiveDerived(before)) == Some(LiveDerived(after).value.rest)
    && LiveOwner(after).Some? && Reports(cloud, o, LiveDerived(after).value, conditions, LiveOwner(after).value)
  }

  /** The owner of `before` has its finalizer, controls the derived object desired of it, and reports on that. */
  ghost predicate Converged(
      f: Finalizer, before: World, after: World, cloud: Cloud, desired: Desired, conditions: Conditions)
    requires LiveOwner(before).Some?
  {
    exists o :: With(LiveOwner(before).value, f, o) && Derives(o, before, after, cloud, desired, conditions)
  }

  /** The owner has lost the finalizer and no other one; without others it is gone. */
  predicate LetGo(f: Finalizer, owner: Owner, after: World) {
    if forall g :: g in owner.finalizers ==> g == f then LiveOwner(after).None?
    else
      && LiveOwner(after).Some?
      && LiveOwner(after).value.(rv := owner.rv) == owner.(finalizers := RemoveFinalizer(owner.finalizers, f))
  }

  /** The derived object is gone, or marked if something holds it. */
  predicate Dismissed(derived: Derived, after: World) {
    if !derived.held then LiveDerived(after).None?
    else LiveDerived(after).Some? && LiveDerived(after).value.(rv := derived.rv) == derived.(marked := true)
  }

  /** An owner that is being deleted dismisses its derived object, and is let go when there is none. */
  predicate Ended(f: Finalizer, before: World, after: World)
    requires LiveOwner(before).Some?
  {
    var owner := LiveOwner(before).value;
    match LiveDerived(before)
    case None => if f in owner.finalizers then LetGo(f, owner, after) else after == before
    case Some(d) => (d.marked ==> d.held) ==> after.owners == before.owners && Dismissed(d, after)
  }

  /** The answer to a Delete, and what it does. */
  predicate Answered(before: World, found: bool, after: World) {
    match LiveDerived(before)
    case None => !found && after == before
    case Some(d) => found && after.owners == before.owners && Dismissed(d, after)
  }

  /** There is an owner that is being deleted. */
  predicate Ending(w: World) {
    LiveOwner(w).Some? && LiveOwner(w).value.deleting
  }

  /**
   What an undisturbed EC2 reconcile asks for: to be called again while a derived object is to go or the Secret is to
   come, and with an error if the Secret cannot be read or another owner controls the derived object.
   */
  function OutcomeFor(w: World, secret: Lookup): Outcome {
    if LiveOwner(w).None? then Outcome.Done
    else if LiveOwner(w).value.deleting then if LiveDerived(w).Some? then Again else Outcome.Done
    else
      match secret
      case Failed => Error
      case NotFound => Again
      case Found => if MayControl(LiveOwner(w).value, LiveDerived(w)) then Outcome.Done else Error
  }

  /** Where the machine is after a reconcile has read the owner. */
  function Begun(cloud: Cloud, at: nat, read: Owner): Pc {
    if read.deleting then (if cloud.EC2? then Check(at, read) else Delete(at, read))
    else if FinalizerOf(cloud) in read.finalizers then Fetch(at, read)
    else AddFin(at, read)
  }

  function AfterGone(cloud: Cloud, at: nat, read: Owner): Pc {
    if FinalizerOf(cloud) in read.finalizers then Release(at, read) else Idle
  }

  predicate SameDerived(before: World, after: World) {
    after.deriveds == before.deriveds && after.derivedSeen == before.derivedSeen
  }

  /** CreateOrUpdate has something to write, and may write it. */
  predicate Differs(read: Owner, cached: Option<Derived>, spec: int) {
    || cached.None? || cached.value.controller.None?
    || (cached.value.controller == Some(read.uid) && cached.value.rest != spec)
  }

  /** `stored` was just written in the place of `current`, which was the stored version until then. */
  ghost predicate Replaces(deriveds: seq<Option<Derived>>, current: Option<Derived>, stored: Derived) {
    |deriveds| >= 2 && deriveds[|deriveds| - 1] == Some(stored) && deriveds[|deriveds| - 2] == current
  }

  /** The lock of a recorded run: a write that is accepted replaces the version it was computed from. */
  lemma WriteReplaces(start: Sys, es: seq<Event>, s: Sys, cached: Option<Derived>, spec: int)
    requires Run(start, es) == s && Shaped(s.w) && s.pc.Write?
    requires s.pc.cached < |s.w.deriveds| && s.w.deriveds[s.pc.cached] == cached
    ensures var written := WriteDerived(s.w, cached, s.pc.read.uid, spec);
      Recorded(start) && written.Some? ==>
        Replaces(written.value.deriveds, cached, LiveDerived(written.value).value)
        && LiveDerived(written.value).value.rest == spec
  {
    if Recorded(start) && WriteDerived(s.w, cached, s.pc.read.uid, spec).Some? {
      RunIsRecorded(start, es);
      AcceptedWrite(s, spec);
    }
  }

  class Reconciler {
    const cloud: Cloud
    var world: World
    var beats: seq<Beat>

    // The machine's view: its program counter, its first state and all events since; the events of the current
    // reconcile begin at `mark`.
    ghost var pc: Pc
    ghost var start: Sys
    ghost var events: seq<Event>
    ghost var mark: nat
    ghost var phase: Phase
    ghost var stopped: Pc  // where the reconcile broke off, if it did

    ghost function State(): Sys
      reads this
    {
      Sys(cloud, world, pc, start.subnetPc)
    }

    ghost predicate Valid()
      reads this
    {
      && Shaped(world) && Run(start, events) == State()
      && mark <= |events| && phase == PhaseOf(start, events, mark)
    }

    /** The reconcile has done what the machine does, up to here. */
    ghost predicate InStep()
      reads this
    {
      phase == if pc.Idle? then Over else Going
    }

    constructor (cloud: Cloud, world: World, beats: seq<Beat>)
      requires Shaped(world)
      ensures Valid() && this.cloud == cloud && this.world == world && pc == Idle && events == []
    {
      this.cloud, this.world, this.beats := cloud, world, beats;
      pc, start, events, mark, phase, stopped := Idle, Sys(cloud, world, Idle, Waiting), [], 0, Ahead, Idle;
    }

    /** Records one step; `before` is the state in which it was made. */
    ghost method Record(before: Sys, e: Event)
      requires Shaped(world) && Run(start, events) == before && State() == Step(before, e)
      requires mark <= |events| && phase == PhaseOf(start, events, mark)
      modifies `events, `phase
      ensures Valid() && events == old(events) + [e] && phase == NextPhase(old(phase), before, e)
    {
      RunAppend(start, events, e);
      PhaseGrows(start, events, mark, e);
      phase := NextPhase(phase, before, e);
      events := events + [e];
    }

    /** Records a call of the reconcile under way. */
    ghost method RecordCall(before: Sys, e: Event)
      requires Shaped(world) && Run(start, events) == before && State() == Step(before, e) && e.Ctl?
      requires mark <= |events| && phase == PhaseOf(start, events, mark) && (phase.Ahead? || phase.Going?)
      modifies `events, `phase
      ensures Valid() && events == old(events) + [e] && (Heard(before.pc, e.fault) ==> InStep())
    {
      if Heard(before.pc, e.fault) { CallAdvances(phase, before, e); }
      Record(before, e);
    }

    method Move(o: Other)
      requires Valid()
      modifies `world, `events, `phase
      ensures Valid() && old(events) <= events && old(world.deriveds) <= world.deriveds && phase == old(phase)
    {
      ghost var before := State();
      OthersOnlyAddHistory(world, o);
      OtherIsStep(before, o);
      world := ApplyOther(world, o);
      Record(before, EventOf(o));
    }

    method Moves(others: seq<Other>)
      requires Valid()
      modifies `world, `events, `phase
      ensures Valid() && old(events) <= events && old(world.deriveds) <= world.deriveds && phase == old(phase)
      ensures others == [] ==> world == old(world)
      decreases |others|
    {
      for i := 0 to |others|
        invariant Valid() && old(events) <= events && old(world.deriveds) <= world.deriveds && phase == old(phase)
        invariant others == [] ==> world == old(world)
      {
        Move(others[i]);
      }
    }

    /** What others do before the next call arrives, and how that call fails. */
    method Others() returns (fault: Fault)
      requires Valid()
      modifies `world, `beats, `events, `phase
      ensures Valid() && old(events) <= events && old(world.deriveds) <= world.deriveds && phase == old(phase)
      ensures Calm(old(beats)) ==> fault.NoFault? && Calm(beats)
      ensures Quiet(old(beats)) ==> fault.NoFault? && Quiet(beats) && world == old(world)
    {
      if beats == [] { return NoFault; }
      var others := beats[0].others;
      fault := beats[0].fault;
      beats := beats[1..];
      Moves(others);
    }

    ghost method Begin()
      requires Valid()
      modifies `mark, `phase, `stopped
      ensures Valid() && mark == |events| && phase.Ahead?
    {
      mark, phase, stopped := |events|, Ahead, Idle;
    }

    /******* API calls *******/

    method GetOwner() returns (owner: Option<Owner>, err: bool, ghost at: nat)
      requires Valid() && pc == Idle && phase.Ahead?
      modifies this
      ensures Valid() && start == old(start) && old(events) <= events && mark == old(mark)
      ensures (Calm(old(beats)) ==> Calm(beats)) && (!err || Calm(old(beats)) ==> InStep())
      ensures pc == if !err && owner.Some? then Begun(cloud, at, owner.value) else Idle
      ensures Quiet(old(beats)) ==>
        Quiet(beats) && !err && world == old(world) && owner == world.owners[world.ownerSeen]
    {
      var fault := Others();
      ghost var before := State();
      at := world.ownerSeen;
      owner, err := world.owners[world.ownerSeen], !fault.NoFault?;
      pc := Step(before, Ctl(fault, 0, 0)).pc;
      RecordCall(before, Ctl(fault, 0, 0));
    }

    /** Sends the whole finalizer list with the version that was read; returns the version that is stored now. */
    method PatchFinalizerIn(ghost at: nat, read: Owner, finalizers: seq<Finalizer>)
        returns (patched: Owner, err: bool, ghost now: nat)
      requires Valid() && phase.Going? && pc == AddFin(at, read) && !read.deleting
      requires finalizers == AddFinalizer(read.finalizers, FinalizerOf(cloud))
      modifies this
      ensures Valid() && start == old(start) && old(events) <= events && mark == old(mark)
      ensures (Calm(old(beats)) ==> Calm(beats)) && (!err || Calm(old(beats)) ==> InStep())
      ensures pc == if err then Idle else Fetch(now, patched)
      ensures patched.(rv := read.rv) == read.(finalizers := finalizers)
      ensures Quiet(old(beats)) && LiveOwner(old(world)) == Some(read) ==>
        Quiet(beats) && !err && SameDerived(old(world), world) && LiveOwner(world) == Some(patched)
    {
      var fault := Others();
      patched, err, now := FinalizerArrives(fault, at, read, finalizers);
    }

    method FinalizerArrives(fault: Fault, ghost at: nat, read: Owner, finalizers: seq<Finalizer>)
        returns (patched: Owner, err: bool, ghost now: nat)
      requires Valid() && phase.Going? && pc == AddFin(at, read) && !read.deleting
      requires finalizers == AddFinalizer(read.finalizers, FinalizerOf(cloud))
      modifies `world, `pc, `events, `phase
      ensures Valid() && old(events) <= events && (fault.NoFault? ==> InStep()) && (err || fault.NoFault?)
      ensures pc == if err then Idle else Fetch(now, patched)
      ensures patched.(rv := read.rv) == read.(finalizers := finalizers) && SameDerived(old(world), world)
      ensures fault.NoFault? && LiveOwner(old(world)) == Some(read) ==> !err && LiveOwner(world) == Some(patched)
    {
      ghost var before := State();
      var written := PatchOwner(world, read, read.(finalizers := finalizers));
      err := !fault.NoFault? || written.None?;
      patched := read.(finalizers := finalizers, rv := world.clock);
      if Lands(fault) && written.Some? { world := written.value; }
      now := |world.owners| - 1;
      pc := Step(before, Ctl(fault, 0, 0)).pc;
      RecordCall(before, Ctl(fault, 0, 0));
    }

    method PatchFinalizerOut(ghost at: nat, read: Owner, finalizers: seq<Finalizer>) returns (err: bool)
      requires Valid() && phase.Going? && pc == Release(at, read)
      requires finalizers == RemoveFinalizer(read.finalizers, FinalizerOf(cloud))
      modifies this
      ensures Valid() && start == old(start) && old(events) <= events && mark == old(mark)
      ensures (Calm(old(beats)) ==> Calm(beats)) && (!err || Calm(old(beats)) ==> InStep()) && pc == Idle
      ensures Quiet(old(beats)) && LiveOwner(old(world)) == Some(read) && read.deleting ==>
        !err && LetGo(FinalizerOf(cloud), read, world)
    {
      var fault := Others();
      err := ReleaseArrives(fault, at, read, finalizers);
    }

    method ReleaseArrives(fault: Fault, ghost at: nat, read: Owner, finalizers: seq<Finalizer>) returns (err: bool)
      requires Valid() && phase.Going? && pc == Release(at, read)
      requires finalizers == RemoveFinalizer(read.finalizers, FinalizerOf(cloud))
      modifies `world, `pc, `events, `phase
      ensures Valid() && old(events) <= events && (fault.NoFault? ==> InStep()) && (err || fault.NoFault?) && pc == Idle
      ensures fault.NoFault? && LiveOwner(old(world)) == Some(read) && read.deleting ==>
        !err && LetGo(FinalizerOf(cloud), read, world)
    {
      RemovesAllIffAlone(read.finalizers, FinalizerOf(cloud));
      ghost var before := State();
      var written := PatchOwner(world, read, read.(finalizers := finalizers));
      err := !fault.NoFault? || written.None?;
      if Lands(fault) && written.Some? { world := written.value; }
      pc := Idle;
      RecordCall(before, Ctl(fault, 0, 0));
    }

    /** The Get of deleteIfNeeded: a server without the kind has no such object. */
    method CheckDerivedCall(ghost at: nat, ghost read: Owner) returns (derived: Option<Derived>, err: bool)
      requires Valid() && phase.Going? && cloud == EC2 && pc == Check(at, read)
      modifies this
      ensures Valid() && start == old(start) && old(events) <= events && mark == old(mark)
      ensures (Calm(old(beats)) ==> Calm(beats)) && (!err || Calm(old(beats)) ==> InStep())
      ensures err ==> pc == Idle
      ensures !err ==> pc == if derived.None? then AfterGone(cloud, at, read)
                             else if derived.value.marked then Idle else Delete(at, read)
      ensures Quiet(old(beats)) ==>
        Quiet(beats) && !err && world == old(world) && derived == world.deriveds[world.derivedSeen]
    {
      var fault := Others();
      ghost var before := State();
      derived, err := world.deriveds[world.derivedSeen], !fault.NoFault?;
      if fault.NoMatch? { derived, err := None, false; }
      pc := Step(before, Ctl(fault, 0, 0)).pc;
      RecordCall(before, Ctl(fault, 0, 0));
    }

    /** The Get of CreateOrUpdate. */
    method GetDerived(ghost at: nat, ghost read: Owner) returns (derived: Option<Derived>, err: bool, ghost i: nat)
      requires Valid() && phase.Going? && pc == Fetch(at, read)
      modifies this
      ensures Valid() && start == old(start) && old(events) <= events && mark == old(mark)
      ensures (Calm(old(beats)) ==> Calm(beats)) && (!err || Calm(old(beats)) ==> InStep())
      ensures i < |world.deriveds| && world.deriveds[i] == derived
      ensures pc == if err then Idle else Mirror.Pc.Write(at, read, i)
      ensures Quiet(old(beats)) ==> Quiet(beats) && !err && world == old(world) && i == world.derivedSeen
    {
      var fault := Others();
      ghost var before := State();
      i := world.derivedSeen;
      derived, err := world.deriveds[world.derivedSeen], !fault.NoFault?;
      pc := Step(before, Ctl(fault, 0, 0)).pc;
      RecordCall(before, Ctl(fault, 0, 0));
    }

    method DeleteDerivedCall(ghost at: nat, ghost read: Owner) returns (found: bool, err: bool)
      requires Valid() && phase.Going? && pc == Delete(at, read)
      modifies this
      ensures Valid() && start == old(start) && old(events) <= events && mark == old(mark)
      ensures (Calm(old(beats)) ==> Calm(beats)) && (!err || Calm(old(beats)) ==> InStep())
      ensures pc == if err || found then Idle else AfterGone(cloud, at, read)
      ensures Quiet(old(beats)) ==> Quiet(beats) && !err && Answered(old(world), found, world)
    {
      var fault := Others();
      ghost var before := State();
      var deleted := DeleteDerived(world);
      found, err := deleted.Some?, !fault.NoFault?;
      if Lands(fault) && deleted.Some? { world := deleted.value; }
      pc := Step(before, Ctl(fault, 0, 0)).pc;
      RecordCall(before, Ctl(fault, 0, 0));
    }

    /** The reconcile ends without another call. */
    ghost method Stop()
      requires Valid()
      modifies `pc, `events, `phase, `stopped
      ensures Valid() && old(events) <= events && pc == Idle && phase == Broken && stopped == old(pc)
    {
      ghost var before := State();
      stopped := pc;
      pc := Idle;
      Record(before, Ctl(Refused, 0, 0));
    }

    /** A step of the machine that needs no call. */
    ghost method Skip(spec: int, status: int)
      requires Valid() && phase.Going? && (pc.Write? || pc.Status?)
      requires Step(State(), Ctl(NoFault, spec, status)) == State().(pc := Idle)
      modifies `pc, `events, `phase
      ensures Valid() && old(events) <= events && pc == Idle && InStep()
      ensures |old(events)| < |events| && LastStatus(events) == Some(status)
    {
      ghost var before := State();
      pc := Idle;
      Record(before, Ctl(NoFault, spec, status));
    }

    /** CreateOrUpdate finds the object as desired and makes no call. */
    ghost method Keep(at: nat, read: Owner, cached: Derived, spec: int, i: nat)
      requires Valid() && phase.Going? && pc == Mirror.Pc.Write(at, read, i)
      requires i < |world.deriveds| && world.deriveds[i] == Some(cached)
      requires cached.controller == Some(read.uid) && cached.rest == spec
      modifies `pc, `events, `phase
      ensures Valid() && old(events) <= events && pc == Status(at, read, cached) && InStep()
    {
      ghost var before := State();
      pc := Status(at, read, cached);
      RecordCall(before, Ctl(NoFault, spec, 0));
    }

    /** The Create or Update that follows the Get. */
    method WriteDerivedCall(ghost at: nat, read: Owner, cached: Option<Derived>, spec: int, ghost i: nat)
        returns (stored: Derived, err: bool)
      requires Valid() && phase.Going? && pc == Mirror.Pc.Write(at, read, i)
      requires i < |world.deriveds| && world.deriveds[i] == cached && Differs(read, cached, spec)
      modifies this
      ensures Valid() && start == old(start) && old(events) <= events && mark == old(mark)
      ensures (Calm(old(beats)) ==> Calm(beats)) && (!err || Calm(old(beats)) ==> InStep())
      ensures pc == if err then Idle else Status(at, read, stored)
      ensures !err && Recorded(start) ==> Replaces(world.deriveds, cached, stored) && stored.rest == spec
      ensures Quiet(old(beats)) && LiveDerived(old(world)) == cached ==>
        Quiet(beats) && !err && world.owners == old(world).owners
      ensures !err ==> LiveDerived(world) == Some(stored) && stored.controller == Some(read.uid) && stored.rest == spec
    {
      var fault := Others();
      stored, err := WriteArrives(fault, at, read, cached, spec, i);
    }

    method WriteArrives(fault: Fault, ghost at: nat, read: Owner, cached: Option<Derived>, spec: int, ghost i: nat)
        returns (stored: Derived, err: bool)
      requires Valid() && phase.Going? && pc == Mirror.Pc.Write(at, read, i)
      requires i < |world.deriveds| && world.deriveds[i] == cached && Differs(read, cached, spec)
      modifies `world, `pc, `events, `phase
      ensures Valid() && old(events) <= events && (fault.NoFault? ==> InStep()) && (err || fault.NoFault?)
      ensures pc == if err then Idle else Status(at, read, stored)
      ensures !err && Recorded(start) ==> Replaces(world.deriveds, cached, stored) && stored.rest == spec
      ensures fault.NoFault? && LiveDerived(old(world)) == cached ==> !err && world.owners == old(world).owners
      ensures !err ==> LiveDerived(world) == Some(stored) && stored.controller == Some(read.uid) && stored.rest == spec
    {
      ghost var before := State();
      WriteReplaces(start, events, before, cached, spec);
      stored := Derived(0, Some(read.uid), false, false, [], spec);
      var written := WriteDerived(world, cached, read.uid, spec);
      err := !fault.NoFault? || written.None?;
      if Lands(fault) && written.Some? {
        world := written.value;
        stored := LiveDerived(world).value;
      }
      pc := Step(before, Ctl(fault, spec, 0)).pc;
      RecordCall(before, Ctl(fault, spec, 0));
    }

    method PatchStatusCall(ghost at: nat, read: Owner, ghost derived: Derived, patched: Owner) returns (err: bool)
      requires Valid() && phase.Going? && pc == Status(at, read, derived)
      requires patched == read.(subnets := if cloud.EC2? then derived.subnets else read.subnets, rest := patched.rest)
      requires patched != read
      modifies this
      ensures Valid() && start == old(start) && old(events) <= events && mark == old(mark)
      ensures (Calm(old(beats)) ==> Calm(beats)) && (!err || Calm(old(beats)) ==> InStep()) && pc == Idle
      ensures |old(events)| < |events| && LastStatus(events) == Some(patched.rest)
      ensures Quiet(old(beats)) ==> SameDerived(old(world), world)
      ensures Quiet(old(beats)) && LiveOwner(old(world)) == Some(read) && !read.deleting ==>
        !err && LiveOwner(world).Some? && LiveOwner(world).value.(rv := read.rv) == patched
    {
      var fault := Others();
      err := StatusArrives(fault, at, read, derived, patched);
    }

    method StatusArrives(fault: Fault, ghost at: nat, read: Owner, ghost derived: Derived, patched: Owner)
        returns (err: bool)
      requires Valid() && phase.Going? && pc == Status(at, read, derived)
      requires patched == read.(subnets := if cloud.EC2? then derived.subnets else read.subnets, rest := patched.rest)
      requires patched != read
      modifies `world, `pc, `events, `phase
      ensures Valid() && old(events) <= events && (fault.NoFault? ==> InStep()) && (err || fault.NoFault?) && pc == Idle
      ensures |old(events)| < |events| && LastStatus(events) == Some(patched.rest)
      ensures SameDerived(old(world), world)
      ensures fault.NoFault? && LiveOwner(old(world)) == Some(read) && !read.deleting ==>
        !err && LiveOwner(world).Some? && LiveOwner(world).value.(rv := read.rv) == patched
    {
      ghost var before := State();
      var written := PatchOwner(world, read, patched);
      err := !fault.NoFault? || written.None?;
      if Lands(fault) && written.Some? { world := written.value; }
      pc := Idle;
      RecordCall(before, Ctl(fault, 0, patched.rest));
    }

    /******* Methods of both reconcilers *******/

    /**
     The spec is computed from the version of the derived object that the write replaces: what the cache showed is what
     is stored when the write arrives. Without a write, what the cache showed has the spec computed from it already.
     */
    method CreateOrUpdate(ghost at: nat, read: Owner, desired: Desired) returns (derived: Derived, err: bool)
      requires Valid() && phase.Going? && pc == Fetch(at, read)
      modifies this
      ensures Valid() && start == old(start) && old(events) <= events && mark == old(mark)
      ensures Calm(old(beats)) ==> Calm(beats)
      ensures !err || (Calm(old(beats)) && Resolvable(desired)) ==> InStep()
      ensures pc == if err then Idle else Status(at, read, derived)
      ensures !err && Recorded(start) ==>
        exists current :: desired(read, current) == Some(derived.rest)
                          && (current == Some(derived) || Replaces(world.deriveds, current, derived))
      ensures Quiet(old(beats)) && Resolvable(desired) && old(world).derivedSeen == |old(world).deriveds| - 1
              && MayControl(read, LiveDerived(old(world))) ==>
        && Quiet(beats) && !err && LiveDerived(world) == Some(derived) && derived.controller == Some(read.uid)
        && world.owners == old(world).owners
        && desired(read, LiveDerived(old(world))) == Some(derived.rest)
      ensures Quiet(old(beats)) && old(world).derivedSeen == |old(world).deriveds| - 1
              && !MayControl(read, LiveDerived(old(world))) ==>
        err && SameDerived(old(world), world)
    {
      derived := Derived(0, None, false, false, [], 0);
      var cached, getErr, i := GetDerived(at, read);
      if getErr { return derived, true; }
      var spec := desired(read, cached);
      if spec.None? {
        Stop();
        return derived, true;
      }
      if cached.Some? && cached.value.controller.Some? && cached.value.controller != Some(read.uid) {
        Skip(spec.value, 0);
        return derived, true;
      }
      if cached.Some? && cached.value.controller.Some? && cached.value.rest == spec.value {
        Keep(at, read, cached.value, spec.value, i);
        return cached.value, false;
      }
      derived, err := WriteDerivedCall(at, read, cached, spec.value, i);
    }

    method ReconcileStatus(ghost at: nat, read: Owner, derived: Derived, conditions: Conditions) returns (err: bool)
      requires Valid() && phase.Going? && pc == Status(at, read, derived)
      modifies this
      ensures Valid() && start == old(start) && old(events) <= events && mark == old(mark)
      ensures (Calm(old(beats)) ==> Calm(beats)) && (!err || Calm(old(beats)) ==> InStep()) && pc == Idle
      ensures |old(events)| < |events| && LastStatus(events) == Some(conditions(read, derived))
      ensures Quiet(old(beats)) ==> SameDerived(old(world), world)
      ensures Quiet(old(beats)) && LiveOwner(old(world)) == Some(read) && !read.deleting ==>
        !err && LiveOwner(world).Some? && Reports(cloud, read, derived, conditions, LiveOwner(world).value)
    {
      var patched := read.(rest := conditions(read, derived));
      if cloud.EC2? { patched := patched.(subnets := derived.subnets); }
      if patched == read {
        Skip(0, patched.rest);
        return false;
      }
      err := PatchStatusCall(at, read, derived, patched);
    }

    method Apply(ghost at: nat, read: Owner, desired: Desired, conditions: Conditions) returns (err: bool)
      requires Valid() && phase.Going? && pc == Fetch(at, read)
      modifies this
      ensures Valid() && start == old(start) && old(events) <= events && mark == old(mark) && pc == Idle
      ensures !err || (Calm(old(beats)) && Resolvable(desired)) ==> InStep()
      ensures Quiet(old(beats)) && Resolvable(desired) && old(world).derivedSeen == |old(world).deriveds| - 1
              && MayControl(read, LiveDerived(old(world))) && LiveOwner(old(world)) == Some(read) && !read.deleting ==>
        !err && Derives(read, old(world), world, cloud, desired, conditions)
      ensures Quiet(old(beats)) && old(world).derivedSeen == |old(world).deriveds| - 1
              && !MayControl(read, LiveDerived(old(world))) ==>
        err && SameDerived(old(world), world)
    {
      var derived, writeErr := CreateOrUpdate(at, read, desired);
      if writeErr { return true; }
      err := ReconcileStatus(at, read, derived, conditions);
    }

    method EnsureFinalizer(ghost at: nat, read: Owner) returns (owner: Owner, err: bool, ghost now: nat)
      requires Valid() && phase.Going? && !read.deleting && pc == Begun(cloud, at, read)
      modifies this
      ensures Valid() && start == old(start) && old(events) <= events && mark == old(mark)
      ensures (Calm(old(beats)) ==> Calm(beats)) && (!err || Calm(old(beats)) ==> InStep())
      ensures pc == if err then Idle else Fetch(now, owner)
      ensures !owner.deleting && FinalizerOf(cloud) in owner.finalizers
      ensures owner.(rv := read.rv, finalizers := read.finalizers) == read
      ensures Quiet(old(beats)) && LiveOwner(old(world)) == Some(read) ==>
        && Quiet(beats) && !err && SameDerived(old(world), world)
        && LiveOwner(world) == Some(owner) && With(read, FinalizerOf(cloud), owner)
    {
      owner, now := read, at;
      if FinalizerOf(cloud) in read.finalizers { return owner, false, now; }
      owner, err, now := PatchFinalizerIn(at, read, AddFinalizer(read.finalizers, FinalizerOf(cloud)));
    }

    /** The reconcile broke off when an owner that stays had its finalizer, before its derived object is written. */
    ghost predicate BrokeOffGuarded()
      reads this
    {
      && phase.Broken? && stopped.Fetch?
      && !stopped.read.deleting && FinalizerOf(cloud) in stopped.read.finalizers
    }

    /** An owner that stays: its finalizer, and then its derived object if the inputs for that are there. */
    method ReconcileStaying(ghost at: nat, read: Owner, available: bool, desired: Desired, conditions: Conditions)
        returns (err: bool)
      requires Valid() && phase.Going? && !read.deleting && pc == Begun(cloud, at, read)
      modifies this
      ensures Valid() && start == old(start) && old(events) <= events && mark == old(mark) && pc == Idle
      ensures !err || (Calm(old(beats)) && Resolvable(desired)) ==>
        phase.Over? || (!available && BrokeOffGuarded())
      ensures Quiet(old(beats)) && LiveOwner(old(world)) == Some(read) && !available ==>
        && !err && SameDerived(old(world), world)
        && LiveOwner(world).Some? && With(read, FinalizerOf(cloud), LiveOwner(world).value)
      ensures Quiet(old(beats)) && Resolvable(desired) && available && UpToDate(old(world)) && Claimable(old(world))
              && LiveOwner(old(world)) == Some(read) ==>
        !err && Converged(FinalizerOf(cloud), old(world), world, cloud, desired, conditions)
      ensures Quiet(old(beats)) && available && UpToDate(old(world)) && LiveOwner(old(world)) == Some(read)
              && !MayControl(read, LiveDerived(old(world))) ==>
        err && SameDerived(old(world), world)
    {
      var owner, addErr, now := EnsureFinalizer(at, read);
      if addErr { return true; }
      if !available {
        Stop();
        return false;
      }
      err := Apply(now, owner, desired, conditions);
    }

    method RemoveFinalizerIfPresent(ghost at: nat, read: Owner) returns (err: bool)
      requires Valid() && InStep() && pc == AfterGone(cloud, at, read)
      modifies this
      ensures Valid() && start == old(start) && old(events) <= events && mark == old(mark)
      ensures (Calm(old(beats)) ==> Calm(beats)) && (!err || Calm(old(beats)) ==> InStep()) && pc == Idle
      ensures Quiet(old(beats)) && LiveOwner(old(world)) == Some(read) && read.deleting ==>
        && !err
        && if FinalizerOf(cloud) in read.finalizers then LetGo(FinalizerOf(cloud), read, world) else world == old(world)
    {
      if FinalizerOf(cloud) !in read.finalizers { return false; }
      err := PatchFinalizerOut(at, read, RemoveFinalizer(read.finalizers, FinalizerOf(cloud)));
    }

    /******* EC2 *******/

    /**
     A reconcile that is not held up does all that the machine does from reading the owner to the end. Without a hosted
     control plane it does nothing.
     */
    method ReconcileEC2(hcp: Lookup, e2eOverride: bool, secret: Lookup, desired: Desired, conditions: Conditions)
        returns (outcome: Outcome)
      requires Valid() && pc == Idle && cloud == EC2
      modifies this
      ensures Valid() && start == old(start) && old(events) <= events && pc == Idle && mark == |old(events)|
      ensures !hcp.Found? || e2eOverride ==> world == old(world) && events == old(events)
      ensures !hcp.Found? || e2eOverride ==> outcome == if hcp.Failed? then Error else Done
      ensures hcp.Found? && !e2eOverride && (outcome.Done? || Untroubled(old(beats), secret, desired)) ==> phase.Over?
      ensures hcp.Found? && !e2eOverride && secret.Found? && Resolvable(desired) && Quiet(old(beats))
              && UpToDate(old(world)) && Claimable(old(world)) ==>
        Converged(EC2Finalizer, old(world), world, cloud, desired, conditions)
      ensures hcp.Found? && !e2eOverride && !secret.Found? && Quiet(old(beats)) && UpToDate(old(world))
              && Staying(old(world)) ==>
        LiveOwner(world).Some? && With(LiveOwner(old(world)).value, EC2Finalizer, LiveOwner(world).value)
      ensures hcp.Found? && !e2eOverride && Quiet(old(beats)) && UpToDate(old(world)) && Ending(old(world)) ==>
        Ended(EC2Finalizer, old(world), world)
      ensures hcp.Found? && !e2eOverride && Resolvable(desired) && Quiet(old(beats)) && UpToDate(old(world)) ==>
        && outcome == OutcomeFor(old(world), secret)
        && (Staying(old(world)) && secret.Found? && !Claimable(old(world)) ==> SameDerived(old(world), world))
    {
      Begin();
      if hcp.NotFound? { return Done; }
      if hcp.Failed? { return Error; }
      if e2eOverride { return Done; }
      var read, getErr, at := GetOwner();
      if getErr { return Error; }
      if read.None? { return Done; }
      if read.value.deleting {
        outcome := ReconcileDeleting(at, read.value);
        return;
      }
      var applyErr := ReconcileStaying(at, read.value, secret.Found?, desired, conditions);
      if applyErr || secret.Failed? { return Error; }
      return if secret.NotFound? then Again else Done;
    }

    method ReconcileDeleting(ghost at: nat, read: Owner) returns (outcome: Outcome)
      requires Valid() && phase.Going? && cloud == EC2 && pc == Check(at, read)
      modifies this
      ensures Valid() && start == old(start) && old(events) <= events && mark == old(mark) && pc == Idle
      ensures !outcome.Error? || Calm(old(beats)) ==> InStep()
      ensures Quiet(old(beats)) && UpToDate(old(world)) && LiveOwner(old(world)) == Some(read) && read.deleting ==>
        && Ended(FinalizerOf(cloud), old(world), world)
        && outcome == if LiveDerived(old(world)).Some? then Again else Outcome.Done
    {
      var present, deleteErr := DeleteIfNeeded(at, read);
      if deleteErr { return Error; }
      if present { return Again; }
      var removeErr := RemoveFinalizerIfPresent(at, read);
      return if removeErr then Error else Done;
    }

    method DeleteIfNeeded(ghost at: nat, ghost read: Owner) returns (present: bool, err: bool)
      requires Valid() && phase.Going? && cloud == EC2 && pc == Check(at, read)
      modifies this
      ensures Valid() && start == old(start) && old(events) <= events && mark == old(mark)
      ensures (Calm(old(beats)) ==> Calm(beats)) && (!err || Calm(old(beats)) ==> InStep())
      ensures pc == if err || present then Idle else AfterGone(cloud, at, read)
      ensures Quiet(old(beats)) && UpToDate(old(world)) ==>
        var derived := LiveDerived(old(world));
        && Quiet(beats) && !err && (present <==> derived.Some?)
        && ((derived.Some? && derived.value.marked ==> derived.value.held) ==> Answered(old(world), present, world))
    {
      var derived, getErr := CheckDerivedCall(at, read);
      if getErr { return false, true; }
      if derived.None? { return false, false; }
      if derived.value.marked { return true, false; }
      var found, deleteErr := DeleteDerivedCall(at, read);
      return found, deleteErr;
    }

    /******* Azure *******/

    /**
     As for EC2, but the hosted control plane is looked up only after the finalizer: whatever comes of the lookup, a
     deleting owner is carried to the end, and one that stays has its finalizer before the reconcile breaks off.
     */
    method ReconcileAzure(hcp: Lookup, secret: Lookup, desired: Desired, conditions: Conditions) returns (err: bool)
      requires Valid() && pc == Idle && cloud == Azure
      modifies this
      ensures Valid() && start == old(start) && old(events) <= events && pc == Idle && mark == |old(events)|
      ensures hcp.Found? && ((!err && secret.Found?) || Untroubled(old(beats), secret, desired)) ==> phase.Over?
      ensures !err || (Calm(old(beats)) && Resolvable(desired)) ==> phase.Over? || BrokeOffGuarded()
      ensures !(hcp.Found? && secret.Found?) && Quiet(old(beats)) && UpToDate(old(world)) && Staying(old(world)) ==>
        LiveOwner(world).Some? && With(LiveOwner(old(world)).value, AzureFinalizer, LiveOwner(world).value)
      ensures hcp.Found? && secret.Found? && Resolvable(desired) && Quiet(old(beats))
              && UpToDate(old(world)) && Claimable(old(world)) ==>
        Converged(AzureFinalizer, old(world), world, cloud, desired, conditions)
      ensures Quiet(old(beats)) && UpToDate(old(world)) && Ending(old(world)) ==>
        Ended(AzureFinalizer, old(world), world)
      ensures Resolvable(desired) && Quiet(old(beats)) && UpToDate(old(world)) ==>
        (err <==> Staying(old(world)) && (hcp.Failed? ||
                    (hcp.Found? && (secret.Failed? || (secret.Found? && !Claimable(old(world)))))))
      ensures Quiet(old(beats)) && UpToDate(old(world)) && Staying(old(world)) && !Claimable(old(world)) ==>
        SameDerived(old(world), world)
    {
      Begin();
      var read, getErr, at := GetOwner();
      if getErr || read.None? { return getErr; }
      if read.value.deleting {
        err := ReconcileDelete(at, read.value);
        return;
      }
      err := ReconcileStaying(at, read.value, hcp.Found? && secret.Found?, desired, conditions);
      return err || hcp.Failed? || (hcp.Found? && secret.Failed?);
    }

    method ReconcileDelete(ghost at: nat, read: Owner) returns (err: bool)
      requires Valid() && phase.Going? && cloud == Azure && pc == Delete(at, read)
      modifies this
      ensures Valid() && start == old(start) && old(events) <= events && mark == old(mark)
      ensures (Calm(old(beats)) ==> Calm(beats)) && (!err || Calm(old(beats)) ==> InStep()) && pc == Idle
      ensures Quiet(old(beats)) && LiveOwner(old(world)) == Some(read) && read.deleting ==>
        !err && Ended(FinalizerOf(cloud), old(world), world)
    {
      var found, deleteErr := DeleteDerivedCall(at, read);
      if deleteErr || found { return deleteErr; }
      err := RemoveFinalizerIfPresent(at, read);
    }
  }

  /**
   The safety of the code: whatever a reconciler has done so far, a derived object with a controlling owner has that
   very owner, with the finalizer, if the others behaved as module Mirror assumes.
   */
  lemma CodeKeepsMirror(r: Reconciler)
    requires r.Valid() && Init(r.start) && AdmissibleRun(r.start, r.events)
    ensures Mirrored(r.cloud, r.world)
  {
    DerivedHasItsOwner(r.start, r.events);
    RunKeepsCloud(r.start, r.events);
  }
}
