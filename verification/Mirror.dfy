/**
 The NodeClass protocols of both clouds for one name: an owner (OpenshiftEC2NodeClass or OpenShiftAzureNodeClass) is
 mirrored into a derived object (EC2NodeClass or AKSNodeClass). `Ctl` events are single API calls of the NodeClass
 controller, `ListSubnets` and `WriteSubnets` those of the subnet controller, `Sync` events move the informer caches
 forward, and `Env` events are writes of everybody else.
 */
module Mirror {
  import opened Wrappers
  import opened Finalizers
  import opened Subnets

  datatype Cloud = EC2 | Azure

  function FinalizerOf(cloud: Cloud): Finalizer {
    if cloud.EC2? then EC2Finalizer else AzureFinalizer
  }

  /******* The store *******/

  datatype Owner = Owner(
    uid: nat, rv: nat, deleting: bool, finalizers: seq<Finalizer>, subnets: seq<Subnet>, rest: int)

  /** `controller` is the uid in the controller reference; `held` is Karpenter's termination finalizer. */
  datatype Derived = Derived(
    rv: nat, controller: Option<nat>, marked: bool, held: bool, subnets: seq<Subnet>, rest: int)

  /** Each object is its whole history; a cache has seen a prefix of it that only grows. */
  datatype World = World(
    clock: nat,
    owners: seq<Option<Owner>>, ownerSeen: nat,
    deriveds: seq<Option<Derived>>, derivedSeen: nat,
    configMap: seq<string>)

  predicate Shaped(w: World) {
    w.ownerSeen < |w.owners| && w.derivedSeen < |w.deriveds|
  }

  function LiveOwner(w: World): Option<Owner> {
    if w.owners == [] then None else w.owners[|w.owners| - 1]
  }

  function LiveDerived(w: World): Option<Derived> {
    if w.deriveds == [] then None else w.deriveds[|w.deriveds| - 1]
  }

  /** A deleting owner without finalizers disappears. */
  function PushOwner(w: World, owner: Owner): World {
    var stored := if owner.deleting && owner.finalizers == [] then None else Some(owner.(rv := w.clock));
    w.(clock := w.clock + 1, owners := w.owners + [stored])
  }

  function PushDerived(w: World, derived: Option<Derived>): World {
    var stored := if derived.Some? then Some(derived.value.(rv := w.clock)) else None;
    w.(clock := w.clock + 1, deriveds := w.deriveds + [stored])
  }

  /** A patch with an optimistic lock on the version `read`. */
  function PatchOwner(w: World, read: Owner, patched: Owner): Option<World> {
    var live := LiveOwner(w);
    if live.None? || live.value.rv != read.rv then None else Some(PushOwner(w, patched))
  }

  /** The result is None when the object does not exist. */
  function DeleteDerived(w: World): Option<World> {
    var live := LiveDerived(w);
    if live.None? then None
    else if live.value.held then
      if live.value.marked then Some(w) else Some(PushDerived(w, Some(live.value.(marked := true))))
    else Some(PushDerived(w, None))
  }

  /** Create when the cache showed nothing, Update of the cached version otherwise. */
  function WriteDerived(w: World, cached: Option<Derived>, uid: nat, spec: int): Option<World> {
    var live := LiveDerived(w);
    match cached
    case None =>
      if live.Some? then None else Some(PushDerived(w, Some(Derived(0, Some(uid), false, false, [], spec))))
    case Some(d) =>
      if live.None? || live.value.rv != d.rv then None
      else Some(PushDerived(w, Some(live.value.(controller := Some(uid), rest := spec))))
  }

  /******* Everybody else *******/

  datatype Move =
    | OwnerCreate(finalizers: seq<Finalizer>, rest: int)
    | OwnerWrite(finalizers: seq<Finalizer>, rest: int)
    | OwnerDelete
    | DerivedCreate(held: bool, rest: int)
    | DerivedWrite(strip: bool, held: bool, subnets: seq<Subnet>, rest: int)
    | DerivedDelete
    | DerivedRelease

  function Apply(w: World, m: Move): World {
    var owner, derived := LiveOwner(w), LiveDerived(w);
    match m
    case OwnerCreate(finalizers, rest) =>
      if owner.Some? then w else PushOwner(w, Owner(w.clock, 0, false, finalizers, [], rest))
    case OwnerWrite(finalizers, rest) =>
      if owner.None? then w else PushOwner(w, owner.value.(finalizers := finalizers, rest := rest))
    case OwnerDelete =>
      if owner.None? || owner.value.deleting then w else PushOwner(w, owner.value.(deleting := true))
    case DerivedCreate(held, rest) =>
      if derived.Some? then w else PushDerived(w, Some(Derived(0, None, false, held, [], rest)))
    case DerivedWrite(strip, held, subnets, rest) =>
      if derived.None? then w
      else
        var d := derived.value;
        var controller := if strip then None else d.controller;
        PushDerived(w, Some(d.(controller := controller, held := d.held || held, subnets := subnets, rest := rest)))
    case DerivedDelete =>
      var deleted := DeleteDerived(w);
      if deleted.Some? then deleted.value else w
    case DerivedRelease =>
      if derived.None? then w
      else if derived.value.marked then PushDerived(w, None)
      else PushDerived(w, Some(derived.value.(held := false)))
  }

  /******* The NodeClass controller *******/

  /**
   `at` is the position of the owner version `read` in the owner's history. A reconcile can stop at any call: an
   error, no HostedControlPlane, no user data Secret.
   */
  datatype Pc =
    | Idle
    | AddFin(at: nat, read: Owner)
    | Fetch(at: nat, read: Owner)
    | Write(at: nat, read: Owner, cached: nat)
    | Status(at: nat, read: Owner, derived: Derived)
    | Check(at: nat, read: Owner)
    | Delete(at: nat, read: Owner)
    | Release(at: nat, read: Owner)

  /** The subnet controller between its listing, which saw owner version `at`, and its write. */
  datatype SubnetPc = Waiting | Listed(at: nat, ids: seq<string>)

  datatype Sys = Sys(cloud: Cloud, w: World, pc: Pc, subnetPc: SubnetPc)

  /** A call can fail before or after it takes effect; NoMatch is the answer of a server that lacks the derived kind. */
  datatype Fault = NoFault | Refused | Unreported | NoMatch

  /** `spec` is the computed spec and `status` the computed conditions; `others` are the other NodeClasses. */
  datatype Event =
    | Env(move: Move)
    | Sync(owner: nat, derived: nat)
    | Ctl(fault: Fault, spec: int, status: int)
    | ListSubnets(others: seq<seq<Subnet>>)
    | WriteSubnets(refused: bool)

  /** The owner as the reconcile goes on after it added the finalizer: the version the patch returned. */
  function Added(s: Sys, read: Owner): Option<World> {
    PatchOwner(s.w, read, read.(finalizers := AddFinalizer(read.finalizers, FinalizerOf(s.cloud))))
  }

  function Done(s: Sys, w: Option<World>): Sys {
    s.(w := if w.Some? then w.value else s.w, pc := Idle)
  }

  /** The reconcile goes on to release the finalizer, if there is one, now that the derived object is gone. */
  function Gone(s: Sys, at: nat, read: Owner): Sys {
    s.(pc := if FinalizerOf(s.cloud) in read.finalizers then Release(at, read) else Idle)
  }

  function ReadOwner(s: Sys): Sys
    requires Shaped(s.w)
  {
    var at := s.w.ownerSeen;
    match s.w.owners[at]
    case None => s
    case Some(read) =>
      if read.deleting then s.(pc := if s.cloud.EC2? then Check(at, read) else Delete(at, read))
      else if FinalizerOf(s.cloud) in read.finalizers then s.(pc := Fetch(at, read))
      else s.(pc := AddFin(at, read))
  }

  function PatchInFinalizer(s: Sys, read: Owner): Sys {
    var patched := Added(s, read);
    if patched.None? then s.(pc := Idle)
    else
      var last := |patched.value.owners| - 1;
      match LiveOwner(patched.value)
      case None => s.(w := patched.value, pc := Idle)
      case Some(added) => s.(w := patched.value, pc := Fetch(last, added))
  }

  /** CreateOrUpdate after its Get; it refuses an object that another owner controls. */
  function CreateOrUpdate(s: Sys, at: nat, read: Owner, cached: Option<Derived>, spec: int): Sys {
    if cached.Some? && cached.value.controller.Some? && cached.value.controller != Some(read.uid) then s.(pc := Idle)
    else if cached.Some? && cached.value.controller.Some? && cached.value.rest == spec then
      s.(pc := Status(at, read, cached.value))
    else
      var written := WriteDerived(s.w, cached, read.uid, spec);
      if written.None? then s.(pc := Idle)
      else
        match LiveDerived(written.value)
        case None => s.(w := written.value, pc := Idle)
        case Some(d) => s.(w := written.value, pc := Status(at, read, d))
  }

  function PatchStatus(s: Sys, read: Owner, derived: Derived, status: int): Sys {
    var subnets := if s.cloud.EC2? then derived.subnets else read.subnets;
    if subnets == read.subnets && status == read.rest then s.(pc := Idle)
    else Done(s, PatchOwner(s.w, read, read.(subnets := subnets, rest := status)))
  }

  function CheckDerived(s: Sys, at: nat, read: Owner): Sys
    requires Shaped(s.w)
  {
    match s.w.deriveds[s.w.derivedSeen]
    case None => Gone(s, at, read)
    case Some(d) => s.(pc := if d.marked then Idle else Delete(at, read))
  }

  function DeleteCall(s: Sys, at: nat, read: Owner): Sys {
    var deleted := DeleteDerived(s.w);
    if deleted.None? then Gone(s, at, read) else s.(w := deleted.value, pc := Idle)
  }

  function Released(s: Sys, read: Owner): Owner {
    read.(finalizers := RemoveFinalizer(read.finalizers, FinalizerOf(s.cloud)))
  }

  function Act(s: Sys, spec: int, status: int): Sys
    requires Shaped(s.w)
  {
    match s.pc
    case Idle => ReadOwner(s)
    case AddFin(at, read) => PatchInFinalizer(s, read)
    case Fetch(at, read) => s.(pc := Write(at, read, s.w.derivedSeen))
    case Write(at, read, cached) =>
      if cached >= |s.w.deriveds| then s.(pc := Idle)
      else CreateOrUpdate(s, at, read, s.w.deriveds[cached], spec)
    case Status(at, read, derived) => PatchStatus(s, read, derived, status)
    case Check(at, read) => CheckDerived(s, at, read)
    case Delete(at, read) => DeleteCall(s, at, read)
    case Release(at, read) => Done(s, PatchOwner(s.w, read, Released(s, read)))
  }

  ghost function Step(s: Sys, e: Event): Sys {
    if !Shaped(s.w) then s
    else
      match e
      case Env(move) => s.(w := Apply(s.w, move))
      case Sync(owner, derived) =>
        var o := if s.w.ownerSeen <= owner < |s.w.owners| then owner else s.w.ownerSeen;
        var d := if s.w.derivedSeen <= derived < |s.w.deriveds| then derived else s.w.derivedSeen;
        s.(w := s.w.(ownerSeen := o, derivedSeen := d))
      case Ctl(fault, spec, status) =>
        (match fault
         case NoFault => Act(s, spec, status)
         case Refused => s.(pc := Idle)
         case Unreported => Act(s, spec, status).(pc := Idle)
         case NoMatch => if s.pc.Check? then Gone(s, s.pc.at, s.pc.read) else s.(pc := Idle))
      case ListSubnets(others) =>
        var seen := s.w.owners[s.w.ownerSeen];
        var own := if seen.Some? then [seen.value.subnets] else [];
        s.(subnetPc := Listed(s.w.ownerSeen, Resolved(own + others)))
      case WriteSubnets(refused) =>
        if s.subnetPc.Waiting? then s
        else s.(w := if refused then s.w else s.w.(configMap := s.subnetPc.ids), subnetPc := Waiting)
  }

  ghost function Run(s: Sys, es: seq<Event>): Sys
    decreases |es|
  {
    if es == [] then s else Run(Step(s, es[0]), es[1..])
  }

  /******* Assumptions *******/

  /** Nobody else takes the controller's finalizer off an owner. Creating foreign derived objects is allowed. */
  predicate Admissible(s: Sys, e: Event) {
    e.Env? && e.move.OwnerWrite? && LiveOwner(s.w).Some? && FinalizerOf(s.cloud) in LiveOwner(s.w).value.finalizers ==>
      FinalizerOf(s.cloud) in e.move.finalizers
  }

  /** EC2: the Get before the release reports that there is no derived object. */
  predicate TakesForGone(s: Sys, e: Event) {
    && Shaped(s.w) && s.pc.Check? && e.Ctl?
    && (e.fault.NoMatch? || (e.fault.NoFault? && s.w.deriveds[s.w.derivedSeen].None?))
  }

  /** That report is true as far as it matters: no derived object has a controlling owner. */
  predicate FreshCheck(s: Sys, e: Event) {
    s.cloud.EC2? && TakesForGone(s, e) ==> LiveDerived(s.w).None? || LiveDerived(s.w).value.controller.None?
  }

  ghost predicate AdmissibleRun(s: Sys, es: seq<Event>)
    decreases |es|
  {
    es == [] || (Admissible(s, es[0]) && FreshCheck(s, es[0]) && AdmissibleRun(Step(s, es[0]), es[1..]))
  }

  /**
   The operator starts, for the first time or again: nothing is in flight, and what earlier reconciles have left
   behind is in order.
   */
  predicate Init(s: Sys) {
    && s.pc == Idle && s.subnetPc == Waiting
    && |s.w.owners| == 1 && |s.w.deriveds| == 1 && s.w.ownerSeen == 0 && s.w.derivedSeen == 0
    && (LiveOwner(s.w).Some? ==> LiveOwner(s.w).value.rv < s.w.clock && LiveOwner(s.w).value.uid < s.w.clock)
    && (LiveDerived(s.w).Some? ==> LiveDerived(s.w).value.rv < s.w.clock)
    && Mirrored(s.cloud, s.w)
  }

  /******* Invariants *******/

  /** Versions grow; deletion is permanent and freezes the status subnets. */
  predicate Later(a: Owner, b: Owner) {
    && a.rv < b.rv
    && (a.uid == b.uid && a.deleting ==> b.deleting && a.subnets == b.subnets)
  }

  ghost predicate OwnersOk(w: World) {
    && (forall i :: 0 <= i < |w.owners| && w.owners[i].Some? ==>
          w.owners[i].value.rv < w.clock && w.owners[i].value.uid < w.clock)
    && (forall i, j :: 0 <= i < j < |w.owners| && w.owners[i].Some? && w.owners[j].Some? ==>
          Later(w.owners[i].value, w.owners[j].value))
  }

  ghost predicate DerivedsOk(w: World) {
    && (forall i :: 0 <= i < |w.deriveds| && w.deriveds[i].Some? ==> w.deriveds[i].value.rv < w.clock)
    && (forall i, j :: 0 <= i < j < |w.deriveds| && w.deriveds[i].Some? && w.deriveds[j].Some? ==>
          w.deriveds[i].value.rv < w.deriveds[j].value.rv)
  }

  /** The owner with this uid is stored with the finalizer. */
  predicate Held(cloud: Cloud, w: World, uid: nat) {
    LiveOwner(w).Some? && LiveOwner(w).value.uid == uid && FinalizerOf(cloud) in LiveOwner(w).value.finalizers
  }

  predicate Active(cloud: Cloud, owner: Option<Owner>) {
    owner.Some? && !owner.value.deleting && FinalizerOf(cloud) in owner.value.finalizers
  }

  /** What a cache may still show as active is indeed held, even if it is deleting by now. */
  ghost predicate CacheOk(cloud: Cloud, w: World) {
    forall i :: w.ownerSeen <= i < |w.owners| && Active(cloud, w.owners[i]) ==> Held(cloud, w, w.owners[i].value.uid)
  }

  /** The safety property: a controlled derived object has its owner, held by the finalizer. */
  predicate Mirrored(cloud: Cloud, w: World) {
    LiveDerived(w).Some? && LiveDerived(w).value.controller.Some? ==>
      Held(cloud, w, LiveDerived(w).value.controller.value)
  }

  ghost predicate PcOk(s: Sys) {
    s.pc.Idle? || (
      var w, at, read := s.w, s.pc.at, s.pc.read;
      var finalizer := FinalizerOf(s.cloud);
      && at < |w.owners| && w.owners[at] == Some(read)
      && match s.pc
         case AddFin(_, _) => !read.deleting && finalizer !in read.finalizers
         case Fetch(_, _) => !read.deleting && Held(s.cloud, w, read.uid)
         case Write(_, _, _) => !read.deleting && Held(s.cloud, w, read.uid)
         case Status(_, _, _) => !read.deleting && Held(s.cloud, w, read.uid)
         case Check(_, _) => s.cloud.EC2? && read.deleting && at <= w.ownerSeen
         case Delete(_, _) => read.deleting && at <= w.ownerSeen
         case Release(_, _) =>
           && read.deleting && at <= w.ownerSeen && finalizer in read.finalizers
           && (LiveDerived(w).Some? ==> LiveDerived(w).value.controller.None?))
  }

  ghost predicate Inv(s: Sys) {
    && Shaped(s.w) && OwnersOk(s.w) && DerivedsOk(s.w) && CacheOk(s.cloud, s.w) && Mirrored(s.cloud, s.w)
    && PcOk(s)
  }

  /** `owner` is a next version of the live owner, or a new owner. */
  predicate Next(w: World, owner: Owner) {
    match LiveOwner(w)
    case None => owner.uid == w.clock
    case Some(live) => owner.uid == live.uid && (live.deleting ==> owner.deleting && owner.subnets == live.subnets)
  }

  lemma PushOwnerKeepsHistory(w: World, owner: Owner)
    requires OwnersOk(w) && Next(w, owner) && (LiveOwner(w).None? ==> owner.uid == w.clock)
    ensures OwnersOk(PushOwner(w, owner))
  {
    var n, w' := |w.owners|, PushOwner(w, owner);
    forall i | 0 <= i < n && w'.owners[i].Some? && w'.owners[n].Some?
      ensures Later(w'.owners[i].value, w'.owners[n].value)
    {
      if i < n - 1 && LiveOwner(w).Some? { assert Later(w.owners[i].value, w.owners[n - 1].value); }
    }
  }

  predicate KeepsFinalizer(cloud: Cloud, w: World, owner: Owner) {
    LiveOwner(w).Some? && FinalizerOf(cloud) in LiveOwner(w).value.finalizers ==> FinalizerOf(cloud) in owner.finalizers
  }

  lemma PushOwnerKeepsHeld(cloud: Cloud, w: World, owner: Owner, uid: nat)
    requires Next(w, owner) && KeepsFinalizer(cloud, w, owner) && Held(cloud, w, uid)
    ensures Held(cloud, PushOwner(w, owner), uid)
  {
  }

  lemma PushOwnerKeepsCache(cloud: Cloud, w: World, owner: Owner)
    requires Shaped(w) && CacheOk(cloud, w) && Next(w, owner) && KeepsFinalizer(cloud, w, owner)
    ensures CacheOk(cloud, PushOwner(w, owner))
  {
    var w' := PushOwner(w, owner);
    forall i | w.ownerSeen <= i < |w.owners| && Active(cloud, w.owners[i])
      ensures Held(cloud, w', w.owners[i].value.uid)
    {
      PushOwnerKeepsHeld(cloud, w, owner, w.owners[i].value.uid);
    }
  }

  /** Storing a next version of the owner that keeps the finalizer. */
  lemma PushOwnerKeepsInv(s: Sys, owner: Owner)
    requires Inv(s) && Next(s.w, owner) && KeepsFinalizer(s.cloud, s.w, owner)
    ensures Inv(s.(w := PushOwner(s.w, owner)))
  {
    PushOwnerKeepsHistory(s.w, owner);
    PushOwnerKeepsCache(s.cloud, s.w, owner);
    if LiveDerived(s.w).Some? && LiveDerived(s.w).value.controller.Some? {
      PushOwnerKeepsHeld(s.cloud, s.w, owner, LiveDerived(s.w).value.controller.value);
    }
    if s.pc.Fetch? || s.pc.Write? || s.pc.Status? { PushOwnerKeepsHeld(s.cloud, s.w, owner, s.pc.read.uid); }
  }

  lemma PushDerivedKeepsInv(s: Sys, derived: Option<Derived>)
    requires Inv(s)
    requires derived.Some? && derived.value.controller.Some? ==>
      !s.pc.Release? && Held(s.cloud, s.w, derived.value.controller.value)
    ensures Inv(s.(w := PushDerived(s.w, derived)))
  {
    var w, w' := s.w, PushDerived(s.w, derived);
    assert forall i :: 0 <= i < |w.deriveds| ==> w'.deriveds[i] == w.deriveds[i];
  }

  lemma DeleteDerivedKeepsInv(s: Sys)
    requires Inv(s) && DeleteDerived(s.w).Some?
    ensures Inv(s.(w := DeleteDerived(s.w).value))
  {
    var live := LiveDerived(s.w).value;
    if !live.held { PushDerivedKeepsInv(s, None); }
    else if !live.marked { PushDerivedKeepsInv(s, Some(live.(marked := true))); }
  }

  lemma OwnerMoveKeepsInv(s: Sys, m: Move)
    requires Inv(s) && Admissible(s, Env(m)) && (m.OwnerCreate? || m.OwnerWrite? || m.OwnerDelete?)
    ensures Inv(s.(w := Apply(s.w, m)))
  {
    var w, owner := s.w, LiveOwner(s.w);
    match m
    case OwnerCreate(finalizers, rest) =>
      if owner.None? { PushOwnerKeepsInv(s, Owner(w.clock, 0, false, finalizers, [], rest)); }
    case OwnerWrite(finalizers, rest) =>
      if owner.Some? { PushOwnerKeepsInv(s, owner.value.(finalizers := finalizers, rest := rest)); }
    case OwnerDelete =>
      if owner.Some? && !owner.value.deleting { PushOwnerKeepsInv(s, owner.value.(deleting := true)); }
  }

  lemma DerivedWriteKeepsInv(s: Sys, strip: bool, held: bool, subnets: seq<Subnet>, rest: int)
    requires Inv(s)
    ensures Inv(s.(w := Apply(s.w, DerivedWrite(strip, held, subnets, rest))))
  {
    if LiveDerived(s.w).Some? {
      var d := LiveDerived(s.w).value;
      var controller := if strip then None else d.controller;
      var written := d.(controller := controller, held := d.held || held, subnets := subnets, rest := rest);
      PushDerivedKeepsInv(s, Some(written));
    }
  }

  lemma ApplyKeepsInv(s: Sys, m: Move)
    requires Inv(s) && Admissible(s, Env(m))
    ensures Inv(s.(w := Apply(s.w, m)))
  {
    var w, derived := s.w, LiveDerived(s.w);
    match m
    case DerivedCreate(held, rest) =>
      if derived.None? { PushDerivedKeepsInv(s, Some(Derived(0, None, false, held, [], rest))); }
    case DerivedWrite(strip, held, subnets, rest) => DerivedWriteKeepsInv(s, strip, held, subnets, rest);
    case DerivedDelete => if DeleteDerived(w).Some? { DeleteDerivedKeepsInv(s); }
    case DerivedRelease =>
      if derived.Some? {
        if derived.value.marked { PushDerivedKeepsInv(s, None); }
        else { PushDerivedKeepsInv(s, Some(derived.value.(held := false))); }
      }
    case _ => OwnerMoveKeepsInv(s, m);
  }

  /** An accepted patch was computed from the version that is stored when it arrives. */
  lemma LockMeansLatest(w: World, at: nat, read: Owner)
    requires OwnersOk(w) && at < |w.owners| && w.owners[at] == Some(read)
    requires LiveOwner(w).Some? && LiveOwner(w).value.rv == read.rv
    ensures at == |w.owners| - 1 && LiveOwner(w) == Some(read)
  {
  }

  lemma LockMeansLatestDerived(w: World, at: nat)
    requires DerivedsOk(w) && at < |w.deriveds| && w.deriveds[at].Some?
    requires LiveDerived(w).Some? && LiveDerived(w).value.rv == w.deriveds[at].value.rv
    ensures at == |w.deriveds| - 1
  {
  }

  lemma PatchInFinalizerKeepsInv(s: Sys)
    requires Inv(s) && s.pc.AddFin?
    ensures Inv(PatchInFinalizer(s, s.pc.read))
  {
    var read := s.pc.read;
    if Added(s, read).Some? {
      LockMeansLatest(s.w, s.pc.at, read);
      PushOwnerKeepsInv(s.(pc := Idle), read.(finalizers := AddFinalizer(read.finalizers, FinalizerOf(s.cloud))));
    }
  }

  lemma WriteDerivedKeepsInv(s: Sys, spec: int)
    requires Inv(s) && s.pc.Write? && s.pc.cached < |s.w.deriveds|
    requires WriteDerived(s.w, s.w.deriveds[s.pc.cached], s.pc.read.uid, spec).Some?
    ensures Inv(s.(w := WriteDerived(s.w, s.w.deriveds[s.pc.cached], s.pc.read.uid, spec).value))
  {
    if s.w.deriveds[s.pc.cached].None? {
      PushDerivedKeepsInv(s, Some(Derived(0, Some(s.pc.read.uid), false, false, [], spec)));
    } else {
      PushDerivedKeepsInv(s, Some(LiveDerived(s.w).value.(controller := Some(s.pc.read.uid), rest := spec)));
    }
  }

  lemma CreateOrUpdateKeepsInv(s: Sys, spec: int)
    requires Inv(s) && s.pc.Write? && s.pc.cached < |s.w.deriveds|
    ensures Inv(CreateOrUpdate(s, s.pc.at, s.pc.read, s.w.deriveds[s.pc.cached], spec))
  {
    var written := WriteDerived(s.w, s.w.deriveds[s.pc.cached], s.pc.read.uid, spec);
    if written.Some? {
      WriteDerivedKeepsInv(s, spec);
    }
  }

  lemma PatchStatusKeepsInv(s: Sys, status: int)
    requires Inv(s) && s.pc.Status?
    ensures Inv(PatchStatus(s, s.pc.read, s.pc.derived, status))
  {
    var read := s.pc.read;
    var subnets := if s.cloud.EC2? then s.pc.derived.subnets else read.subnets;
    var patched := read.(subnets := subnets, rest := status);
    if PatchOwner(s.w, read, patched).Some? {
      LockMeansLatest(s.w, s.pc.at, read);
      PushOwnerKeepsInv(s, patched);
    }
  }

  /** The cache has seen the last version, which is deleting, and the next one has no finalizer. */
  lemma ReleaseKeepsCache(cloud: Cloud, w: World, released: Owner)
    requires w.owners != [] && w.ownerSeen >= |w.owners| - 1
    requires LiveOwner(w).Some? && LiveOwner(w).value.deleting && released.deleting
    ensures CacheOk(cloud, PushOwner(w, released))
  {
    var w' := PushOwner(w, released);
    forall i | w'.ownerSeen <= i < |w'.owners| ensures !Active(cloud, w'.owners[i]) {
      if i < |w.owners| { assert w'.owners[i] == LiveOwner(w); }
    }
  }

  /** The only call that takes the finalizer away. */
  lemma ReleaseKeepsInv(s: Sys)
    requires Inv(s) && s.pc.Release? && PatchOwner(s.w, s.pc.read, Released(s, s.pc.read)).Some?
    ensures Inv(s.(w := PushOwner(s.w, Released(s, s.pc.read)), pc := Idle))
  {
    var released := Released(s, s.pc.read);
    LockMeansLatest(s.w, s.pc.at, s.pc.read);
    assert Next(s.w, released);
    PushOwnerKeepsHistory(s.w, released);
    ReleaseKeepsCache(s.cloud, s.w, released);
  }

  lemma ReadOwnerKeepsInv(s: Sys)
    requires Inv(s) && s.pc.Idle?
    ensures Inv(ReadOwner(s))
  {
  }

  lemma FetchKeepsInv(s: Sys)
    requires Inv(s) && s.pc.Fetch?
    ensures Inv(s.(pc := Write(s.pc.at, s.pc.read, s.w.derivedSeen)))
  {
  }

  lemma GoneKeepsInv(s: Sys)
    requires Inv(s) && s.pc.Check?
    requires LiveDerived(s.w).None? || LiveDerived(s.w).value.controller.None?
    ensures Inv(Gone(s, s.pc.at, s.pc.read))
  {
  }

  lemma CheckKeepsInv(s: Sys)
    requires Inv(s) && s.pc.Check? && FreshCheck(s, Ctl(NoFault, 0, 0))
    ensures Inv(CheckDerived(s, s.pc.at, s.pc.read))
  {
    if s.w.deriveds[s.w.derivedSeen].None? { GoneKeepsInv(s); }
  }

  lemma DeleteKeepsInv(s: Sys)
    requires Inv(s) && s.pc.Delete?
    ensures Inv(DeleteCall(s, s.pc.at, s.pc.read))
  {
    if DeleteDerived(s.w).Some? { DeleteDerivedKeepsInv(s.(pc := Idle)); }
  }

  lemma StoppingKeepsInv(s: Sys)
    requires Inv(s)
    ensures Inv(s.(pc := Idle))
  {
  }

  lemma SyncKeepsInv(s: Sys, owner: nat, derived: nat)
    requires Inv(s)
    ensures Inv(Step(s, Sync(owner, derived)))
  {
  }

  lemma ActKeepsInv(s: Sys, spec: int, status: int)
    requires Inv(s) && FreshCheck(s, Ctl(NoFault, spec, status))
    ensures Inv(Act(s, spec, status))
  {
    StoppingKeepsInv(s);
    match s.pc
    case Idle => ReadOwnerKeepsInv(s);
    case AddFin(_, _) => PatchInFinalizerKeepsInv(s);
    case Fetch(_, _) => FetchKeepsInv(s);
    case Write(_, _, cached) => if cached < |s.w.deriveds| { CreateOrUpdateKeepsInv(s, spec); }
    case Status(_, _, _) => PatchStatusKeepsInv(s, status);
    case Check(_, _) => CheckKeepsInv(s);
    case Delete(_, _) => DeleteKeepsInv(s);
    case Release(_, read) => if PatchOwner(s.w, read, Released(s, read)).Some? { ReleaseKeepsInv(s); }
  }

  /** A call that fails after it took effect: at a Check it has none. */
  lemma UnreportedKeepsInv(s: Sys, spec: int, status: int)
    requires Inv(s)
    ensures Inv(Act(s, spec, status).(pc := Idle))
  {
    StoppingKeepsInv(s);
    if !s.pc.Check? {
      ActKeepsInv(s, spec, status);
      StoppingKeepsInv(Act(s, spec, status));
    }
  }

  lemma SubnetsDoNotMatter(s: Sys, s': Sys)
    requires Inv(s) && s'.cloud == s.cloud && s'.pc == s.pc && s'.w.(configMap := s.w.configMap) == s.w
    ensures Inv(s')
  {
  }

  lemma StepKeepsInv(s: Sys, e: Event)
    requires Inv(s) && Admissible(s, e) && FreshCheck(s, e)
    ensures Inv(Step(s, e))
  {
    match e
    case Env(m) => ApplyKeepsInv(s, m);
    case Sync(owner, derived) => SyncKeepsInv(s, owner, derived);
    case Ctl(fault, spec, status) =>
      StoppingKeepsInv(s);
      if fault.NoMatch? && s.pc.Check? { GoneKeepsInv(s); }
      if fault.Unreported? { UnreportedKeepsInv(s, spec, status); }
      if fault.NoFault? { ActKeepsInv(s, spec, status); }
    case ListSubnets(_) => SubnetsDoNotMatter(s, Step(s, e));
    case WriteSubnets(_) => SubnetsDoNotMatter(s, Step(s, e));
  }

  lemma {:induction false} RunKeepsInv(s: Sys, es: seq<Event>)
    requires Inv(s) && AdmissibleRun(s, es)
    ensures Inv(Run(s, es))
    decreases |es|
  {
    if es != [] {
      StepKeepsInv(s, es[0]);
      RunKeepsInv(Step(s, es[0]), es[1..]);
    }
  }

  /**
   Main result for both clouds. In every state of every admissible run, a derived object that an owner controls
   exists only while that very owner is stored with the finalizer. Azure needs nothing of its caches except that
   they move forward; EC2 also needs the read before the release to be fresh.
   */
  lemma DerivedHasItsOwner(s0: Sys, es: seq<Event>)
    requires Init(s0) && AdmissibleRun(s0, es)
    ensures var w := Run(s0, es).w;
      LiveDerived(w).Some? && LiveDerived(w).value.controller.Some? ==>
        Held(s0.cloud, w, LiveDerived(w).value.controller.value)
  {
    RunKeepsInv(s0, es);
    RunKeepsCloud(s0, es);
  }

  lemma ActKeepsCloud(s: Sys, spec: int, status: int)
    requires Shaped(s.w)
    ensures Act(s, spec, status).cloud == s.cloud
  {
  }

  lemma StepKeepsCloud(s: Sys, e: Event)
    ensures Step(s, e).cloud == s.cloud
  {
    if Shaped(s.w) && e.Ctl? { ActKeepsCloud(s, e.spec, e.status); }
  }

  lemma {:induction false} RunKeepsCloud(s: Sys, es: seq<Event>)
    ensures Run(s, es).cloud == s.cloud
    decreases |es|
  {
    if es != [] {
      StepKeepsCloud(s, es[0]);
      RunKeepsCloud(Step(s, es[0]), es[1..]);
    }
  }
}
