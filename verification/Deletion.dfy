/**
 The hosted control plane deletion protocol as a machine. Every `Ctl` event is one API call of the
 deletion controller together with the local computation up to its next call; every `Env` event is one
 write by anybody else. Both kinds interleave freely.
 */
module Deletion {
  import opened Wrappers
  import opened Finalizers
  import opened Listings

  const KARPENTER_FINALIZER := KarpenterFinalizer

  /** The key of an annotation: karpenter.sh/nodeclaim-termination-timestamp, or any other one. */
  datatype Key = TerminationTimestamp | OtherKey(name: string)

  const TERMINATION_ANNOTATION := TerminationTimestamp

  /** The RFC 3339 text of a point in time; it is never empty. */
  type Timestamp = s: string | s != "" witness "t"

  /******* The two API servers *******/

  datatype Hcp = Hcp(rv: nat, deleting: bool, finalizers: seq<Finalizer>, infraID: string, rest: int)

  /** `held` says that somebody's finalizer keeps a marked object from disappearing. */
  datatype Pool = Pool(marked: bool, held: bool)
  datatype Claim = Claim(deletedAt: Option<Timestamp>, held: bool, annotations: map<Key, string>)

  /** `capi` maps the CAPI Clusters that exist to whether they are being deleted. */
  datatype World = World(
    clock: nat,
    hcp: Option<Hcp>,
    capi: map<string, bool>,
    pools: map<string, Pool>,
    claims: map<string, Claim>)

  function Termination(claim: Claim): string {
    if TERMINATION_ANNOTATION in claim.annotations then claim.annotations[TERMINATION_ANNOTATION] else ""
  }

  /** Stores a new version of the HCP; a deleting HCP without finalizers disappears. */
  function StoreHcp(w: World, hcp: Hcp): World {
    if hcp.deleting && hcp.finalizers == [] then w.(clock := w.clock + 1, hcp := None)
    else w.(clock := w.clock + 1, hcp := Some(hcp.(rv := w.clock)))
  }

  /** A merge patch replaces the whole finalizer list; the optimistic lock admits it only on the version read. */
  function PatchFinalizers(w: World, read: Hcp, finalizers: seq<Finalizer>): Result<World, string> {
    if w.hcp.None? then Err("not found")
    else if w.hcp.value.rv != read.rv then Err("conflict")
    else Ok(StoreHcp(w, w.hcp.value.(finalizers := finalizers)))
  }

  function DeletePool(w: World, name: string): Result<World, string> {
    if name !in w.pools then Err("not found")
    else if w.pools[name].held then Ok(w.(pools := w.pools[name := w.pools[name].(marked := true)]))
    else Ok(w.(pools := w.pools - {name}))
  }

  function DeleteClaim(w: World, name: string, now: Timestamp): Result<World, string> {
    if name !in w.claims then Err("not found")
    else if !w.claims[name].held then Ok(w.(claims := w.claims - {name}))
    else if w.claims[name].deletedAt.Some? then Ok(w)
    else Ok(w.(claims := w.claims[name := w.claims[name].(deletedAt := Some(now))]))
  }

  /** A merge patch without a lock: it writes one annotation and leaves the others alone. */
  function AnnotateClaim(w: World, name: string, value: string): Result<World, string> {
    if name !in w.claims then Err("not found")
    else
      var claim := w.claims[name];
      Ok(w.(claims := w.claims[name := claim.(annotations := claim.annotations[TERMINATION_ANNOTATION := value])]))
  }

  /******* Everybody else *******/

  datatype Move =
    | HcpCreate(finalizers: seq<Finalizer>, infraID: string, rest: int)
    | HcpWrite(finalizers: seq<Finalizer>, infraID: string, rest: int)
    | HcpDelete
    | CapiChange(capi: map<string, bool>)
    | PoolCreate(name: string, held: bool)
    | PoolDelete(name: string)
    | PoolRelease(name: string)
    | ClaimCreate(name: string, held: bool, annotations: map<Key, string>)
    | ClaimDelete(name: string, now: Timestamp)
    | ClaimRelease(name: string)
    | ClaimAnnotate(name: string, annotations: map<Key, string>)

  function OrElse(r: Result<World, string>, w: World): World {
    if r.Ok? then r.value else w
  }

  function Apply(w: World, m: Move): World {
    match m
    case HcpCreate(finalizers, infraID, rest) =>
      if w.hcp.Some? then w else StoreHcp(w, Hcp(0, false, finalizers, infraID, rest))
    case HcpWrite(finalizers, infraID, rest) =>
      if w.hcp.None? then w
      else StoreHcp(w, w.hcp.value.(finalizers := finalizers, infraID := infraID, rest := rest))
    case HcpDelete =>
      if w.hcp.None? then w else StoreHcp(w, w.hcp.value.(deleting := true))
    case CapiChange(capi) => w.(capi := capi)
    case PoolCreate(name, held) =>
      if name in w.pools then w else w.(pools := w.pools[name := Pool(false, held)])
    case PoolDelete(name) => OrElse(DeletePool(w, name), w)
    case PoolRelease(name) =>
      if name !in w.pools then w
      else if w.pools[name].marked then w.(pools := w.pools - {name})
      else w.(pools := w.pools[name := w.pools[name].(held := false)])
    case ClaimCreate(name, held, annotations) =>
      if name in w.claims then w else w.(claims := w.claims[name := Claim(None, held, annotations)])
    case ClaimDelete(name, now) => OrElse(DeleteClaim(w, name, now), w)
    case ClaimRelease(name) =>
      if name !in w.claims then w
      else if w.claims[name].deletedAt.Some? then w.(claims := w.claims - {name})
      else w.(claims := w.claims[name := w.claims[name].(held := false)])
    case ClaimAnnotate(name, annotations) =>
      if name !in w.claims then w
      else w.(claims := w.claims[name := w.claims[name].(annotations := annotations)])
  }

  /******* The controller *******/

  /** What one NodeClaim of a listing asks the controller to do. */
  datatype Todo = Mark(name: string) | Annotate(name: string, at: Timestamp)

  /** Where the controller is; `hcp` is the version it read when the reconcile began. */
  datatype Pc =
    | Idle(ok: bool)
    | Decide(hcp: Hcp)
    | Adding(hcp: Hcp)
    | ListPools(hcp: Hcp)
    | PoolLoop(hcp: Hcp, pools: seq<string>)
    | ListClaims(hcp: Hcp)
    | ClaimLoop(hcp: Hcp, claims: seq<Todo>)
    | Removing(hcp: Hcp)

  datatype Sys = Sys(w: World, pc: Pc)

  /** A call can fail before it takes effect, or take effect and still report an error. */
  datatype Fault = NoFault | Refused | Unreported
  datatype Event = Env(move: Move) | Ctl(fault: Fault, order: seq<string>, now: Timestamp)

  function IsClusterDeleting(w: World, hcp: Hcp): bool {
    hcp.deleting || (hcp.infraID != "" && hcp.infraID in w.capi && w.capi[hcp.infraID])
  }

  /** The pools of a listing that the loop has to delete, in listing order. */
  function UnmarkedIn(pools: map<string, Pool>, order: seq<string>): (todo: seq<string>)
    requires forall n :: n in order ==> n in pools
    ensures forall n :: n in todo <==> n in order && !pools[n].marked
  {
    if order == [] then []
    else (if pools[order[0]].marked then [] else [order[0]]) + UnmarkedIn(pools, order[1..])
  }

  function TodoFor(name: string, claim: Claim): seq<Todo> {
    if claim.deletedAt.None? then [Mark(name)]
    else if Termination(claim) == "" then [Annotate(name, claim.deletedAt.value)]
    else []
  }

  /** The calls the NodeClaim loop makes for a listing, in listing order. */
  function TodosIn(claims: map<string, Claim>, order: seq<string>): (todo: seq<Todo>)
    requires forall n :: n in order ==> n in claims
    ensures forall t :: t in todo <==> t.name in order && TodoFor(t.name, claims[t.name]) == [t]
    ensures todo == [] ==> forall n :: n in order ==> TodoFor(n, claims[n]) == []
  {
    if order == [] then []
    else
      TodoFor(order[0], claims[order[0]]) + TodosIn(claims, order[1..])
  }

  function Conclude(r: Result<World, string>, w: World, next: Pc): Sys {
    if r.Ok? then Sys(r.value, next) else Sys(w, Idle(false))
  }

  /** One undisturbed API call. A listing event whose `order` does not list the objects has no effect. */
  ghost function Act(s: Sys, order: seq<string>, now: Timestamp): Sys {
    match s.pc
    case Idle(_) =>
      if s.w.hcp.None? then s.(pc := Idle(true)) else s.(pc := Decide(s.w.hcp.value))
    case Decide(hcp) =>
      var has := KARPENTER_FINALIZER in hcp.finalizers;
      if IsClusterDeleting(s.w, hcp) then s.(pc := if has then ListPools(hcp) else Idle(true))
      else s.(pc := if has then Idle(true) else Adding(hcp))
    case Adding(hcp) =>
      Conclude(PatchFinalizers(s.w, hcp, AddFinalizer(hcp.finalizers, KARPENTER_FINALIZER)), s.w, Idle(true))
    case ListPools(hcp) =>
      if !IsListing(order, s.w.pools.Keys) then s
      else if order == [] then s.(pc := ListClaims(hcp))
      else s.(pc := PoolsLeft(hcp, UnmarkedIn(s.w.pools, order)))
    case PoolLoop(hcp, pools) =>
      if pools == [] then s.(pc := Idle(true))
      else Conclude(DeletePool(s.w, pools[0]), s.w, PoolsLeft(hcp, pools[1..]))
    case ListClaims(hcp) =>
      if !IsListing(order, s.w.claims.Keys) then s
      else if order == [] then s.(pc := if hcp.deleting then Removing(hcp) else Idle(true))
      else s.(pc := ClaimsLeft(hcp, TodosIn(s.w.claims, order)))
    case ClaimLoop(hcp, claims) =>
      if claims == [] then s.(pc := Idle(true))
      else
        var r := match claims[0] {
          case Mark(name) => DeleteClaim(s.w, name, now)
          case Annotate(name, at) => AnnotateClaim(s.w, name, at)
        };
        Conclude(r, s.w, ClaimsLeft(hcp, claims[1..]))
    case Removing(hcp) =>
      Conclude(PatchFinalizers(s.w, hcp, RemoveFinalizer(hcp.finalizers, KARPENTER_FINALIZER)), s.w, Idle(true))
  }

  /** A loop that has nothing left to do ends the reconcile: its listing was not empty. */
  function PoolsLeft(hcp: Hcp, pools: seq<string>): Pc {
    if pools == [] then Idle(true) else PoolLoop(hcp, pools)
  }

  function ClaimsLeft(hcp: Hcp, claims: seq<Todo>): Pc {
    if claims == [] then Idle(true) else ClaimLoop(hcp, claims)
  }

  ghost function Step(s: Sys, e: Event): Sys {
    match e
    case Env(move) => s.(w := Apply(s.w, move))
    case Ctl(fault, order, now) =>
      match fault
      case NoFault => Act(s, order, now)
      case Refused => s.(pc := Idle(false))
      case Unreported => Sys(Act(s, order, now).w, Idle(false))
  }

  ghost function Run(s: Sys, es: seq<Event>): Sys
    decreases |es|
  {
    if es == [] then s else Run(Step(s, es[0]), es[1..])
  }

  /******* Safety *******/

  /** The controller relies on an empty listing of NodePools, and its patch would still pass the lock. */
  predicate ReliesOnPools(s: Sys) {
    (s.pc.ListClaims? || s.pc.Removing?) && s.pc.hcp.deleting && s.w.hcp == Some(s.pc.hcp)
  }

  /** The controller relies on an empty listing of NodeClaims as well. */
  predicate ReliesOnClaims(s: Sys) {
    s.pc.Removing? && s.w.hcp == Some(s.pc.hcp)
  }

  /**
   The assumptions on everybody else: no NodePool and no NodeClaim appears while the controller relies on there being
   none. The CAPI Cluster is unconstrained.
   */
  predicate Admissible(s: Sys, e: Event) {
    match e
    case Env(PoolCreate(_, _)) => !ReliesOnPools(s)
    case Env(ClaimCreate(_, _, _)) => !ReliesOnClaims(s)
    case _ => true
  }

  ghost predicate AdmissibleRun(s: Sys, es: seq<Event>)
    decreases |es|
  {
    es == [] || (Admissible(s, es[0]) && AdmissibleRun(Step(s, es[0]), es[1..]))
  }

  /** No reconcile is in flight and versions are handed out by the clock. */
  predicate Init(s: Sys) {
    s.pc.Idle? && (s.w.hcp.Some? ==> s.w.hcp.value.rv < s.w.clock)
  }

  /** The version read is older than the clock, and identifies its content while it is still stored. */
  predicate ReadIsOld(w: World, read: Hcp) {
    && read.rv < w.clock
    && (w.hcp.Some? && w.hcp.value.rv == read.rv ==> w.hcp.value == read)
  }

  /** A reconcile in flight, whatever others do: its read is an old version, and it acts on what it read. */
  predicate ReadsOk(s: Sys) {
    && (s.w.hcp.Some? ==> s.w.hcp.value.rv < s.w.clock)
    && (!s.pc.Idle? ==> ReadIsOld(s.w, s.pc.hcp))
    && (s.pc.Adding? ==> !s.pc.hcp.deleting && KARPENTER_FINALIZER !in s.pc.hcp.finalizers)
    && (s.pc.Removing? ==> s.pc.hcp.deleting && KARPENTER_FINALIZER in s.pc.hcp.finalizers)
    && (s.pc.ListPools? || s.pc.PoolLoop? || s.pc.ListClaims? || s.pc.ClaimLoop? ==>
          KARPENTER_FINALIZER in s.pc.hcp.finalizers)
  }

  predicate Inv(s: Sys) {
    && ReadsOk(s)
    && (ReliesOnPools(s) ==> s.w.pools == map[])
    && (ReliesOnClaims(s) ==> s.w.claims == map[])
  }

  lemma MoveKeepsReads(s: Sys, m: Move)
    requires ReadsOk(s)
    ensures ReadsOk(s.(w := Apply(s.w, m)))
  {
  }

  lemma ActKeepsReads(s: Sys, order: seq<string>, now: Timestamp)
    requires ReadsOk(s)
    ensures ReadsOk(Act(s, order, now)) && ReadsOk(Act(s, order, now).(pc := Idle(false)))
  {
  }

  lemma StepKeepsReads(s: Sys, e: Event)
    requires ReadsOk(s)
    ensures ReadsOk(Step(s, e))
  {
    match e
    case Env(m) => MoveKeepsReads(s, m);
    case Ctl(_, order, now) => ActKeepsReads(s, order, now);
  }

  lemma {:induction false} RunKeepsReads(s: Sys, es: seq<Event>)
    requires ReadsOk(s)
    ensures ReadsOk(Run(s, es))
    decreases |es|
  {
    if es != [] {
      StepKeepsReads(s, es[0]);
      RunKeepsReads(Step(s, es[0]), es[1..]);
    }
  }

  lemma ApplyKeepsInv(s: Sys, m: Move)
    requires Inv(s) && Admissible(s, Env(m))
    ensures Inv(s.(w := Apply(s.w, m)))
  {
  }

  /** Only the listings and the loops bear on what a release may rely on; both listings must have been empty. */
  lemma CallKeepsInv(s: Sys, e: Event)
    requires Inv(s) && e.Ctl? && e.fault.NoFault?
    ensures Inv(Step(s, e))
  {
    StepKeepsReads(s, e);
    if s.pc.ListPools? && IsListing(e.order, s.w.pools.Keys) { EmptyListing(e.order, s.w.pools.Keys); }
    if s.pc.ListClaims? && IsListing(e.order, s.w.claims.Keys) { EmptyListing(e.order, s.w.claims.Keys); }
  }

  lemma StepKeepsInv(s: Sys, e: Event)
    requires Inv(s) && Admissible(s, e)
    ensures Inv(Step(s, e))
  {
    if e.Env? {
      ApplyKeepsInv(s, e.move);
    } else if e.fault.NoFault? {
      CallKeepsInv(s, e);
    } else {
      StepKeepsReads(s, e);
    }
  }

  lemma {:induction false} RunKeepsInv(s: Sys, es: seq<Event>)
    requires Inv(s) && AdmissibleRun(s, es)
    ensures Inv(Run(s, es))
    decreases |es|
  {
    if es != [] {
      StepKeepsInv(s, es[0]);
      RunKeepsInv(Step(s, es[0]), es[1..]);
    }
  }

  /** The stored HCP carries the Karpenter finalizer. */
  predicate Guarded(w: World) {
    w.hcp.Some? && KARPENTER_FINALIZER in w.hcp.value.finalizers
  }

  /**
   Main safety result. After any admissible run, with any interleaving, faults and any answers about the
   CAPI Cluster, a controller call that takes the finalizer away does so only from an HCP with its own
   deletion timestamp and only while no NodePool and no NodeClaim is left.
   */
  lemma ReleaseIsSafe(s0: Sys, es: seq<Event>, call: Event)
    requires Init(s0) && AdmissibleRun(s0, es) && call.Ctl?
    ensures var s := Run(s0, es);
      Guarded(s.w) && !Guarded(Step(s, call).w) ==>
        s.w.hcp.value.deleting && s.w.pools == map[] && s.w.claims == map[]
  {
    RunKeepsInv(s0, es);
    var s := Run(s0, es);
    if Guarded(s.w) && !Guarded(Step(s, call).w) { OnlyReleaseUnguards(s, call); }
  }

  lemma OnlyReleaseUnguards(s: Sys, call: Event)
    requires Inv(s) && call.Ctl? && Guarded(s.w) && !Guarded(Step(s, call).w)
    ensures s.w.hcp.value.deleting && s.w.pools == map[] && s.w.claims == map[]
  {
    assert s.pc.Removing? && s.w.hcp == Some(s.pc.hcp);
  }

  /**
   What others can promise without knowing where the controller is: no NodePool appears once the HCP has its own
   deletion timestamp, and NodeClaims appear only while there is a NodePool.
   */
  predicate Orderly(w: World, e: Event) {
    match e
    case Env(PoolCreate(_, _)) => !(w.hcp.Some? && w.hcp.value.deleting)
    case Env(ClaimCreate(_, _, _)) => w.pools != map[]
    case _ => true
  }

  ghost predicate OrderlyRun(s: Sys, es: seq<Event>)
    decreases |es|
  {
    es == [] || (Orderly(s.w, es[0]) && OrderlyRun(Step(s, es[0]), es[1..]))
  }

  lemma {:induction false} OrderlyIsAdmissible(s: Sys, es: seq<Event>)
    requires Inv(s) && OrderlyRun(s, es)
    ensures AdmissibleRun(s, es)
    decreases |es|
  {
    if es != [] {
      StepKeepsInv(s, es[0]);
      OrderlyIsAdmissible(Step(s, es[0]), es[1..]);
    }
  }

  /** The release is safe in a world whose objects appear in this order. */
  lemma ReleaseIsSafeInOrder(s0: Sys, es: seq<Event>, call: Event)
    requires Init(s0) && OrderlyRun(s0, es) && call.Ctl?
    ensures var s := Run(s0, es);
      Guarded(s.w) && !Guarded(Step(s, call).w) ==>
        s.w.hcp.value.deleting && s.w.pools == map[] && s.w.claims == map[]
  {
    OrderlyIsAdmissible(s0, es);
    ReleaseIsSafe(s0, es, call);
  }

  lemma RunFirst(s: Sys, e: Event, es: seq<Event>)
    ensures Run(s, [e] + es) == Run(Step(s, e), es)
  {
  }

  lemma RunFirstTo(s: Sys, e: Event, t: Sys, es: seq<Event>)
    requires Step(s, e) == t
    ensures Run(s, [e] + es) == Run(t, es)
  {
    RunFirst(s, e, es);
  }

  /** Without NodePools, three calls take a reconcile of a deleting HCP to the listing of the NodeClaims. */
  lemma ReachesClaims(w: World, hcp: Hcp, call: Event, rest: seq<Event>) returns (es: seq<Event>)
    requires w.hcp == Some(hcp) && hcp.deleting && KARPENTER_FINALIZER in hcp.finalizers && w.pools == map[]
    requires call.Ctl? && call.fault.NoFault? && call.order == []
    ensures Run(Sys(w, Idle(true)), es) == Run(Sys(w, ListClaims(hcp)), rest)
  {
    assert IsListing(call.order, w.pools.Keys);
    RunFirstTo(Sys(w, ListPools(hcp)), call, Sys(w, ListClaims(hcp)), rest);
    es := [call] + rest;
    RunFirstTo(Sys(w, Decide(hcp)), call, Sys(w, ListPools(hcp)), es);
    es := [call] + es;
    RunFirstTo(Sys(w, Idle(true)), call, Sys(w, Decide(hcp)), es);
    es := [call] + es;
  }

  /** After an admissible way on from `t`, a call takes the finalizer away. */
  ghost predicate Releases(t: Sys, es: seq<Event>, call: Event) {
    AdmissibleRun(t, es) && call.Ctl? && Guarded(Run(t, es).w) && !Guarded(Step(Run(t, es), call).w)
  }

  lemma SafeAfter(t: Sys, es: seq<Event>, call: Event)
    requires Inv(t) && Releases(t, es, call)
    ensures Run(t, es).w.pools == map[] && Run(t, es).w.claims == map[]
  {
    RunKeepsInv(t, es);
    OnlyReleaseUnguards(Run(t, es), call);
  }

  /** The patch that removes the finalizer passes its lock. */
  lemma ReleaseLands(s: Sys, call: Event)
    requires s.pc.Removing? && s.w.hcp == Some(s.pc.hcp) && KARPENTER_FINALIZER in s.pc.hcp.finalizers
    requires call == Ctl(NoFault, [], "t")
    ensures Guarded(s.w) && !Guarded(Step(s, call).w)
  {
  }

  /** Others can let all NodeClaims go. */
  lemma {:induction false} ClaimsCanGo(s: Sys) returns (es: seq<Event>)
    ensures AdmissibleRun(s, es) && Run(s, es) == s.(w := s.w.(claims := map[]))
    decreases |s.w.claims.Keys|
  {
    es := [];
    if s.w.claims != map[] {
      var n :| n in s.w.claims;
      var marked := Step(s, Env(ClaimDelete(n, "t")));
      var gone := Step(marked, Env(ClaimRelease(n)));
      assert gone == s.(w := s.w.(claims := s.w.claims - {n}));
      assert gone.w.claims.Keys == s.w.claims.Keys - {n};
      es := ClaimsCanGo(gone);
      RunFirst(marked, Env(ClaimRelease(n)), es);
      AdmissibleFirst(marked, Env(ClaimRelease(n)), es);
      es := [Env(ClaimRelease(n))] + es;
      RunFirst(s, Env(ClaimDelete(n, "t")), es);
      AdmissibleFirst(s, Env(ClaimDelete(n, "t")), es);
      es := [Env(ClaimDelete(n, "t"))] + es;
    }
  }

  lemma AdmissibleFirst(s: Sys, e: Event, es: seq<Event>)
    requires Admissible(s, e) && AdmissibleRun(Step(s, e), es)
    ensures AdmissibleRun(s, [e] + es)
  {
    assert ([e] + es)[1..] == es;
  }

  lemma AdmissibleAppends(s: Sys, es: seq<Event>, e: Event)
    requires AdmissibleRun(s, es) && Admissible(Run(s, es), e)
    ensures AdmissibleRun(s, es + [e]) && Run(s, es + [e]) == Step(Run(s, es), e)
    decreases |es|
  {
    if es == [] {
      assert es + [e] == [e];
      assert Run(Step(s, e), []) == Step(s, e);
    } else {
      assert (es + [e])[1..] == es[1..] + [e];
      AdmissibleAppends(Step(s, es[0]), es[1..], e);
    }
  }

  /** When the HCP is still the one that was read, the release can follow, whatever NodePools there are. */
  lemma ListingLeadsToRelease(t: Sys) returns (es: seq<Event>, call: Event)
    requires (t.pc.ListClaims? || t.pc.Removing?) && t.pc.hcp.deleting && t.w.hcp == Some(t.pc.hcp)
    requires KARPENTER_FINALIZER in t.pc.hcp.finalizers
    ensures Releases(t, es, call) && Run(t, es).w.pools == t.w.pools
  {
    call := Ctl(NoFault, [], "t");
    es := [];
    if t.pc.ListClaims? {
      es := ClaimsCanGo(t);
      var bare := Run(t, es);
      assert IsListing([], bare.w.claims.Keys);
      AdmissibleAppends(t, es, call);
      es := es + [call];
    }
    ReleaseLands(Run(t, es), call);
  }

  /**
   Exactly when a new NodePool can be left behind: in every state of the protocol, it can be stored still when the
   finalizer is taken away, after some admissible way on, exactly when the controller relies on there being none.
   */
  lemma LatePoolIsLeftBehindIff(s: Sys, name: string, held: bool)
    requires Inv(s) && name !in s.w.pools
    ensures ReliesOnPools(s) <==>
      exists es, call :: Releases(Step(s, Env(PoolCreate(name, held))), es, call)
                         && Run(Step(s, Env(PoolCreate(name, held))), es).w.pools != map[]
  {
    var t := Step(s, Env(PoolCreate(name, held)));
    if ReliesOnPools(s) {
      var es, call := ListingLeadsToRelease(t);
      assert name in Run(t, es).w.pools;
    } else {
      StepKeepsInv(s, Env(PoolCreate(name, held)));
      forall es, call | Releases(t, es, call) ensures Run(t, es).w.pools == map[] { SafeAfter(t, es, call); }
    }
  }

  /** The same for a new NodeClaim: exactly when the controller relies on there being none. */
  lemma LateClaimIsLeftBehindIff(s: Sys, name: string, held: bool, annotations: map<Key, string>)
    requires Inv(s) && name !in s.w.claims
    ensures ReliesOnClaims(s) <==>
      exists es, call :: Releases(Step(s, Env(ClaimCreate(name, held, annotations))), es, call)
                         && Run(Step(s, Env(ClaimCreate(name, held, annotations))), es).w.claims != map[]
  {
    var t := Step(s, Env(ClaimCreate(name, held, annotations)));
    if ReliesOnClaims(s) {
      var call := Ctl(NoFault, [], "t");
      ReleaseLands(t, call);
      assert Run(t, []) == t && name in t.w.claims;
      assert Releases(t, [], call);
    } else {
      StepKeepsInv(s, Env(ClaimCreate(name, held, annotations)));
      forall es, call | Releases(t, es, call) ensures Run(t, es).w.claims == map[] { SafeAfter(t, es, call); }
    }
  }

  /** Such a run from the start of the operator: the pool comes between the listing of the claims and the release. */
  lemma LatePoolIsLeftBehind() returns (s0: Sys, es: seq<Event>, call: Event)
    ensures Init(s0) && call.Ctl?
    ensures var s := Run(s0, es);
      Guarded(s.w) && !Guarded(Step(s, call).w) && s.w.pools != map[]
  {
    var hcp := Hcp(0, true, [KARPENTER_FINALIZER, OtherFinalizer("other")], "", 0);
    call := Ctl(NoFault, [], "t");
    var w := World(1, Some(hcp), map[], map[], map[]);
    var late := w.(pools := map["p" := Pool(false, true)]);
    RunFirstTo(Sys(w, Removing(hcp)), Env(PoolCreate("p", true)), Sys(late, Removing(hcp)), []);
    es := [Env(PoolCreate("p", true))] + [];
    assert IsListing([], w.claims.Keys);
    RunFirstTo(Sys(w, ListClaims(hcp)), call, Sys(w, Removing(hcp)), es);
    es := ReachesClaims(w, hcp, call, [call] + es);
    s0 := Sys(w, Idle(true));
    assert Run(Sys(late, Removing(hcp)), []) == Sys(late, Removing(hcp));
    assert "p" in late.pools;
  }

  /******* Finalizer edits lose nothing *******/

  /**
   Although a patch sends the whole list it computed from an old read, an accepted one changes the list that is
   stored when it arrives only by the Karpenter finalizer: it adds it to an HCP that is not deleting, or it removes
   it from one that is. Everything else in the HCP stays. Nothing is assumed about the other writers.
   */
  lemma FinalizerEditsLoseNothing(s0: Sys, es: seq<Event>, call: Event)
    requires Init(s0) && call.Ctl?
    ensures var s := Run(s0, es); var w' := Step(s, call).w;
      w'.hcp == s.w.hcp
      || (s.w.hcp.Some? &&
          var before := s.w.hcp.value;
          var edited := before.finalizers;
          (!before.deleting && !Guarded(s.w)
            && w'.hcp == Some(before.(rv := s.w.clock, finalizers := edited + [KARPENTER_FINALIZER])))
          || (before.deleting && Guarded(s.w)
            && var left := RemoveFinalizer(edited, KARPENTER_FINALIZER);
               w'.hcp == if left == [] then None else Some(before.(rv := s.w.clock, finalizers := left))))
  {
    RunKeepsReads(s0, es);
    assert ReadsOk(Run(s0, es));
  }
}
