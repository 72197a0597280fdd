/**
 The deletion controller in the form of its source: a reconcile with loops over two listings, running against API
 servers that others change between any two of its calls. Each reconcile is shown to be one pass of the machine in
 module Deletion, so what is proved about the machine holds of this code.
 */
module DeletionController {
  import opened Wrappers
  import opened Finalizers
  import opened Deletion
  import opened Listings
  import opened DeletionProgress
  import opened DeletionOutcome

  /** What happens around one API call: the writes of others before it, its fault, and the server's time. */
  datatype Beat = Beat(moves: seq<Move>, fault: Fault, now: Timestamp)

  function ApplyAll(w: World, moves: seq<Move>): World
    decreases |moves|
  {
    if moves == [] then w else ApplyAll(Apply(w, moves[0]), moves[1..])
  }

  function Moves(moves: seq<Move>): seq<Event> {
    seq(|moves|, i requires 0 <= i < |moves| => Env(moves[i]))
  }

  lemma {:induction false} Append(s: Sys, es: seq<Event>, e: Event)
    ensures Run(s, es + [e]) == Step(Run(s, es), e)
    ensures Flying(s, es) && !Run(s, es + [e]).pc.Idle? ==> Flying(s, es + [e])
    ensures Flying(s, es) && Run(s, es + [e]).pc.Idle? ==> InFlight(s, es + [e])
    decreases |es|
  {
    if es == [] {
      assert Run(Step(s, e), []) == Step(s, e);
    } else {
      assert (es + [e])[1..] == es[1..] + [e];
      Append(Step(s, es[0]), es[1..], e);
    }
  }

  lemma {:induction false} AppendMoves(s: Sys, es: seq<Event>, moves: seq<Move>)
    ensures Run(s, es + Moves(moves)) == Run(s, es).(w := ApplyAll(Run(s, es).w, moves))
    ensures Flying(s, es) && !Run(s, es).pc.Idle? ==> Flying(s, es + Moves(moves))
    decreases |moves|
  {
    if moves == [] {
      assert es + Moves(moves) == es;
    } else {
      Append(s, es, Env(moves[0]));
      AppendMoves(s, es + [Env(moves[0])], moves[1..]);
      assert es + Moves(moves) == es + [Env(moves[0])] + Moves(moves[1..]);
    }
  }

  /** Neither the HCP nor its CAPI Cluster is being deleted. */
  predicate Stays(w: World) {
    && w.hcp.Some? && !w.hcp.value.deleting
    && !(w.hcp.value.infraID != "" && w.hcp.value.infraID in w.capi && w.capi[w.hcp.value.infraID])
  }

  /** The HCP is being deleted, and nothing is left that the Karpenter finalizer waits for. */
  predicate Ends(w: World) {
    && w.hcp.Some? && w.hcp.value.deleting && KARPENTER_FINALIZER in w.hcp.value.finalizers
    && w.pools == map[] && w.claims == map[]
  }

  lemma PassOutcome(s: Sys, es: seq<Event>)
    requires Pass(s, es)
    ensures Run(s, es).pc == Idle(true) && Stays(s.w) && LeaveHcp(es) && LeaveCapi(es) ==>
      GuardPutOn(s.w.hcp.value, Run(s, es).w) && SameObjects(Run(s, es).w, OthersOnly(s.w, es))
    ensures Run(s, es).pc == Idle(true) && Ends(s.w) && LeaveHcp(es) && CreateNothing(es) ==>
      GuardTakenOff(s.w.hcp.value, Run(s, es).w)
  {
    if Run(s, es).pc == Idle(true) && Stays(s.w) && LeaveHcp(es) && LeaveCapi(es) {
      UndeletedIsDeclined(s, es, s.w.hcp.value);
      StayingClusterIsGuarded(s, es);
      StayingClusterLosesNothing(s, es);
    }
    if Run(s, es).pc == Idle(true) && Ends(s.w) && LeaveHcp(es) && CreateNothing(es) { EmptyClusterIsReleased(s, es); }
  }

  class Controller {
    var world: World
    var beats: seq<Beat>

    // The machine's view: its program counter, the state in which the current reconcile began and its events so far.
    ghost var pc: Pc
    ghost var from: Sys
    ghost var events: seq<Event>

    ghost function State(): Sys
      reads this
    {
      Sys(world, pc)
    }

    /** The events since `from` are a reconcile that has got to the current state. */
    ghost predicate Valid()
      reads this
    {
      && from.pc.Idle? && events != [] && events[0].Ctl?
      && Run(from, events) == State()
      && (if pc.Idle? then Pass(from, events) else Flying(Step(from, events[0]), events[1..]))
    }

    constructor (world: World, beats: seq<Beat>)
      ensures this.world == world && this.beats == beats && pc == Idle(true)
    {
      this.world := world;
      this.beats := beats;
      this.pc := Idle(true);
    }

    /** The writes of others that precede the next call. */
    method Others() returns (moves: seq<Move>, fault: Fault, now: Timestamp)
      modifies `world, `beats
      ensures world == ApplyAll(old(world), moves)
    {
      moves, fault, now := [], NoFault, "t";
      if beats != [] {
        moves, fault, now := beats[0].moves, beats[0].fault, beats[0].now;
        beats := beats[1..];
      }
      world := ApplyAll(world, moves);
    }

    /** Records that others have moved during the reconcile. */
    ghost method RecordMoves(before: World, moves: seq<Move>)
      requires world == ApplyAll(before, moves) && !pc.Idle?
      requires from.pc.Idle? && events != [] && events[0].Ctl?
      requires Run(from, events) == Sys(before, pc) && Flying(Step(from, events[0]), events[1..])
      modifies `events
      ensures Valid()
    {
      AppendMoves(Step(from, events[0]), events[1..], moves);
      assert (events + Moves(moves))[1..] == events[1..] + Moves(moves);
      events := events + Moves(moves);
    }

    /** Records one call of the controller; `before` is the state in which it was made. */
    ghost method RecordCall(before: Sys, e: Event)
      requires e.Ctl? && State() == Step(before, e) && !before.pc.Idle?
      requires from.pc.Idle? && events != [] && events[0].Ctl?
      requires Run(from, events) == before && Flying(Step(from, events[0]), events[1..])
      modifies `events
      ensures Valid()
    {
      Append(Step(from, events[0]), events[1..], e);
      assert (events + [e])[1..] == events[1..] + [e];
      events := events + [e];
    }

    /******* API calls *******/

    method GetHostedControlPlane() returns (hcp: Option<Hcp>, err: bool, ghost found: World)
      requires pc.Idle?
      modifies this
      ensures Valid() && from == Sys(found, old(pc)) && exists moves :: found == ApplyAll(old(world), moves)
      ensures err ==> pc == Idle(false)
      ensures !err ==> hcp == world.hcp && pc == if hcp.None? then Idle(true) else Decide(hcp.value)
    {
      var moves, fault, now := Others();
      found := world;
      ghost var e := Ctl(fault, [], now);
      hcp, err := world.hcp, !fault.NoFault?;
      from := State();
      pc := Step(from, e).pc;
      events := [e];
      assert Run(Step(from, e), []) == Step(from, e);
    }

    method IsClusterDeletingCall(hcp: Hcp) returns (deleting: bool, err: bool)
      requires Valid() && pc == Decide(hcp)
      modifies this
      ensures Valid() && from == old(from)
      ensures err ==> pc == Idle(false)
      ensures !err ==>
        (deleting <==> hcp.deleting || (hcp.infraID != "" && hcp.infraID in world.capi && world.capi[hcp.infraID]))
      ensures !err ==>
        var has := KARPENTER_FINALIZER in hcp.finalizers;
        pc == if deleting then (if has then ListPools(hcp) else Idle(true))
              else if has then Idle(true) else Adding(hcp)
    {
      ghost var was := world;
      var moves, fault, now := Others();
      RecordMoves(was, moves);
      ghost var before := State();
      deleting, err := IsClusterDeleting(world, hcp), !fault.NoFault?;
      pc := Step(before, Ctl(fault, [], now)).pc;
      RecordCall(before, Ctl(fault, [], now));
    }

    method PatchHostedControlPlane(hcp: Hcp, finalizers: seq<Finalizer>) returns (err: bool)
      requires Valid() && (pc == Adding(hcp) || pc == Removing(hcp))
      requires finalizers == if pc.Adding? then AddFinalizer(hcp.finalizers, KARPENTER_FINALIZER)
                             else RemoveFinalizer(hcp.finalizers, KARPENTER_FINALIZER)
      modifies this
      ensures Valid() && from == old(from) && pc == Idle(!err)
    {
      ghost var was := world;
      var moves, fault, now := Others();
      RecordMoves(was, moves);
      ghost var before := State();
      var r := PatchFinalizers(world, hcp, finalizers);
      err := !fault.NoFault? || r.Err?;
      if !fault.Refused? && r.Ok? { world := r.value; }
      pc := Step(before, Ctl(fault, [], now)).pc;
      RecordCall(before, Ctl(fault, [], now));
    }

    method ListNodePools() returns (order: seq<string>, items: map<string, Pool>, err: bool)
      requires Valid() && pc.ListPools?
      modifies this
      ensures Valid() && from == old(from)
      ensures forall n :: n in order ==> n in items
      ensures err ==> pc == Idle(false)
      ensures !err ==> pc == if order == [] then ListClaims(old(pc).hcp)
                             else PoolsLeft(old(pc).hcp, UnmarkedIn(items, order))
    {
      ghost var was := world;
      var moves, fault, now := Others();
      RecordMoves(was, moves);
      ghost var before := State();
      items := world.pools;
      order := List(items.Keys);
      err := !fault.NoFault?;
      pc := Step(before, Ctl(fault, order, now)).pc;
      RecordCall(before, Ctl(fault, order, now));
    }

    method ListNodeClaims() returns (order: seq<string>, items: map<string, Claim>, err: bool)
      requires Valid() && pc.ListClaims?
      modifies this
      ensures Valid() && from == old(from)
      ensures forall n :: n in order ==> n in items
      ensures err ==> pc == Idle(false)
      ensures !err ==>
        var hcp := old(pc).hcp;
        pc == if order == [] then (if hcp.deleting then Removing(hcp) else Idle(true))
              else ClaimsLeft(hcp, TodosIn(items, order))
    {
      ghost var was := world;
      var moves, fault, now := Others();
      RecordMoves(was, moves);
      ghost var before := State();
      items := world.claims;
      order := List(items.Keys);
      err := !fault.NoFault?;
      pc := Step(before, Ctl(fault, order, now)).pc;
      RecordCall(before, Ctl(fault, order, now));
    }

    method DeleteNodePool(name: string) returns (err: bool)
      requires Valid() && pc.PoolLoop? && pc.pools != [] && pc.pools[0] == name
      modifies this
      ensures Valid() && from == old(from)
      ensures pc == if err then Idle(false) else PoolsLeft(old(pc).hcp, old(pc).pools[1..])
    {
      ghost var was := world;
      var moves, fault, now := Others();
      RecordMoves(was, moves);
      ghost var before := State();
      var r := DeletePool(world, name);
      err := !fault.NoFault? || r.Err?;
      if !fault.Refused? && r.Ok? { world := r.value; }
      pc := Step(before, Ctl(fault, [], now)).pc;
      RecordCall(before, Ctl(fault, [], now));
    }

    method DeleteNodeClaim(name: string) returns (err: bool)
      requires Valid() && pc.ClaimLoop? && pc.claims != [] && pc.claims[0] == Mark(name)
      modifies this
      ensures Valid() && from == old(from)
      ensures pc == if err then Idle(false) else ClaimsLeft(old(pc).hcp, old(pc).claims[1..])
    {
      ghost var was := world;
      var moves, fault, now := Others();
      RecordMoves(was, moves);
      ghost var before := State();
      var r := DeleteClaim(world, name, now);
      err := !fault.NoFault? || r.Err?;
      if !fault.Refused? && r.Ok? { world := r.value; }
      pc := Step(before, Ctl(fault, [], now)).pc;
      RecordCall(before, Ctl(fault, [], now));
    }

    method PatchNodeClaim(name: string, at: Timestamp) returns (err: bool)
      requires Valid() && pc.ClaimLoop? && pc.claims != [] && pc.claims[0] == Annotate(name, at)
      modifies this
      ensures Valid() && from == old(from)
      ensures pc == if err then Idle(false) else ClaimsLeft(old(pc).hcp, old(pc).claims[1..])
    {
      ghost var was := world;
      var moves, fault, now := Others();
      RecordMoves(was, moves);
      ghost var before := State();
      var r := AnnotateClaim(world, name, at);
      err := !fault.NoFault? || r.Err?;
      if !fault.Refused? && r.Ok? { world := r.value; }
      pc := Step(before, Ctl(fault, [], now)).pc;
      RecordCall(before, Ctl(fault, [], now));
    }

    /******* The controller's own methods *******/

    /**
     One reconcile is one pass of the machine over the world that the first read found. When it ends without an error, a
     cluster that stays has the finalizer and all its objects, and one that ends without objects has lost the finalizer.
     */
    method Reconcile() returns (err: bool)
      requires pc.Idle?
      modifies this
      ensures from.pc == old(pc) && exists moves :: from.w == ApplyAll(old(world), moves)
      ensures Pass(from, events) && Run(from, events) == State() && pc == Idle(!err)
      ensures !err && Stays(from.w) && LeaveHcp(events) && LeaveCapi(events) ==>
        GuardPutOn(from.w.hcp.value, world) && SameObjects(world, OthersOnly(from.w, events))
      ensures !err && Ends(from.w) && LeaveHcp(events) && CreateNothing(events) ==>
        GuardTakenOff(from.w.hcp.value, world)
    {
      var hcp, getErr, found := GetHostedControlPlane();
      err := getErr;
      if !err && hcp.Some? {
        var deleting, checkErr := IsClusterDeletingCall(hcp.value);
        err := checkErr;
        if !err && deleting {
          err := ReconcileDeletion(hcp.value);
        } else if !err && KARPENTER_FINALIZER !in hcp.value.finalizers {
          err := PatchHostedControlPlane(hcp.value, AddFinalizer(hcp.value.finalizers, KARPENTER_FINALIZER));
        }
      }
      PassOutcome(from, events);
    }

    method ReconcileDeletion(hcp: Hcp) returns (err: bool)
      requires Valid()
      requires pc == if KARPENTER_FINALIZER in hcp.finalizers then ListPools(hcp) else Idle(true)
      modifies this
      ensures Valid() && from == old(from) && pc == Idle(!err)
    {
      if KARPENTER_FINALIZER !in hcp.finalizers { return false; }
      var cleanedUp, cleanupErr := CleanupKarpenterResources(hcp);
      if cleanupErr || !cleanedUp { return cleanupErr; }
      if !hcp.deleting { return false; }
      err := PatchHostedControlPlane(hcp, RemoveFinalizer(hcp.finalizers, KARPENTER_FINALIZER));
    }

    method CleanupKarpenterResources(ghost hcp: Hcp) returns (cleanedUp: bool, err: bool)
      requires Valid() && pc == ListPools(hcp)
      modifies this
      ensures Valid() && from == old(from)
      ensures err ==> pc == Idle(false)
      ensures !err ==> pc == if cleanedUp && hcp.deleting then Removing(hcp) else Idle(true)
    {
      var poolsGone, poolsErr := DeleteNodePools(hcp);
      if poolsErr || !poolsGone { return false, poolsErr; }
      cleanedUp, err := DeleteNodeClaims(hcp);
    }

    method DeleteNodePools(ghost hcp: Hcp) returns (gone: bool, err: bool)
      requires Valid() && pc == ListPools(hcp)
      modifies this
      ensures Valid() && from == old(from)
      ensures err ==> pc == Idle(false)
      ensures !err ==> pc == if gone then ListClaims(hcp) else Idle(true)
    {
      var order, items, listErr := ListNodePools();
      if listErr { return false, true; }
      for i := 0 to |order|
        invariant Valid() && from == old(from)
        invariant pc == if order == [] then ListClaims(hcp) else PoolsLeft(hcp, UnmarkedIn(items, order[i..]))
      {
        assert order[i..][1..] == order[i + 1..];
        if items[order[i]].marked { continue; }
        var deleteErr := DeleteNodePool(order[i]);
        if deleteErr { return false, true; }
      }
      return |order| == 0, false;
    }

    method DeleteNodeClaims(ghost hcp: Hcp) returns (gone: bool, err: bool)
      requires Valid() && pc == ListClaims(hcp)
      modifies this
      ensures Valid() && from == old(from)
      ensures err ==> pc == Idle(false)
      ensures !err ==> pc == if gone && hcp.deleting then Removing(hcp) else Idle(true)
    {
      var order, items, listErr := ListNodeClaims();
      if listErr { return false, true; }
      for i := 0 to |order|
        invariant Valid() && from == old(from)
        invariant pc == if order == [] then (if hcp.deleting then Removing(hcp) else Idle(true))
                        else ClaimsLeft(hcp, TodosIn(items, order[i..]))
      {
        assert order[i..][1..] == order[i + 1..];
        var claim := items[order[i]];
        var callErr;
        if claim.deletedAt.None? {
          callErr := DeleteNodeClaim(order[i]);
        } else {
          callErr := HandleForcefulNodeClaimDeletion(order[i], claim, hcp, TodosIn(items, order[i + 1..]));
        }
        if callErr { return false, true; }
      }
      return |order| == 0, false;
    }

    method HandleForcefulNodeClaimDeletion(name: string, claim: Claim, ghost hcp: Hcp, ghost rest: seq<Todo>)
        returns (err: bool)
      requires Valid() && claim.deletedAt.Some? && pc == ClaimsLeft(hcp, TodoFor(name, claim) + rest)
      modifies this
      ensures Valid() && from == old(from)
      ensures pc == if err then Idle(false) else ClaimsLeft(hcp, rest)
    {
      if Termination(claim) != "" { return false; }
      err := PatchNodeClaim(name, claim.deletedAt.value);
    }
  }
}
