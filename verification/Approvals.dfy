/**
 The approvals of the machine approver as a machine: CSRs in a versioned store, a cache that may show any version
 that ever existed, and others who create, decide and delete CSRs between any two calls of the controller.
 */
module Approvals {
  import opened Wrappers
  import opened Verifier
  import opened MachineApprover

  datatype Csr = Csr(name: string, uid: nat, rv: nat, deleting: bool, spec: Spec, conditions: seq<Condition>)

  /** An approval on its way: the version that was read, and what the controller saw. */
  datatype Attempt = Attempt(read: Csr, grounds: Grounds)

  /**
   `queued` are the names that wait for a reconcile. The rest is history: `past` holds every version that was ever
   stored, `noticed` the names that ever passed the watch filter, and `approved` the uid of each accepted approval of
   this controller, in order.
   */
  datatype Sys = Sys(clock: nat, store: map<string, Csr>, past: set<Csr>, noticed: set<string>, queued: set<string>,
                     flight: map<string, Attempt>, approved: seq<nat>)

  datatype Event =
    // Everybody else.
    | Create(name: string, spec: Spec)
    | Decide(name: string, kind: Kind)
    | Touch(name: string)
    | MarkDeleting(name: string)
    | Remove(name: string)
    // The watch delivers a version.
    | Notify(version: Csr)
    // A reconcile whose read finds no CSR.
    | Miss(name: string)
    // A reconcile up to its approval: the version its read returned, its listing and the answers of the cloud.
    | Review(read: Csr, listing: Listing, describe: Describe, cloud: map<string, Instance>)
    // The UpdateApproval call of the reconcile in flight, or its loss.
    | Submit(name: string)
    | Lose(name: string)

  /** Stores a new version. */
  function Put(s: Sys, csr: Csr): Sys {
    var stored := csr.(rv := s.clock);
    s.(clock := s.clock + 1, store := s.store[csr.name := stored], past := s.past + {stored})
  }

  function OursFor(grounds: Grounds): Condition {
    Condition(Approved, Some(grounds))
  }

  /** The update carries the version that was read, with one more condition; another stored version is a conflict. */
  function UpdateApproval(s: Sys, a: Attempt): Option<Sys> {
    var name := a.read.name;
    if name !in s.store || s.store[name].rv != a.read.rv then None
    else
      var approved := s.store[name].(conditions := a.read.conditions + [OursFor(a.grounds)]);
      Some(Put(s, approved).(approved := s.approved + [s.store[name].uid]))
  }

  /** The reconcile goes on to approve the version it read. */
  predicate Approves(read: Csr, listing: Listing, describe: Describe) {
    !read.deleting && Pending(read.conditions) && Authorize(read.spec, listing, describe) == Ok(true)
  }

  /** An approval is on its way. */
  function Sent(s: Sys, read: Csr, grounds: Grounds): Sys {
    s.(flight := s.flight[read.name := Attempt(read, grounds)])
  }

  /** The queue hands out the name. */
  function Taken(s: Sys, name: string): Sys {
    s.(queued := s.queued - {name})
  }

  function Land(s: Sys, name: string): Sys {
    s.(flight := s.flight - {name})
  }

  /** A reconcile that fails puts its name back. */
  function Requeued(s: Sys, name: string): Sys {
    s.(queued := s.queued + {name})
  }

  /** The name waits, and no reconcile of it is in flight: the queue never processes one name twice at once. */
  predicate Ready(s: Sys, name: string) {
    name in s.queued && name !in s.flight
  }

  /** The reconcile of the version it read, up to its approval. */
  function Reviewed(s: Sys, read: Csr, listing: Listing, describe: Describe, cloud: map<string, Instance>): Sys {
    if read.deleting || !Pending(read.conditions) then Taken(s, read.name)
    else
      match Authorize(read.spec, listing, describe)
      case Err(_) => s
      case Ok(authorized) =>
        if authorized then Sent(Taken(s, read.name), read, Grounds(listing.value, cloud)) else Taken(s, read.name)
  }

  function Step(s: Sys, e: Event): Sys {
    match e
    case Create(name, spec) =>
      if name in s.store then s else Put(s, Csr(name, s.clock, 0, false, spec, []))
    case Decide(name, kind) =>
      if name !in s.store then s
      else Put(s, s.store[name].(conditions := s.store[name].conditions + [Condition(kind, None)]))
    case Touch(name) => if name !in s.store then s else Put(s, s.store[name])
    case MarkDeleting(name) => if name !in s.store then s else Put(s, s.store[name].(deleting := true))
    case Remove(name) => s.(store := s.store - {name})
    case Notify(version) =>
      if version in s.past && Selected(version.spec, version.conditions) then
        s.(noticed := s.noticed + {version.name}, queued := s.queued + {version.name})
      else s
    case Miss(name) => if Ready(s, name) then Taken(s, name) else s
    case Review(read, listing, describe, cloud) =>
      if read in s.past && Ready(s, read.name) then Reviewed(s, read, listing, describe, cloud) else s
    case Submit(name) =>
      if name !in s.flight then s
      else
        var updated := UpdateApproval(s, s.flight[name]);
        if updated.Some? then Land(updated.value, name) else Requeued(Land(s, name), name)
    case Lose(name) => if name in s.flight then Requeued(Land(s, name), name) else s
  }

  function Run(s: Sys, es: seq<Event>): Sys
    decreases |es|
  {
    if |es| == 0 then s else Run(Step(s, es[0]), es[1..])
  }

  /** DescribeInstances returns what was requested; nothing is assumed about caches or about others. */
  ghost predicate Admissible(e: Event) {
    e.Review? ==> Faithful(e.describe, e.cloud)
  }

  ghost predicate AdmissibleAll(es: seq<Event>) {
    forall i :: 0 <= i < |es| ==> Admissible(es[i])
  }

  predicate Foreign(csr: Csr) {
    forall c :: c in csr.conditions ==> c.ours.None?
  }

  /** The controller starts: it has approved nothing yet, and versions are handed out by the clock. */
  ghost predicate Init(s: Sys) {
    && s.noticed == {} && s.queued == {} && s.flight == map[] && s.approved == []
    && (forall name :: name in s.store ==> s.store[name].name == name && s.store[name] in s.past)
    && (forall v :: v in s.past ==> v.rv < s.clock && v.uid < s.clock && Foreign(v))
    && (forall v, w :: v in s.past && w in s.past ==> Consistent(v, w))
  }

  /** A resource version identifies a version; a uid identifies a name and a spec. */
  predicate Consistent(v: Csr, w: Csr) {
    && (v.rv == w.rv ==> v == w)
    && (v.uid == w.uid ==> v.name == w.name && v.spec == w.spec)
  }

  /** Each condition of this controller is a justified approval, and nothing was decided before it. */
  ghost predicate Sound(csr: Csr) {
    forall i :: 0 <= i < |csr.conditions| && csr.conditions[i].ours.Some? ==>
      && csr.conditions[i].kind == Approved
      && Pending(csr.conditions[..i])
      && Entitled(csr.spec, csr.conditions[i].ours.value.claims, csr.conditions[i].ours.value.cloud)
  }

  ghost predicate VersionOk(s: Sys, v: Csr) {
    && v.rv < s.clock && v.uid < s.clock && Sound(v)
    && (!Foreign(v) ==> v.name in s.noticed)
  }

  ghost predicate StoredOk(s: Sys, name: string)
    requires name in s.store
  {
    && s.store[name].name == name && s.store[name] in s.past
    && (s.store[name].uid in s.approved ==> !Pending(s.store[name].conditions))
  }

  ghost predicate NoticedOk(s: Sys, name: string) {
    exists v :: v in s.past && v.name == name && Requestable(v.spec)
  }

  ghost predicate AttemptOk(s: Sys, name: string)
    requires name in s.flight
  {
    var a := s.flight[name];
    && a.read.name == name && a.read in s.past && name in s.noticed
    && !a.read.deleting && Pending(a.read.conditions)
    && Entitled(a.read.spec, a.grounds.claims, a.grounds.cloud)
  }

  ghost predicate Inv(s: Sys) {
    && (forall v :: v in s.past ==> VersionOk(s, v))
    && (forall v, w :: v in s.past && w in s.past ==> Consistent(v, w))
    && (forall name :: name in s.store ==> StoredOk(s, name))
    && (forall name :: name in s.noticed ==> NoticedOk(s, name)) && s.queued <= s.noticed
    && (forall name :: name in s.flight ==> AttemptOk(s, name))
    && (forall u :: u in s.approved ==> u < s.clock && multiset(s.approved)[u] == 1)
  }

  /** `csr` may be stored next: a new object, or a next version of the stored one. */
  ghost predicate Storable(s: Sys, csr: Csr) {
    && csr.uid <= s.clock && Sound(csr)
    && (forall v :: v in s.past && v.uid == csr.uid ==> v.name == csr.name && v.spec == csr.spec)
    && (!Foreign(csr) ==> csr.name in s.noticed)
    && (csr.uid in s.approved ==> !Pending(csr.conditions))
  }

  lemma PutKeepsInv(s: Sys, csr: Csr)
    requires Inv(s) && Storable(s, csr)
    ensures Inv(Put(s, csr))
  {
    var s', stored := Put(s, csr), csr.(rv := s.clock);
    assert Sound(stored);
    assert Foreign(csr) ==> Foreign(stored);
    forall v | v in s'.past ensures VersionOk(s', v) { if v != stored { assert VersionOk(s, v); } }
    forall v, w | v in s'.past && w in s'.past ensures Consistent(v, w) {
      if v != stored { assert VersionOk(s, v); }
      if w != stored { assert VersionOk(s, w); }
      if v != stored && w != stored { assert Consistent(v, w); }
    }
    forall name | name in s'.store ensures StoredOk(s', name) { if name != csr.name { assert StoredOk(s, name); } }
    forall name | name in s'.noticed ensures NoticedOk(s', name) { NoticedStays(s, s', name); }
    forall name | name in s'.flight ensures AttemptOk(s', name) { assert AttemptOk(s, name); }
  }

  lemma NoticedStays(s: Sys, s': Sys, name: string)
    requires NoticedOk(s, name) && s.past <= s'.past
    ensures NoticedOk(s', name)
  {
    var v :| v in s.past && v.name == name && Requestable(v.spec);
    assert v in s'.past;
  }

  /** A next version of a stored CSR keeps its identity. */
  lemma NextIsStorable(s: Sys, name: string, csr: Csr)
    requires Inv(s) && name in s.store && Sound(csr)
    requires csr.name == name && csr.uid == s.store[name].uid && csr.spec == s.store[name].spec
    requires !Foreign(csr) ==> name in s.noticed
    requires csr.uid in s.approved ==> !Pending(csr.conditions)
    ensures Storable(s, csr)
  {
    assert StoredOk(s, name);
    assert VersionOk(s, s.store[name]);
    forall v | v in s.past && v.uid == csr.uid ensures v.name == csr.name && v.spec == csr.spec {
      assert Consistent(v, s.store[name]);
    }
  }

  /** A condition that others append, also to a CSR that is approved by now. */
  lemma AppendKeepsSound(csr: Csr, c: Condition)
    requires Sound(csr) && c.ours.None?
    ensures Sound(csr.(conditions := csr.conditions + [c]))
    ensures Foreign(csr) ==> Foreign(csr.(conditions := csr.conditions + [c]))
    ensures !Pending(csr.conditions) ==> !Pending(csr.conditions + [c])
  {
    var csr' := csr.(conditions := csr.conditions + [c]);
    forall i | 0 <= i < |csr'.conditions| && csr'.conditions[i].ours.Some?
      ensures csr'.conditions[..i] == csr.conditions[..i] && csr'.conditions[i] == csr.conditions[i]
    {
    }
    if !Pending(csr.conditions) {
      var d :| d in csr.conditions && Decision(d);
      assert d in csr.conditions + [c];
    }
  }

  lemma StoredIsOk(s: Sys, name: string)
    requires Inv(s) && name in s.store
    ensures StoredOk(s, name) && VersionOk(s, s.store[name])
  {
  }

  lemma CreateKeepsInv(s: Sys, name: string, spec: Spec)
    requires Inv(s) && name !in s.store
    ensures Inv(Step(s, Create(name, spec)))
  {
    var csr := Csr(name, s.clock, 0, false, spec, []);
    forall v | v in s.past ensures v.uid < s.clock { assert VersionOk(s, v); }
    PutKeepsInv(s, csr);
  }

  lemma DecideKeepsInv(s: Sys, name: string, kind: Kind)
    requires Inv(s) && name in s.store
    ensures Inv(Step(s, Decide(name, kind)))
  {
    StoredIsOk(s, name);
    AppendKeepsSound(s.store[name], Condition(kind, None));
    var csr := s.store[name].(conditions := s.store[name].conditions + [Condition(kind, None)]);
    NextIsStorable(s, name, csr);
    PutKeepsInv(s, csr);
  }

  /** A write that touches no condition. */
  lemma RewriteKeepsInv(s: Sys, name: string, deleting: bool)
    requires Inv(s) && name in s.store
    ensures Inv(Put(s, s.store[name].(deleting := deleting)))
  {
    StoredIsOk(s, name);
    var csr := s.store[name].(deleting := deleting);
    assert Sound(csr);
    assert Foreign(s.store[name]) ==> Foreign(csr);
    NextIsStorable(s, name, csr);
    PutKeepsInv(s, csr);
  }

  lemma RemoveKeepsInv(s: Sys, name: string)
    requires Inv(s)
    ensures Inv(Step(s, Remove(name)))
  {
    var s' := Step(s, Remove(name));
    forall n | n in s'.store ensures StoredOk(s', n) { assert StoredOk(s, n); }
    forall v | v in s'.past ensures VersionOk(s', v) { assert VersionOk(s, v); }
    forall n | n in s'.noticed ensures NoticedOk(s', n) { NoticedStays(s, s', n); }
    forall n | n in s'.flight ensures AttemptOk(s', n) { assert AttemptOk(s, n); }
  }

  lemma NotifyKeepsInv(s: Sys, version: Csr)
    requires Inv(s)
    ensures Inv(Step(s, Notify(version)))
  {
    var s' := Step(s, Notify(version));
    forall v | v in s'.past ensures VersionOk(s', v) { assert VersionOk(s, v); }
    forall n | n in s'.store ensures StoredOk(s', n) { assert StoredOk(s, n); }
    forall n | n in s'.noticed ensures NoticedOk(s', n) { if n in s.noticed { NoticedStays(s, s', n); } }
    forall n | n in s'.flight ensures AttemptOk(s', n) { assert AttemptOk(s, n); }
  }

  lemma FlightKeepsInv(s: Sys, flight: map<string, Attempt>, queued: set<string>)
    requires Inv(s) && queued <= s.noticed
    requires var s' := s.(flight := flight, queued := queued); forall n :: n in flight ==> AttemptOk(s', n)
    ensures Inv(s.(flight := flight, queued := queued))
  {
    var s' := s.(flight := flight, queued := queued);
    forall v | v in s'.past ensures VersionOk(s', v) { assert VersionOk(s, v); }
    forall n | n in s'.store ensures StoredOk(s', n) { assert StoredOk(s, n); }
    forall n | n in s'.noticed ensures NoticedOk(s', n) { NoticedStays(s, s', n); }
  }

  lemma QueueKeepsInv(s: Sys, queued: set<string>)
    requires Inv(s) && queued <= s.noticed
    ensures Inv(s.(queued := queued))
  {
    forall n | n in s.flight ensures AttemptOk(s.(queued := queued), n) { assert AttemptOk(s, n); }
    FlightKeepsInv(s, s.flight, queued);
  }

  lemma ReviewSends(s: Sys, read: Csr, listing: Listing, describe: Describe, cloud: map<string, Instance>)
    requires read in s.past && Ready(s, read.name) && Approves(read, listing, describe)
    ensures Step(s, Review(read, listing, describe, cloud))
         == Sent(Taken(s, read.name), read, Grounds(listing.value, cloud))
  {
  }

  lemma SentKeepsInv(s: Sys, read: Csr, grounds: Grounds)
    requires Inv(s) && read in s.past && read.name in s.noticed && !read.deleting && Pending(read.conditions)
    requires Entitled(read.spec, grounds.claims, grounds.cloud)
    ensures Inv(Sent(s, read, grounds))
  {
    var s' := Sent(s, read, grounds);
    forall n | n in s'.flight ensures AttemptOk(s', n) { if n != read.name { assert AttemptOk(s, n); } }
    FlightKeepsInv(s, s'.flight, s.queued);
  }

  lemma ReviewKeepsInv(s: Sys, e: Event)
    requires Inv(s) && e.Review? && Admissible(e)
    ensures Inv(Step(s, e))
  {
    var read := e.read;
    QueueKeepsInv(s, s.queued - {read.name});
    if read in s.past && Ready(s, read.name) && Approves(read, e.listing, e.describe) {
      AuthorizedMeansEntitled(read.spec, e.listing, e.describe, e.cloud);
      SentKeepsInv(Taken(s, read.name), read, Grounds(e.listing.value, e.cloud));
      ReviewSends(s, read, e.listing, e.describe, e.cloud);
    }
  }

  lemma LandKeepsInv(s: Sys, name: string)
    requires Inv(s)
    ensures Inv(Land(s, name))
    ensures name in s.noticed ==> Inv(Requeued(Land(s, name), name))
  {
    var s' := Land(s, name);
    forall n | n in s'.flight ensures AttemptOk(s', n) { assert AttemptOk(s, n); }
    FlightKeepsInv(s, s'.flight, s.queued);
    if name in s.noticed { QueueKeepsInv(s', s'.queued + {name}); }
  }

  /** The version check: an accepted update was computed from the version that is stored when it arrives. */
  lemma CheckedVersionIsStored(s: Sys, name: string)
    requires Inv(s) && name in s.flight && UpdateApproval(s, s.flight[name]).Some?
    ensures name in s.store && s.store[name] == s.flight[name].read
  {
    assert AttemptOk(s, name);
    assert StoredOk(s, name);
    assert Consistent(s.store[name], s.flight[name].read);
  }

  lemma ApprovalIsSound(read: Csr, grounds: Grounds)
    requires Sound(read) && Pending(read.conditions) && Entitled(read.spec, grounds.claims, grounds.cloud)
    ensures Sound(read.(conditions := read.conditions + [OursFor(grounds)]))
  {
    var csr' := read.(conditions := read.conditions + [OursFor(grounds)]);
    var n := |read.conditions|;
    forall i | 0 <= i < |csr'.conditions| && csr'.conditions[i].ours.Some?
      ensures csr'.conditions[i].kind == Approved && Pending(csr'.conditions[..i])
      ensures Entitled(csr'.spec, csr'.conditions[i].ours.value.claims, csr'.conditions[i].ours.value.cloud)
    {
      assert csr'.conditions[..i] == read.conditions[..i];
      if i == n { assert read.conditions[..n] == read.conditions; }
      else { assert csr'.conditions[i] == read.conditions[i]; }
    }
  }

  lemma ApprovalDecides(conditions: seq<Condition>, grounds: Grounds)
    ensures !Pending(conditions + [OursFor(grounds)])
  {
    assert OursFor(grounds) in conditions + [OursFor(grounds)];
  }

  lemma AccountKeepsInv(s: Sys, uid: nat)
    requires Inv(s) && uid < s.clock && uid !in s.approved
    requires forall n :: n in s.store && s.store[n].uid == uid ==> !Pending(s.store[n].conditions)
    ensures Inv(s.(approved := s.approved + [uid]))
  {
    var s' := s.(approved := s.approved + [uid]);
    forall v | v in s'.past ensures VersionOk(s', v) { assert VersionOk(s, v); }
    forall n | n in s'.store ensures StoredOk(s', n) { assert StoredOk(s, n); }
    forall n | n in s'.noticed ensures NoticedOk(s', n) { NoticedStays(s, s', n); }
    forall n | n in s'.flight ensures AttemptOk(s', n) { assert AttemptOk(s, n); }
    assert multiset(s'.approved) == multiset(s.approved) + multiset{uid};
  }

  lemma SubmitKeepsInv(s: Sys, name: string)
    requires Inv(s) && name in s.flight && UpdateApproval(s, s.flight[name]).Some?
    ensures Inv(UpdateApproval(s, s.flight[name]).value)
  {
    CheckedVersionIsStored(s, name);
    assert AttemptOk(s, name);
    StoredIsOk(s, name);
    var read, grounds := s.flight[name].read, s.flight[name].grounds;
    ApprovalIsSound(read, grounds);
    ApprovalDecides(read.conditions, grounds);
    var csr := read.(conditions := read.conditions + [OursFor(grounds)]);
    NextIsStorable(s, name, csr);
    PutKeepsInv(s, csr);
    var s1 := Put(s, csr);
    forall n | n in s.store && s.store[n].uid == read.uid ensures n == name {
      StoredIsOk(s, n);
      assert Consistent(s.store[n], read);
    }
    AccountKeepsInv(s1, read.uid);
  }

  lemma OthersKeepInv(s: Sys, e: Event)
    requires Inv(s) && (e.Create? || e.Decide? || e.Touch? || e.MarkDeleting? || e.Remove?)
    ensures Inv(Step(s, e))
  {
    match e
    case Create(name, spec) => if name !in s.store { CreateKeepsInv(s, name, spec); }
    case Decide(name, kind) => if name in s.store { DecideKeepsInv(s, name, kind); }
    case Touch(name) =>
      if name in s.store {
        RewriteKeepsInv(s, name, s.store[name].deleting);
        assert s.store[name].(deleting := s.store[name].deleting) == s.store[name];
      }
    case MarkDeleting(name) => if name in s.store { RewriteKeepsInv(s, name, true); }
    case Remove(name) => RemoveKeepsInv(s, name);
  }

  lemma ArrivalKeepsInv(s: Sys, name: string)
    requires Inv(s)
    ensures Inv(Step(s, Submit(name)))
  {
    if name in s.flight {
      assert AttemptOk(s, name);
      if UpdateApproval(s, s.flight[name]).Some? {
        SubmitKeepsInv(s, name);
        LandKeepsInv(UpdateApproval(s, s.flight[name]).value, name);
      } else {
        LandKeepsInv(s, name);
      }
    }
  }

  lemma LossKeepsInv(s: Sys, name: string)
    requires Inv(s)
    ensures Inv(Step(s, Lose(name)))
  {
    if name in s.flight {
      assert AttemptOk(s, name);
      LandKeepsInv(s, name);
    }
  }

  lemma StepKeepsInv(s: Sys, e: Event)
    requires Inv(s) && Admissible(e)
    ensures Inv(Step(s, e))
  {
    match e
    case Notify(version) => NotifyKeepsInv(s, version);
    case Review(_, _, _, _) => ReviewKeepsInv(s, e);
    case Miss(name) => QueueKeepsInv(s, s.queued - {name});
    case Submit(name) => ArrivalKeepsInv(s, name);
    case Lose(name) => LossKeepsInv(s, name);
    case _ => OthersKeepInv(s, e);
  }

  lemma InitMeansInv(s: Sys)
    requires Init(s)
    ensures Inv(s)
  {
    forall v | v in s.past ensures VersionOk(s, v) {
      assert Foreign(v);
      forall i | 0 <= i < |v.conditions| ensures v.conditions[i].ours.None? { assert v.conditions[i] in v.conditions; }
    }
  }

  lemma {:induction false} RunKeepsInv(s: Sys, es: seq<Event>)
    requires Inv(s) && AdmissibleAll(es)
    ensures Inv(Run(s, es))
    decreases |es|
  {
    if es != [] {
      assert Admissible(es[0]);
      StepKeepsInv(s, es[0]);
      forall i | 0 <= i < |es[1..]| ensures Admissible(es[1..][i]) { assert es[1..][i] == es[i + 1]; }
      RunKeepsInv(Step(s, es[0]), es[1..]);
    }
  }

  /******* Main results *******/

  /**
   Over every run, with a cache that may show any old version: on every stored CSR, each condition of this controller
   is an approval that the NodeClaims and instances it saw justify, and no decision stands before it. No CSR is
   approved twice.
   */
  lemma ApprovalsAreSoundAndSingle(s0: Sys, es: seq<Event>)
    requires Init(s0) && AdmissibleAll(es)
    ensures var s := Run(s0, es);
      && (forall name :: name in s.store ==> Sound(s.store[name]))
      && (forall uid: nat :: multiset(s.approved)[uid] <= 1)
  {
    InitMeansInv(s0);
    RunKeepsInv(s0, es);
    var s := Run(s0, es);
    forall name | name in s.store ensures Sound(s.store[name]) { StoredIsOk(s, name); }
    forall uid: nat ensures multiset(s.approved)[uid] <= 1 {
      if uid in s.approved { assert multiset(s.approved)[uid] == 1; }
    }
  }

  /**
   A call of the controller changes nothing, or it appends one approval to a CSR that is stored, not deleting and
   undecided when the call arrives.
   */
  lemma ApprovalHitsAPendingCsr(s0: Sys, es: seq<Event>, name: string)
    requires Init(s0) && AdmissibleAll(es)
    ensures var s, s' := Run(s0, es), Step(Run(s0, es), Submit(name));
      s'.store != s.store ==>
        name in s.store && name in s.flight &&
        var csr := s.store[name];
        && !csr.deleting && Pending(csr.conditions) && csr.uid !in s.approved
        && s'.approved == s.approved + [csr.uid]
        && s'.store == s.store[name :=
             csr.(rv := s.clock, conditions := csr.conditions + [OursFor(s.flight[name].grounds)])]
  {
    InitMeansInv(s0);
    RunKeepsInv(s0, es);
    var s := Run(s0, es);
    if Step(s, Submit(name)).store != s.store {
      CheckedVersionIsStored(s, name);
      assert AttemptOk(s, name);
      assert StoredOk(s, name);
    }
  }

  /** No name was used for two CSRs. */
  ghost predicate NamesAreUnique(s: Sys) {
    forall v, w :: v in s.past && w in s.past && v.name == w.name ==> v.uid == w.uid
  }

  /**
   The filter of the watch is not asked again by the reconcile. Over every run, a CSR that carries an approval of this
   controller has a name under which some CSR passed the filter; as long as no name is used twice, it is the CSR itself.
   */
  lemma ApprovedCsrsPassedTheFilter(s0: Sys, es: seq<Event>, name: string)
    requires Init(s0) && AdmissibleAll(es)
    requires name in Run(s0, es).store && !Foreign(Run(s0, es).store[name])
    ensures var s := Run(s0, es);
      && (exists v :: v in s.past && v.name == name && Requestable(v.spec))
      && (NamesAreUnique(s) ==> Requestable(s.store[name].spec))
    ensures var s := Run(s0, es); var spec := s.store[name].spec;
      NamesAreUnique(s) ==>
        || (spec.signer.KubeAPIServerClientKubelet?
            && spec.username == "system:serviceaccount:openshift-machine-config-operator:node-bootstrapper")
        || (spec.signer.KubeletServing? && "system:nodes" in spec.groups)
  {
    InitMeansInv(s0);
    RunKeepsInv(s0, es);
    var s := Run(s0, es);
    StoredIsOk(s, name);
    assert NoticedOk(s, name);
    var v :| v in s.past && v.name == name && Requestable(v.spec);
    assert Consistent(v, s.store[name]);
  }

  /** With these answers the next reconcile of the name approves what is stored under it. */
  ghost predicate ApprovesNow(s: Sys, name: string, review: Event)
    requires name in s.store
  {
    && review.Review? && Admissible(review) && review.read == s.store[name]
    && Step(Step(s, review), Submit(name)).approved == s.approved + [s.store[name].uid]
  }

  lemma ApprovesOnlyQueued(s: Sys, name: string, review: Event)
    requires name in s.store && s.store[name].name == name && name !in s.flight && ApprovesNow(s, name, review)
    ensures name in s.queued && Approves(s.store[name], review.listing, review.describe)
  {
    assert |s.approved| != |s.approved + [s.store[name].uid]|;
    assert Step(Step(s, review), Submit(name)).approved != s.approved;
  }

  lemma GrantedIsNamed(read: Csr, listing: Listing, describe: Describe, cloud: map<string, Instance>)
    requires Faithful(describe, cloud) && Approves(read, listing, describe)
    ensures RequestedName(read.spec).Some?
  {
    AuthorizedMeansEntitled(read.spec, listing, describe, cloud);
  }

  lemma GrantIsApproved(s: Sys, name: string, listing: Listing, describe: Describe, cloud: map<string, Instance>)
    requires name in s.store && s.store[name].name == name && s.store[name] in s.past && Ready(s, name)
    requires Approves(s.store[name], listing, describe) && Faithful(describe, cloud)
    ensures ApprovesNow(s, name, Review(s.store[name], listing, describe, cloud))
  {
    var read, grounds := s.store[name], Grounds(listing.value, cloud);
    ReviewSends(s, read, listing, describe, cloud);
    SentIsApproved(Taken(s, name), name, grounds);
  }

  lemma SentIsApproved(s: Sys, name: string, grounds: Grounds)
    requires name in s.store && s.store[name].name == name
    ensures Step(Sent(s, s.store[name], grounds), Submit(name)).approved == s.approved + [s.store[name].uid]
  {
  }

  /**
   Exactly which CSRs the next reconcile can approve: an undecided one is approved for some answers of the cluster and
   the cloud exactly when its name is queued and it asks for a node name. Whether the CSR itself would pass the filter
   does not matter.
   */
  lemma ApprovableIffQueuedAndNamed(s: Sys, name: string)
    requires Inv(s) && name in s.store && name !in s.flight
    requires !s.store[name].deleting && Pending(s.store[name].conditions)
    ensures (exists review :: ApprovesNow(s, name, review)) <==>
      name in s.queued && RequestedName(s.store[name].spec).Some?
  {
    StoredIsOk(s, name);
    if review :| ApprovesNow(s, name, review) {
      ApprovesOnlyQueued(s, name, review);
      GrantedIsNamed(s.store[name], review.listing, review.describe, review.cloud);
    }
    if name in s.queued && RequestedName(s.store[name].spec).Some? {
      var listing, describe, cloud := NamedIsGrantable(s.store[name].spec);
      GrantIsApproved(s, name, listing, describe, cloud);
    }
  }

  /** The watch delivers a version of the name that the filter lets through. */
  predicate PassesUnder(e: Event, name: string) {
    e.Notify? && e.version.name == name && Selected(e.version.spec, e.version.conditions)
  }

  /** The name waits, or an approval under it is on its way. */
  predicate Waits(s: Sys, name: string) {
    name in s.queued || name in s.flight
  }

  /**
   The controller is done with the name: there is no such CSR, it is being deleted or decided, the authorization says
   no, or the approval is accepted.
   */
  predicate Answers(s: Sys, e: Event, name: string) {
    || e == Miss(name)
    || (e.Review? && e.read.name == name &&
        (e.read.deleting || (exists c :: c in e.read.conditions && (c.kind == Approved || c.kind == Denied))
         || Authorize(e.read.spec, e.listing, e.describe) == Ok(false)))
    || (e == Submit(name) && Step(s, e).approved != s.approved)
  }

  ghost predicate Unanswered(s: Sys, es: seq<Event>, name: string)
    decreases |es|
  {
    |es| == 0 || (!Answers(s, es[0], name) && Unanswered(Step(s, es[0]), es[1..], name))
  }

  lemma StepKeepsWaiting(s: Sys, e: Event, name: string)
    requires Waits(s, name) && !Answers(s, e, name)
    ensures Waits(Step(s, e), name)
  {
  }

  /** And then it is done: the name neither waits nor is in flight, unless the watch brought it in again meanwhile. */
  lemma AnsweredNameIsDone(s: Sys, e: Event, name: string)
    requires Answers(s, e, name)
    requires !e.Submit? ==> Ready(s, name) && (e.Review? ==> e.read in s.past)
    ensures name !in Step(s, e).flight
    ensures name in Step(s, e).queued ==> e.Submit? && name in s.queued
  {
  }

  lemma {:induction false} RunKeepsWaiting(s: Sys, es: seq<Event>, name: string)
    requires Waits(s, name) && Unanswered(s, es, name)
    ensures Waits(Run(s, es), name)
    decreases |es|
  {
    if |es| != 0 {
      StepKeepsWaiting(s, es[0], name);
      RunKeepsWaiting(Step(s, es[0]), es[1..], name);
    }
  }

  /** What the watch brings in: undecided CSRs, of the bootstrapper for client certificates, of nodes for serving. */
  lemma WatchQueuesIff(s: Sys, version: Csr)
    requires version in s.past && version.name !in s.queued
    ensures version.name in Step(s, Notify(version)).queued <==>
      && (forall c :: c in version.conditions ==> c.kind != Approved && c.kind != Denied)
      && match version.spec.signer
         case KubeAPIServerClientKubelet =>
           version.spec.username == "system:serviceaccount:openshift-machine-config-operator:node-bootstrapper"
         case KubeletServing => "system:nodes" in version.spec.groups
         case OtherSigner(_) => false
  {
  }

  /**
   No request is dropped: over every run after the watch has delivered an undecided CSR of a kubelet, its name waits
   until the controller is done with it; failed reviews, conflicts and lost reconciles do not count.
   */
  lemma RequestWaitsUntilAnswered(s: Sys, version: Csr, es: seq<Event>)
    requires version in s.past && forall c :: c in version.conditions ==> c.kind != Approved && c.kind != Denied
    requires
      || (version.spec.signer.KubeAPIServerClientKubelet?
          && version.spec.username == "system:serviceaccount:openshift-machine-config-operator:node-bootstrapper")
      || (version.spec.signer.KubeletServing? && "system:nodes" in version.spec.groups)
    requires Unanswered(Step(s, Notify(version)), es, version.name)
    ensures Waits(Run(Step(s, Notify(version)), es), version.name)
  {
    RunKeepsWaiting(Step(s, Notify(version)), es, version.name);
  }

  /** The name neither waits nor is processed, and what is stored under it carries no approval of this controller. */
  predicate Handled(s: Sys, name: string) {
    name !in s.queued && name !in s.flight && (name in s.store ==> Foreign(s.store[name]))
  }

  lemma WriteOfAHandledName(s: Sys, e: Event, name: string)
    requires Inv(s) && Handled(s, name) && (e.Create? || e.Decide? || e.Touch? || e.MarkDeleting? || e.Remove?)
    ensures Handled(Step(s, e), name)
  {
    if e.name in s.store { StoredIsOk(s, e.name); }
    if e.Decide? && e.name in s.store { AppendKeepsSound(s.store[e.name], Condition(e.kind, None)); }
  }

  lemma SubmitOfAnotherName(s: Sys, other: string, name: string)
    requires Inv(s) && Handled(s, name)
    ensures Handled(Step(s, Submit(other)), name)
  {
    if other in s.flight { assert AttemptOk(s, other); }
  }

  lemma StepOfAHandledName(s: Sys, e: Event, name: string)
    requires Inv(s) && Handled(s, name) && !PassesUnder(e, name)
    ensures Handled(Step(s, e), name)
  {
    if e.Submit? {
      SubmitOfAnotherName(s, e.name, name);
    } else if e.Create? || e.Decide? || e.Touch? || e.MarkDeleting? || e.Remove? {
      WriteOfAHandledName(s, e, name);
    }
  }

  /**
   Once the item of a name is handled, its next CSR is filtered again: over every run in which the watch delivers no
   version of the name that passes the filter, the controller approves nothing under it.
   */
  lemma {:induction false} HandledNameIsFilteredAgain(s: Sys, es: seq<Event>, name: string)
    requires Inv(s) && AdmissibleAll(es) && Handled(s, name)
    requires forall i :: 0 <= i < |es| ==> !PassesUnder(es[i], name)
    ensures Handled(Run(s, es), name)
    decreases |es|
  {
    if |es| != 0 {
      assert Admissible(es[0]) && !PassesUnder(es[0], name);
      StepKeepsInv(s, es[0]);
      StepOfAHandledName(s, es[0], name);
      forall i | 0 <= i < |es[1..]| ensures Admissible(es[1..][i]) && !PassesUnder(es[1..][i], name) {
        assert es[1..][i] == es[i + 1];
      }
      HandledNameIsFilteredAgain(Step(s, es[0]), es[1..], name);
    }
  }

  /** A CSR passes the filter and is deleted while its name still waits. */
  function Freed(s: Sys, name: string, first: Spec): Sys
    requires name !in s.store
  {
    var created := Step(s, Create(name, first));
    Step(Step(created, Notify(created.store[name])), Remove(name))
  }

  lemma FreedNameIsQueued(s: Sys, name: string, first: Spec)
    requires Inv(s) && name !in s.store && name !in s.flight && Requestable(first)
    ensures var t := Freed(s, name, first); Inv(t) && name in t.queued && name !in t.store && name !in t.flight
  {
    CreateKeepsInv(s, name, first);
    var created := Step(s, Create(name, first));
    NotifyKeepsInv(created, created.store[name]);
    RemoveKeepsInv(Step(created, Notify(created.store[name])), name);
  }

  /**
   Until then it is not: from every state of the protocol in which a name is free, a CSR can pass the filter and be
   deleted, and the next reconcile can approve a new CSR of that name exactly when it asks for a node name.
   */
  lemma WaitingNameIsNotFilteredAgain(s: Sys, name: string, first: Spec, second: Spec)
    requires Inv(s) && name !in s.store && name !in s.flight && Requestable(first)
    ensures name !in Freed(s, name, first).store
    ensures var t := Step(Freed(s, name, first), Create(name, second));
      && name in t.store && t.store[name].spec == second
      && ((exists review :: ApprovesNow(t, name, review)) <==> RequestedName(second).Some?)
  {
    FreedNameIsQueued(s, name, first);
    CreateKeepsInv(Freed(s, name, first), name, second);
    ApprovableIffQueuedAndNamed(Step(Freed(s, name, first), Create(name, second)), name);
  }

  /******* The reconcile *******/

  /** An event that is not part of a reconcile of this CSR: the queue never processes one name twice at once. */
  predicate Elsewhere(e: Event, name: string) {
    match e
    case Miss(n) => n != name
    case Review(read, _, _, _) => read.name != name
    case Submit(n) => n != name
    case Lose(n) => n != name
    case _ => true
  }

  lemma {:induction false} OthersLeaveTheAttempt(s: Sys, es: seq<Event>, name: string)
    requires name in s.flight && forall i :: 0 <= i < |es| ==> Elsewhere(es[i], name)
    ensures name in Run(s, es).flight && Run(s, es).flight[name] == s.flight[name]
    decreases |es|
  {
    if |es| != 0 {
      assert Elsewhere(es[0], name);
      forall i | 0 <= i < |es[1..]| ensures Elsewhere(es[1..][i], name) { assert es[1..][i] == es[i + 1]; }
      OthersLeaveTheAttempt(Step(s, es[0]), es[1..], name);
    }
  }

  lemma {:induction false} RunAppend(s: Sys, es: seq<Event>, e: Event)
    ensures Run(s, es + [e]) == Step(Run(s, es), e)
    decreases |es|
  {
    if |es| == 0 {
      assert es + [e] == [e];
      assert Run(Step(s, e), [e][1..]) == Step(s, e);
    } else {
      assert (es + [e])[1..] == es[1..] + [e];
      RunAppend(Step(s, es[0]), es[1..], e);
    }
  }

  class Controller {
    var sys: Sys

    constructor (sys: Sys)
      ensures this.sys == sys
    {
      this.sys := sys;
    }

    /**
     One reconcile. `cached` is what its read returns, `items` or `failed` what its listing returns, and `others` is
     what happens before its UpdateApproval arrives. It is a Review of the machine, followed by a Submit if approved.
     */
    method Reconcile(name: string, getFailed: bool, cached: Option<Csr>, items: array<NodeClaim>, failed: Option<Fault>,
                     describe: Describe, cloud: map<string, Instance>, others: seq<Event>) returns (err: bool)
      requires Ready(sys, name)
      requires cached.Some? ==> cached.value in sys.past && cached.value.name == name
      requires forall i :: 0 <= i < |others| ==> Elsewhere(others[i], name)
      modifies this, items
      ensures getFailed ==> sys == old(sys) && err
      ensures !getFailed && cached.None? ==> sys == Step(old(sys), Miss(name)) && !err
      ensures !getFailed && cached.Some? ==>
        var listing := Listed(old(items[..]), failed);
        var review := Review(cached.value, listing, describe, cloud);
        if Approves(cached.value, listing, describe) then
          && sys == Run(Step(old(sys), review), others + [Submit(name)])
          && (err <==> |sys.approved| == |Run(Step(old(sys), review), others).approved|)
        else
          && sys == Step(old(sys), review)
          && (err <==> !cached.value.deleting && Pending(cached.value.conditions) &&
                       Authorize(cached.value.spec, listing, describe).Err?)
    {
      if getFailed { return true; }
      if cached.None? {
        sys := Taken(sys, name);
        return false;
      }
      var csr := cached.value;
      var pending := IsCertificateRequestPending(csr.conditions);
      if csr.deleting || !pending {
        sys := Taken(sys, name);
        return false;
      }

      var seen := items[..];
      var authorized := AuthorizeCSR(csr.spec, items, failed, describe);
      if authorized.Err? { return true; }
      if authorized.value { ReviewSends(sys, csr, Ok(seen), describe, cloud); }
      sys := Taken(sys, name);
      if !authorized.value { return false; }
      err := Approve(csr, Grounds(seen, cloud), others);
    }

    method Approve(csr: Csr, grounds: Grounds, others: seq<Event>) returns (err: bool)
      requires csr.name !in sys.flight && forall i :: 0 <= i < |others| ==> Elsewhere(others[i], csr.name)
      modifies this
      ensures var sent := Sent(old(sys), csr, grounds);
        && sys == Run(sent, others + [Submit(csr.name)])
        && (err <==> |sys.approved| == |Run(sent, others).approved|)
    {
      sys := Sent(sys, csr, grounds);
      ghost var sent := sys;
      OthersLeaveTheAttempt(sent, others, csr.name);
      RunAppend(sent, others, Submit(csr.name));
      sys := Run(sys, others);
      var conditions := csr.conditions + [OursFor(grounds)];
      err := csr.name !in sys.store || sys.store[csr.name].rv != csr.rv;
      if !err {
        var stored := sys.store[csr.name];
        sys := Put(sys, stored.(conditions := conditions)).(approved := sys.approved + [stored.uid]);
      }
      sys := Land(sys, csr.name);
      if err { sys := Requeued(sys, csr.name); }
    }
  }
}
