/** Subnets of a terminating OpenshiftEC2NodeClass stay in the published list until its EC2NodeClass is gone. */
module SubnetRetention {
  import opened Wrappers
  import opened Finalizers
  import opened Subnets
  import opened Mirror
  import opened MirrorHistory

  lemma ActKeepsHistory(s: Sys, spec: int, status: int)
    requires Shaped(s.w)
    ensures s.w.owners <= Act(s, spec, status).w.owners
  {
    match s.pc
    case Write(at, read, cached) =>
      if cached < |s.w.deriveds| {
        assert CreateOrUpdate(s, at, read, s.w.deriveds[cached], spec).w.owners == s.w.owners;
      }
    case _ =>
  }

  lemma StepKeepsHistory(s: Sys, e: Event)
    ensures s.w.owners <= Step(s, e).w.owners
  {
    if Shaped(s.w) && e.Ctl? { ActKeepsHistory(s, e.spec, e.status); }
  }

  lemma {:induction false} RunKeepsHistory(s: Sys, es: seq<Event>)
    ensures s.w.owners <= Run(s, es).w.owners
    decreases |es|
  {
    if es != [] {
      StepKeepsHistory(s, es[0]);
      RunKeepsHistory(Step(s, es[0]), es[1..]);
    }
  }

  lemma DeletionFreezes(w: World, w': World)
    requires OwnersOk(w') && w.owners != [] && w.owners <= w'.owners
    ensures var before := LiveOwner(w); var after := LiveOwner(w');
      before.Some? && before.value.deleting && after.Some? && after.value.uid == before.value.uid ==>
        after.value.deleting && after.value.subnets == before.value.subnets
  {
    var i, j := |w.owners| - 1, |w'.owners| - 1;
    assert w'.owners[i] == LiveOwner(w);
    if w'.owners[i].Some? && w'.owners[j].Some? && i < j { assert Later(w'.owners[i].value, w'.owners[j].value); }
  }

  /**
   Once an owner is terminating its status subnets never change again, over every run and whatever the caches show: a
   status patch that is still in flight fails its optimistic lock.
   */
  lemma TerminatingSubnetsAreFrozen(s0: Sys, es: seq<Event>, more: seq<Event>)
    requires Init(s0)
    ensures var before := LiveOwner(Run(s0, es).w); var after := LiveOwner(Run(Run(s0, es), more).w);
      before.Some? && before.value.deleting && after.Some? && after.value.uid == before.value.uid ==>
        after.value.deleting && after.value.subnets == before.value.subnets
  {
    InitIsRecorded(s0);
    RunIsRecorded(s0, es);
    var s := Run(s0, es);
    RunIsRecorded(s, more);
    RunKeepsHistory(s, more);
    DeletionFreezes(s.w, Run(s, more).w);
  }

  /** The list in flight covers the owner version that its listing saw. */
  ghost predicate ListCovers(s: Sys) {
    s.subnetPc.Listed? ==>
      && s.subnetPc.at < |s.w.owners|
      && (s.w.owners[s.subnetPc.at].Some? ==>
            AllIDs([s.w.owners[s.subnetPc.at].value.subnets]) <= IDsOf(s.subnetPc.ids))
  }

  ghost function IDsOf(ids: seq<string>): set<string> {
    set x | x in ids
  }

  lemma ResolvedCovers(own: seq<Subnet>, others: seq<seq<Subnet>>)
    ensures AllIDs([own]) <= IDsOf(Resolved([own] + others))
  {
    var all := [own] + others;
    forall x | x in AllIDs([own]) ensures x in AllIDs(all) {
      var i, j :| 0 <= i < |[own]| && 0 <= j < |[own][i]| && [own][i][j].id != "" && [own][i][j].id == x;
      assert all[0][j].id == x;
    }
  }

  lemma GrowingKeepsCovers(s: Sys, s': Sys)
    requires ListCovers(s) && s'.subnetPc == s.subnetPc && s.w.owners <= s'.w.owners
    ensures ListCovers(s')
  {
  }

  lemma ListingCovers(s: Sys, others: seq<seq<Subnet>>)
    requires Shaped(s.w)
    ensures ListCovers(Step(s, ListSubnets(others)))
  {
    var seen := s.w.owners[s.w.ownerSeen];
    if seen.Some? { ResolvedCovers(seen.value.subnets, others); }
  }

  lemma ActKeepsSubnetPc(s: Sys, spec: int, status: int)
    requires Shaped(s.w)
    ensures Act(s, spec, status).subnetPc == s.subnetPc
  {
  }

  lemma StepKeepsCovers(s: Sys, e: Event)
    requires Shaped(s.w) && ListCovers(s)
    ensures ListCovers(Step(s, e))
  {
    StepKeepsHistory(s, e);
    match e
    case ListSubnets(others) => ListingCovers(s, others);
    case WriteSubnets(_) =>
    case Ctl(_, spec, status) => ActKeepsSubnetPc(s, spec, status); GrowingKeepsCovers(s, Step(s, e));
    case Env(_) => GrowingKeepsCovers(s, Step(s, e));
    case Sync(_, _) => GrowingKeepsCovers(s, Step(s, e));
  }

  lemma {:induction false} RunKeepsCovers(s: Sys, es: seq<Event>)
    requires Inv(s) && ListCovers(s) && AdmissibleRun(s, es)
    ensures ListCovers(Run(s, es))
    decreases |es|
  {
    if es != [] {
      StepKeepsCovers(s, es[0]);
      StepKeepsInv(s, es[0]);
      RunKeepsCovers(Step(s, es[0]), es[1..]);
    }
  }

  /**
   Main result across both controllers. A list that is written, computed from a listing that saw the owner
   terminating, contains every subnet the owner has at the time of the write, for as long as its derived object
   exists, however the listing lagged and whatever ran in between.
   */
  lemma WrittenSubnetsAreRetained(s0: Sys, es: seq<Event>)
    requires Init(s0) && AdmissibleRun(s0, es)
    requires var s := Run(s0, es);
      && s.subnetPc.Listed? && s.subnetPc.at < |s.w.owners| && s.w.owners[s.subnetPc.at].Some?
      && s.w.owners[s.subnetPc.at].value.deleting
      && LiveDerived(s.w).Some? && LiveDerived(s.w).value.controller == Some(s.w.owners[s.subnetPc.at].value.uid)
    ensures var s := Run(s0, es);
      && LiveOwner(s.w).Some? && LiveOwner(s.w).value.uid == s.w.owners[s.subnetPc.at].value.uid
      && AllIDs([LiveOwner(s.w).value.subnets]) <= IDsOf(Step(s, WriteSubnets(false)).w.configMap)
  {
    RunKeepsInv(s0, es);
    RunKeepsCovers(s0, es);
    DerivedHasItsOwner(s0, es);
    var s := Run(s0, es);
    assert s.w.owners[s.subnetPc.at].value.subnets == LiveOwner(s.w).value.subnets;
  }

  /******* How recent the listing has to be *******/

  /** While this owner terminates and its derived object exists, the list has the owner's subnets. */
  ghost predicate Retains(w: World, uid: nat, ids: seq<string>) {
    Terminating(w, uid) && Controlled(w, uid) ==> AllIDs([LiveOwner(w).value.subnets]) <= IDsOf(ids)
  }

  /** The list in flight in `t` can be written at any later time, and retains the owner's subnets whenever it is. */
  ghost predicate Good(t: Sys, uid: nat) {
    forall es :: AdmissibleRun(t, es) && Run(t, es).subnetPc == t.subnetPc ==>
      var w := Step(Run(t, es), WriteSubnets(false)).w;
      Retains(w, uid, w.configMap)
  }

  /**
   What the subnet controller publishes: the sorted IDs of the NodeClass as its cache shows it and of all others, none
   of them empty; and the write that follows stores just that.
   */
  lemma ListingMeans(s: Sys, others: seq<seq<Subnet>>)
    requires Shaped(s.w)
    ensures var t := Step(s, ListSubnets(others));
      && t.w == s.w && t.subnetPc.Listed? && StrictlySorted(t.subnetPc.ids)
      && (forall x :: x in t.subnetPc.ids <==>
            || (s.w.owners[s.w.ownerSeen].Some? && x in AllIDs([s.w.owners[s.w.ownerSeen].value.subnets]))
            || x in AllIDs(others))
      && "" !in t.subnetPc.ids
      && Step(t, WriteSubnets(false)).w == s.w.(configMap := t.subnetPc.ids)
      && Step(t, WriteSubnets(true)).w == s.w
  {
    var seen := s.w.owners[s.w.ownerSeen];
    var own := if seen.Some? then [seen.value.subnets] else [];
    IDsOfBoth(own, others);
    AllIDsAreIDs(own + others);
  }

  lemma IDsOfBoth(a: seq<seq<Subnet>>, b: seq<seq<Subnet>>)
    ensures AllIDs(a + b) == AllIDs(a) + AllIDs(b)
  {
    var all := a + b;
    forall x ensures x in AllIDs(all) <==> x in AllIDs(a) || x in AllIDs(b) {
      AllIDsAreIDs(all);
      AllIDsAreIDs(a);
      AllIDsAreIDs(b);
      assert forall l :: l in all <==> l in a || l in b;
    }
  }

  lemma WriteStep(s: Sys)
    requires Shaped(s.w) && s.subnetPc.Listed?
    ensures Step(s, WriteSubnets(false)).w == s.w.(configMap := s.subnetPc.ids)
  {
  }

  predicate Terminating(w: World, uid: nat) {
    LiveOwner(w).Some? && LiveOwner(w).value.uid == uid && LiveOwner(w).value.deleting
  }

  predicate Controlled(w: World, uid: nat) {
    LiveDerived(w).Some? && LiveDerived(w).value.controller == Some(uid)
  }

  /** Puts one admissible step in front of an admissible run. */
  lemma First(s: Sys, e: Event, t: Sys, es: seq<Event>)
    requires Step(s, e) == t && Admissible(s, e) && FreshCheck(s, e) && AdmissibleRun(t, es)
    ensures Run(s, [e] + es) == Run(t, es) && AdmissibleRun(s, [e] + es)
  {
    assert ([e] + es)[1..] == es;
  }

  /** A string longer than every one of `ids`. */
  lemma FreshID(ids: seq<string>) returns (id: string)
    ensures id != "" && forall x :: x in ids ==> |x| < |id|
  {
    id := "s";
    for i := 0 to |ids|
      invariant id != "" && forall x :: x in ids[..i] ==> |x| < |id|
    {
      assert ids[..i + 1] == ids[..i] + [ids[i]];
      id := id + ids[i];
    }
    assert ids[..|ids|] == ids;
  }

  /** A reconcile copies the subnet that the derived object has just resolved, and then the owner is deleted. */
  lemma CopiesThenDeletes(s: Sys, subnet: Subnet) returns (es: seq<Event>)
    requires Inv(s) && s.cloud.EC2? && s.pc.Idle?
    requires LiveOwner(s.w).Some? && !LiveOwner(s.w).value.deleting && Controlled(s.w, LiveOwner(s.w).value.uid)
    requires s.w.ownerSeen == |s.w.owners| - 1 && s.w.derivedSeen == |s.w.deriveds| - 1
    requires LiveDerived(s.w).value.subnets == [subnet]
    ensures AdmissibleRun(s, es) && Run(s, es).subnetPc == s.subnetPc && Shaped(Run(s, es).w)
    ensures var w := Run(s, es).w; var uid := LiveOwner(s.w).value.uid;
      Terminating(w, uid) && Controlled(w, uid) && LiveOwner(w).value.subnets == [subnet]
  {
    var owner, derived := LiveOwner(s.w).value, LiveDerived(s.w).value;
    var at, cached := |s.w.owners| - 1, |s.w.deriveds| - 1;
    var call, delete := Ctl(NoFault, derived.rest, owner.rest + 1), Env(OwnerDelete);
    var copied := owner.(subnets := [subnet], rest := owner.rest + 1);
    var s1 := s.(pc := Fetch(at, owner));
    var s2 := s.(pc := Mirror.Pc.Write(at, owner, cached));
    var s3 := s.(pc := Status(at, owner, derived));
    var s4 := s.(w := PushOwner(s.w, copied));
    var s5 := s4.(w := PushOwner(s4.w, LiveOwner(s4.w).value.(deleting := true)));
    assert Run(s5, []) == s5;
    First(s4, delete, s5, []);
    es := [delete] + [];
    First(s3, call, s4, es);
    es := [call] + es;
    First(s2, call, s3, es);
    es := [call] + es;
    First(s1, call, s2, es);
    es := [call] + es;
    First(s, call, s1, es);
    es := [call] + es;
  }

  /** Before that, the derived object resolves the subnet, and the caches catch up. */
  lemma ResolvesThenCopies(s: Sys, subnet: Subnet) returns (es: seq<Event>)
    requires Inv(s) && s.cloud.EC2? && s.pc.Idle?
    requires LiveOwner(s.w).Some? && !LiveOwner(s.w).value.deleting && Controlled(s.w, LiveOwner(s.w).value.uid)
    ensures AdmissibleRun(s, es) && Run(s, es).subnetPc == s.subnetPc && Shaped(Run(s, es).w)
    ensures var w := Run(s, es).w; var uid := LiveOwner(s.w).value.uid;
      Terminating(w, uid) && Controlled(w, uid) && LiveOwner(w).value.subnets == [subnet]
  {
    var derived := LiveDerived(s.w).value;
    var resolve := Env(DerivedWrite(false, false, [subnet], derived.rest));
    var sync := Sync(|s.w.owners| - 1, |s.w.deriveds|);
    var s1 := s.(w := PushDerived(s.w, Some(derived.(subnets := [subnet]))));
    var s2 := s1.(w := s1.w.(ownerSeen := |s.w.owners| - 1, derivedSeen := |s.w.deriveds|));
    assert Step(s, resolve) == s1 && Step(s1, sync) == s2;
    StepKeepsInv(s, resolve);
    StepKeepsInv(s1, sync);
    es := CopiesThenDeletes(s2, subnet);
    First(s1, sync, s2, es);
    es := [sync] + es;
    First(s, resolve, s1, es);
    es := [resolve] + es;
  }

  /**
   From every state of the protocol in which the owner is not terminating, there is a way on to a state in which it is
   and has a subnet that is not in `ids`, while its derived object still exists.
   */
  lemma SomeSubnetIsMissed(s: Sys, ids: seq<string>) returns (es: seq<Event>)
    requires Inv(s) && s.cloud.EC2?
    requires LiveOwner(s.w).Some? && !LiveOwner(s.w).value.deleting && Controlled(s.w, LiveOwner(s.w).value.uid)
    ensures AdmissibleRun(s, es) && Run(s, es).subnetPc == s.subnetPc && Shaped(Run(s, es).w)
    ensures !Retains(Run(s, es).w, LiveOwner(s.w).value.uid, ids)
  {
    var id := FreshID(ids);
    var stop, idle := Ctl(Refused, 0, 0), s.(pc := Idle);
    StepKeepsInv(s, stop);
    es := ResolvesThenCopies(idle, Subnet(id, "", ""));
    First(s, stop, idle, es);
    es := [stop] + es;
    assert [[Subnet(id, "", "")]][0][0].id in AllIDs([[Subnet(id, "", "")]]);
  }

  lemma VersionsFreeze(w: World, at: nat)
    requires OwnersOk(w) && at < |w.owners| && w.owners[at].Some? && w.owners[at].value.deleting
    ensures Terminating(w, w.owners[at].value.uid) ==> LiveOwner(w).value.subnets == w.owners[at].value.subnets
  {
    var last := |w.owners| - 1;
    if at < last && w.owners[last].Some? { assert Later(w.owners[at].value, w.owners[last].value); }
  }

  /** What a terminating owner has when the list is in flight, it has for good. */
  lemma FrozenIsRetained(t: Sys, es: seq<Event>)
    requires Inv(t) && t.subnetPc.Listed? && Run(t, es).subnetPc == t.subnetPc
    requires LiveOwner(t.w).Some? && LiveOwner(t.w).value.deleting
    requires AllIDs([LiveOwner(t.w).value.subnets]) <= IDsOf(t.subnetPc.ids)
    ensures var w := Step(Run(t, es), WriteSubnets(false)).w; Retains(w, LiveOwner(t.w).value.uid, w.configMap)
  {
    assert Recorded(t);
    RunIsRecorded(t, es);
    RunKeepsHistory(t, es);
    VersionsFreeze(Run(t, es).w, |t.w.owners| - 1);
    WriteStep(Run(t, es));
  }

  lemma NotGood(t: Sys)
    requires Inv(t) && t.cloud.EC2? && t.subnetPc.Listed?
    requires LiveOwner(t.w).Some? && !LiveOwner(t.w).value.deleting && Controlled(t.w, LiveOwner(t.w).value.uid)
    ensures !Good(t, LiveOwner(t.w).value.uid)
  {
    var es := SomeSubnetIsMissed(t, t.subnetPc.ids);
    WriteStep(Run(t, es));
  }

  lemma GoodHasItNow(t: Sys)
    requires Inv(t) && t.subnetPc.Listed? && LiveOwner(t.w).Some? && LiveOwner(t.w).value.deleting
    requires Controlled(t.w, LiveOwner(t.w).value.uid) && Good(t, LiveOwner(t.w).value.uid)
    ensures AllIDs([LiveOwner(t.w).value.subnets]) <= IDsOf(t.subnetPc.ids)
  {
    assert AdmissibleRun(t, []) && Run(t, []) == t;
    WriteStep(t);
    assert Retains(Step(Run(t, []), WriteSubnets(false)).w, LiveOwner(t.w).value.uid, t.subnetPc.ids);
  }

  /**
   Exactly when a list in flight, from a listing of any age, keeps the subnets of an owner that has its EC2NodeClass on
   every way to go on: when the owner is terminating by now and the list has the subnets that it has now. Before the
   owner terminates no list is good.
   */
  lemma RetainedIff(t: Sys)
    requires Inv(t) && t.cloud.EC2? && t.subnetPc.Listed?
    requires LiveOwner(t.w).Some? && Controlled(t.w, LiveOwner(t.w).value.uid)
    ensures Good(t, LiveOwner(t.w).value.uid) <==>
      LiveOwner(t.w).value.deleting && AllIDs([LiveOwner(t.w).value.subnets]) <= IDsOf(t.subnetPc.ids)
  {
    var live := LiveOwner(t.w).value;
    if !live.deleting {
      NotGood(t);
    } else if AllIDs([live.subnets]) <= IDsOf(t.subnetPc.ids) {
      forall es | AdmissibleRun(t, es) && Run(t, es).subnetPc == t.subnetPc
        ensures var w := Step(Run(t, es), WriteSubnets(false)).w; Retains(w, live.uid, w.configMap)
      {
        FrozenIsRetained(t, es);
      }
    } else if Good(t, live.uid) {
      GoodHasItNow(t);
    }
  }

  /**
   So a listing that sees a terminating version gives a good list, and one that sees the latest version gives a good
   list exactly when that version is terminating.
   */
  lemma RetainedIffTerminating(s: Sys, others: seq<seq<Subnet>>)
    requires Inv(s) && s.cloud.EC2? && s.w.owners[s.w.ownerSeen].Some? && LiveOwner(s.w).Some?
    requires s.w.owners[s.w.ownerSeen].value.uid == LiveOwner(s.w).value.uid
    requires Controlled(s.w, LiveOwner(s.w).value.uid)
    ensures var t := Step(s, ListSubnets(others)); var uid := LiveOwner(s.w).value.uid;
      && (s.w.ownerSeen == |s.w.owners| - 1 ==> (Good(t, uid) <==> LiveOwner(s.w).value.deleting))
      && (s.w.owners[s.w.ownerSeen].value.deleting ==> Good(t, uid))
      && (Good(t, uid) ==> LiveOwner(s.w).value.deleting)
  {
    StepKeepsInv(s, ListSubnets(others));
    ListingCovers(s, others);
    RetainedIff(Step(s, ListSubnets(others)));
    SeenDeletingIsLive(s.w, s.w.ownerSeen);
  }

  lemma SeenDeletingIsLive(w: World, at: nat)
    requires OwnersOk(w) && at < |w.owners| && w.owners[at].Some? && LiveOwner(w).Some?
    requires w.owners[at].value.uid == LiveOwner(w).value.uid
    ensures w.owners[at].value.deleting ==>
      LiveOwner(w).value.deleting && LiveOwner(w).value.subnets == w.owners[at].value.subnets
  {
    var last := |w.owners| - 1;
    if at < last { assert Later(w.owners[at].value, w.owners[last].value); }
  }

  /** Such a run from the start of the operator: a list computed before the last status patch misses a subnet. */
  lemma EarlyListingMissesASubnet() returns (s0: Sys, es: seq<Event>)
    ensures Init(s0) && AdmissibleRun(s0, es)
    ensures var w := Step(Run(s0, es), WriteSubnets(false)).w;
      Terminating(w, 0) && Controlled(w, 0) && !(AllIDs([LiveOwner(w).value.subnets]) <= IDsOf(w.configMap))
  {
    var owner := Owner(0, 0, false, [FinalizerOf(EC2)], [], 0);
    s0 := Sys(EC2, World(2, [Some(owner)], 0, [Some(Derived(1, Some(0), false, false, [], 0))], 0, []), Idle, Waiting);
    var list := ListSubnets([]);
    var s := Step(s0, list);
    StepKeepsInv(s0, list);
    es := SomeSubnetIsMissed(s, s.subnetPc.ids);
    WriteStep(Run(s, es));
    First(s0, list, s, es);
    es := [list] + es;
  }
}
