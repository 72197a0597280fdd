/**
 The AutoNode status controller as a machine of informers, filters, work queue and reconcile. An informer first
 changes its cache and later notifies the handler, whose filter decides whether the single work item is enqueued; the
 reconcile reads the caches and may be overtaken between any two of its reads.
 */
module AutoNodeStatus {
  import opened Wrappers
  import opened Listings
  import opened AutoNodeCount

  datatype Hcp = Hcp(rv: nat, status: Option<AutoNode>, rest: int)

  /******* The recount *******/

  function Items(claims: map<string, NodeClaim>, order: seq<string>): (items: seq<NodeClaim>)
    requires forall n :: n in order ==> n in claims
    ensures |items| == |order|
  {
    if order == [] then [] else [claims[order[0]]] + Items(claims, order[1..])
  }

  ghost function VCPUs(nodes: map<string, Node>, claims: map<string, NodeClaim>): nat {
    Sum(Items(claims, AnyOrder(claims.Keys)), nodes.Keys)
  }

  function KarpenterNodes(nodes: map<string, Node>): set<string> {
    set n | n in nodes && nodes[n].karpenter
  }

  /** What the status should say about the current Nodes and NodeClaims. */
  ghost function Recount(nodes: map<string, Node>, claims: map<string, NodeClaim>): AutoNode {
    AutoNode(ToInt32(|KarpenterNodes(nodes)|), ToInt32(|claims.Keys|), ToInt32(VCPUs(nodes, claims)))
  }

  function Holding(claims: map<string, NodeClaim>, names: set<string>, x: NodeClaim): set<string> {
    set n | n in names && n in claims && claims[n] == x
  }

  lemma HoldingGrows(claims: map<string, NodeClaim>, names: set<string>, n: string, x: NodeClaim)
    requires n in claims && n !in names
    ensures |Holding(claims, names + {n}, x)| == |Holding(claims, names, x)| + (if claims[n] == x then 1 else 0)
  {
    var without := Holding(claims, names, x);
    assert Holding(claims, names + {n}, x) == if claims[n] == x then without + {n} else without;
  }

  /** A listing holds each item once for each name that has it. */
  lemma {:induction false} ItemsCount(
      claims: map<string, NodeClaim>, order: seq<string>, names: set<string>, x: NodeClaim)
    requires IsListing(order, names) && names <= claims.Keys
    ensures multiset(Items(claims, order))[x] == |Holding(claims, names, x)|
    decreases |order|
  {
    if order == [] {
      assert Holding(claims, names, x) == {};
    } else {
      var n, rest := order[0], names - {order[0]};
      TailIsListing(order, names);
      ItemsCount(claims, order[1..], rest, x);
      HoldingGrows(claims, rest, n, x);
      assert rest + {n} == names;
    }
  }

  /** Two listings of the same NodeClaims hold the same items. */
  lemma ListingsAgree(claims: map<string, NodeClaim>, a: seq<string>, b: seq<string>)
    requires IsListing(a, claims.Keys) && IsListing(b, claims.Keys)
    ensures multiset(Items(claims, a)) == multiset(Items(claims, b))
  {
    forall x ensures multiset(Items(claims, a))[x] == multiset(Items(claims, b))[x] {
      ItemsCount(claims, a, claims.Keys, x);
      ItemsCount(claims, b, claims.Keys, x);
    }
  }

  lemma AnyListingSums(nodes: map<string, Node>, claims: map<string, NodeClaim>, order: seq<string>)
    requires IsListing(order, claims.Keys)
    ensures Sum(Items(claims, order), nodes.Keys) == VCPUs(nodes, claims)
  {
    ListingsAgree(claims, order, AnyOrder(claims.Keys));
    SumIgnoresOrder(Items(claims, order), Items(claims, AnyOrder(claims.Keys)), nodes.Keys);
  }

  /** A whole vCPU of a NodeClaim whose node exists: number `k` of it has begun if its capacity is more than `k`. */
  predicate Begun(claim: NodeClaim, live: set<string>, k: nat) {
    claim.nodeName in live && claim.cpu.Some? && 1000 * k < claim.cpu.value
  }

  /** `vcpus` are the vCPUs that the named NodeClaims have begun. */
  ghost predicate AllBegun(
      claims: map<string, NodeClaim>, names: set<string>, live: set<string>, vcpus: set<(string, nat)>)
    requires names <= claims.Keys
  {
    forall n, k: nat :: (n, k) in vcpus <==> n in names && Begun(claims[n], live, k)
  }

  ghost function Numbered(n: string, count: nat): (numbers: set<(string, nat)>)
    ensures |numbers| == count
    ensures forall m, k: nat :: (m, k) in numbers <==> m == n && k < count
  {
    if count == 0 then {} else Numbered(n, count - 1) + {(n, count - 1)}
  }

  lemma BegunByOne(n: string, claim: NodeClaim, live: set<string>) returns (own: set<(string, nat)>)
    ensures |own| == Sum([claim], live)
    ensures forall m, k: nat :: (m, k) in own <==> m == n && Begun(claim, live, k)
  {
    OneMoreClaim([], claim, live);
    assert [] + [claim] == [claim];
    own := Numbered(n, Sum([claim], live));
  }

  lemma {:induction false} SumCountsBegun(
      claims: map<string, NodeClaim>, order: seq<string>, names: set<string>, live: set<string>)
      returns (vcpus: set<(string, nat)>)
    requires IsListing(order, names) && names <= claims.Keys
    ensures AllBegun(claims, names, live, vcpus) && |vcpus| == Sum(Items(claims, order), live)
    decreases |order|
  {
    if order == [] {
      vcpus := {};
    } else {
      var n := order[0];
      TailIsListing(order, names);
      var rest := SumCountsBegun(claims, order[1..], names - {n}, live);
      var own := BegunByOne(n, claims[n], live);
      forall p | p in rest ensures p !in own { assert (p.0, p.1) == p; }
      vcpus := rest + own;
      SumAppends([claims[n]], Items(claims, order[1..]), live);
    }
  }

  lemma VCPUsAreBegun(nodes: map<string, Node>, claims: map<string, NodeClaim>, vcpus: set<(string, nat)>)
    requires AllBegun(claims, claims.Keys, nodes.Keys, vcpus)
    ensures |vcpus| == VCPUs(nodes, claims)
  {
    var same := SumCountsBegun(claims, AnyOrder(claims.Keys), claims.Keys, nodes.Keys);
    forall p ensures p in vcpus <==> p in same {
      assert (p.0, p.1) == p;
    }
    assert vcpus == same;
  }

  /**
   What the recount counts, by sizes of sets: the nodes with the NodePool label, the NodeClaims, and the vCPUs that
   those NodeClaims have begun whose node exists. Each count is right below 2^31.
   */
  lemma RecountMeans(
      nodes: map<string, Node>, claims: map<string, NodeClaim>, labelled: set<string>, vcpus: set<(string, nat)>)
    requires forall n :: n in labelled <==> n in nodes && nodes[n].karpenter
    requires forall n, k: nat :: (n, k) in vcpus <==>
      n in claims && claims[n].nodeName in nodes && claims[n].cpu.Some? && 1000 * k < claims[n].cpu.value
    ensures |labelled| < 0x8000_0000 ==> Recount(nodes, claims).nodeCount == |labelled|
    ensures |claims| < 0x8000_0000 ==> Recount(nodes, claims).nodeClaimCount == |claims|
    ensures |vcpus| < 0x8000_0000 ==> Recount(nodes, claims).vcpus == |vcpus|
  {
    assert AllBegun(claims, claims.Keys, nodes.Keys, vcpus);
    VCPUsAreBegun(nodes, claims, vcpus);
    assert labelled == KarpenterNodes(nodes);
    SmallCountIsExact(|labelled|);
    SmallCountIsExact(|claims.Keys|);
    SmallCountIsExact(|vcpus|);
  }

  lemma SmallCountIsExact(x: nat)
    ensures x < 0x8000_0000 ==> ToInt32(x) == x
  {
  }

  function Cpu(claim: NodeClaim): nat {
    if claim.cpu.Some? then claim.cpu.value else 0
  }

  predicate SameNodes(a: map<string, Node>, b: map<string, Node>) {
    a.Keys == b.Keys && forall n :: n in a ==> a[n].karpenter == b[n].karpenter
  }

  predicate SameClaims(a: map<string, NodeClaim>, b: map<string, NodeClaim>) {
    a.Keys == b.Keys && forall n :: n in a ==> a[n].nodeName == b[n].nodeName && Cpu(a[n]) == Cpu(b[n])
  }

  lemma {:induction false} SameClaimsSum(
      a: map<string, NodeClaim>, b: map<string, NodeClaim>, order: seq<string>, live: set<string>)
    requires SameClaims(a, b) && forall n :: n in order ==> n in a
    ensures Sum(Items(a, order), live) == Sum(Items(b, order), live)
  {
    if order != [] { SameClaimsSum(a, b, order[1..], live); }
  }

  /** The recount depends only on what the filters look at. */
  lemma RecountAgrees(
      nodes: map<string, Node>, nodes': map<string, Node>,
      claims: map<string, NodeClaim>, claims': map<string, NodeClaim>)
    requires SameNodes(nodes, nodes') && SameClaims(claims, claims')
    ensures Recount(nodes, claims) == Recount(nodes', claims')
  {
    assert KarpenterNodes(nodes) == KarpenterNodes(nodes');
    SameClaimsSum(claims, claims', AnyOrder(claims.Keys), nodes.Keys);
  }

  /******* Informers, filters and queue *******/

  datatype Notice =
    | HcpChanged
    | NodeAdded | NodeRemoved | NodeUpdated(oldNode: Node, newNode: Node)
    | ClaimAdded | ClaimRemoved | ClaimUpdated(oldClaim: NodeClaim, newClaim: NodeClaim)

  /** The filters of the three watches; a NodeClaim without a CPU capacity compares as zero. */
  predicate Accepts(n: Notice) {
    match n
    case NodeUpdated(o, n) => o.karpenter != n.karpenter
    case ClaimUpdated(o, n) => Cpu(o) != Cpu(n) || o.nodeName != n.nodeName
    case _ => true
  }

  datatype Pc =
    | Idle
    | ListNodes(hcp: Hcp)
    | ListClaims(hcp: Hcp, nodes: map<string, Node>)
    | Apply(hcp: Hcp, nodes: map<string, Node>, claims: map<string, NodeClaim>)

  /** `live` is the HCP in the API server; `cached`, `nodes` and `claims` are the informer caches. */
  datatype Sys = Sys(
    clock: nat, live: Option<Hcp>,
    cached: Option<Hcp>, nodes: map<string, Node>, claims: map<string, NodeClaim>,
    pending: seq<Notice>, dirty: bool, pc: Pc)

  datatype Event =
    | HcpWrite(status: Option<AutoNode>, rest: int)
    | HcpGone
    | HcpSeen(version: Option<Hcp>)
    | NodeSet(name: string, node: Node)
    | NodeGone(name: string)
    | ClaimSet(name: string, claim: NodeClaim)
    | ClaimGone(name: string)
    | Deliver
    | Start
    | Call(fault: bool)

  function Notify(s: Sys, n: Notice): Sys {
    s.(pending := s.pending + [n])
  }

  /** The API server stores a new version of the HCP. */
  function Store(s: Sys, status: Option<AutoNode>, rest: int): Sys {
    s.(clock := s.clock + 1, live := Some(Hcp(s.clock, status, rest)))
  }

  /** Applying the status that is already stored changes nothing. */
  function ApplyStatus(s: Sys, desired: AutoNode): Sys {
    if s.live.None? then s.(dirty := true)
    else if s.live.value.status == Some(desired) then s
    else Store(s, Some(desired), s.live.value.rest)
  }

  /** The next read or write of the reconcile; an error puts the item back into the queue. */
  ghost function Next(s: Sys, fault: bool): Sys {
    if s.pc.Idle? then s
    else if fault then s.(pc := Idle, dirty := true)
    else
      match s.pc
      case Idle => s
      case ListNodes(hcp) => s.(pc := ListClaims(hcp, s.nodes))
      case ListClaims(hcp, nodes) =>
        s.(pc := if hcp.status == Some(Recount(nodes, s.claims)) then Idle else Apply(hcp, nodes, s.claims))
      case Apply(hcp, nodes, claims) => ApplyStatus(s, Recount(nodes, claims)).(pc := Idle)
  }

  ghost function Step(s: Sys, e: Event): Sys {
    match e
    case HcpWrite(status, rest) => Store(s, status, rest)
    case HcpGone => s.(live := None)
    case HcpSeen(version) =>
      if version.Some? && version.value.rv >= s.clock then s else Notify(s.(cached := version), HcpChanged)
    case NodeSet(name, node) =>
      Notify(s.(nodes := s.nodes[name := node]),
             if name in s.nodes then NodeUpdated(s.nodes[name], node) else NodeAdded)
    case NodeGone(name) => if name in s.nodes then Notify(s.(nodes := s.nodes - {name}), NodeRemoved) else s
    case ClaimSet(name, claim) =>
      Notify(s.(claims := s.claims[name := claim]),
             if name in s.claims then ClaimUpdated(s.claims[name], claim) else ClaimAdded)
    case ClaimGone(name) => if name in s.claims then Notify(s.(claims := s.claims - {name}), ClaimRemoved) else s
    case Deliver =>
      if s.pending == [] then s
      else s.(pending := s.pending[1..], dirty := s.dirty || Accepts(s.pending[0]))
    case Start =>
      if !s.dirty || !s.pc.Idle? then s
      else s.(dirty := false, pc := if s.cached.Some? then ListNodes(s.cached.value) else Idle)
    case Call(fault) => Next(s, fault)
  }

  ghost function Run(s: Sys, es: seq<Event>): Sys
    decreases |es|
  {
    if es == [] then s else Run(Step(s, es[0]), es[1..])
  }

  /** The operator starts with empty caches and an empty queue. */
  predicate Init(s: Sys) {
    && (s.live.Some? ==> s.live.value.rv < s.clock)
    && s.cached == None && s.nodes == map[] && s.claims == map[] && s.pending == [] && !s.dirty && s.pc == Idle
  }

  /** A reconcile is due: the item is queued, or a notice on its way will queue it. */
  predicate Due(s: Sys) {
    s.dirty || exists n :: n in s.pending && Accepts(n)
  }

  /** A reconcile is in flight, and what it has read so far still matches the caches. */
  predicate Matches(s: Sys) {
    match s.pc
    case Idle => false
    case ListNodes(hcp) => s.cached == Some(hcp)
    case ListClaims(hcp, nodes) => s.cached == Some(hcp) && SameNodes(nodes, s.nodes)
    case Apply(hcp, nodes, claims) =>
      s.cached == Some(hcp) && SameNodes(nodes, s.nodes) && SameClaims(claims, s.claims)
  }

  /** The operator has no HCP, or the API server's version has not reached its cache yet. */
  predicate Behind(s: Sys) {
    s.cached.None? || s.cached != s.live
  }

  ghost predicate Inv(s: Sys) {
    && (s.live.Some? ==> s.live.value.rv < s.clock)
    && (s.cached.Some? ==> s.cached.value.rv < s.clock)
    && (!Due(s) ==>
          if s.pc.Idle? then Behind(s) || s.live.value.status == Some(Recount(s.nodes, s.claims))
          else Matches(s))
  }

  lemma NotifyIsDue(s: Sys, n: Notice)
    ensures Due(Notify(s, n)) <==> Due(s) || Accepts(n)
  {
    var s' := Notify(s, n);
    assert n in s'.pending;
    if Due(s) && !s.dirty {
      var m :| m in s.pending && Accepts(m);
      assert m in s'.pending;
    }
  }

  lemma DeliverKeepsDue(s: Sys)
    ensures Due(Step(s, Deliver)) <==> Due(s)
  {
    if s.pending != [] { assert s.pending == [s.pending[0]] + s.pending[1..]; }
  }

  /** An update that the filters reject changes neither the recount nor what a reconcile in flight should read. */
  lemma RejectedUpdateIsHarmless(s: Sys, e: Event)
    requires (e.NodeSet? && e.name in s.nodes && !Accepts(NodeUpdated(s.nodes[e.name], e.node)))
      || (e.ClaimSet? && e.name in s.claims && !Accepts(ClaimUpdated(s.claims[e.name], e.claim)))
    ensures var s' := Step(s, e);
      && Recount(s'.nodes, s'.claims) == Recount(s.nodes, s.claims)
      && (Matches(s) ==> Matches(s'))
  {
    var s' := Step(s, e);
    assert SameNodes(s.nodes, s'.nodes) && SameClaims(s.claims, s'.claims);
    RecountAgrees(s.nodes, s'.nodes, s.claims, s'.claims);
  }

  /** Whether an update of a Node can change the recount. */
  ghost predicate NodeUpdateMatters(o: Node, n: Node) {
    exists nodes, claims, name :: Differ(nodes, claims, name, o, n)
  }

  ghost predicate Differ(nodes: map<string, Node>, claims: map<string, NodeClaim>, name: string, o: Node, n: Node) {
    Recount(nodes[name := o], claims) != Recount(nodes[name := n], claims)
  }

  lemma OneNodeCounts(o: Node, n: Node)
    requires o.karpenter != n.karpenter
    ensures Differ(map[], map[], "n", o, n)
  {
    var a, b := map[]["n" := o], map[]["n" := n];
    assert KarpenterNodes(a) == if o.karpenter then {"n"} else {};
    assert KarpenterNodes(b) == if n.karpenter then {"n"} else {};
  }

  /**
   The filters let through no more than they need to: of a Node exactly the updates that can change the recount, of a
   NodeClaim exactly those of its node name or its CPU capacity, where none is zero; and every creation and deletion.
   */
  lemma AcceptsMeans(n: Notice)
    ensures n.NodeUpdated? ==> (Accepts(n) <==> NodeUpdateMatters(n.oldNode, n.newNode))
    ensures n.ClaimUpdated? ==>
      var before, after := n.oldClaim, n.newClaim;
      (Accepts(n) <==>
        || before.nodeName != after.nodeName
        || (before.cpu != after.cpu && (before.cpu != None || after.cpu != Some(0))
                                    && (after.cpu != None || before.cpu != Some(0))))
    ensures !n.NodeUpdated? && !n.ClaimUpdated? ==> Accepts(n)
  {
    if n.NodeUpdated? && Accepts(n) {
      OneNodeCounts(n.oldNode, n.newNode);
    } else if n.NodeUpdated? {
      forall nodes, claims, name ensures !Differ(nodes, claims, name, n.oldNode, n.newNode) {
        assert SameClaims(claims, claims);
        RecountAgrees(nodes[name := n.oldNode], nodes[name := n.newNode], claims, claims);
      }
    }
  }

  lemma NextKeepsInv(s: Sys, fault: bool)
    requires Inv(s)
    ensures Inv(Next(s, fault))
  {
    if s.pc.ListClaims? && Matches(s) { RecountAgrees(s.pc.nodes, s.nodes, s.claims, s.claims); }
    if s.pc.Apply? && Matches(s) { RecountAgrees(s.pc.nodes, s.nodes, s.pc.claims, s.claims); }
  }

  lemma NodeChangeKeepsInv(s: Sys, e: Event)
    requires Inv(s) && (e.NodeSet? || e.NodeGone?)
    ensures Inv(Step(s, e))
  {
    match e
    case NodeSet(name, node) =>
      NotifyIsDue(s.(nodes := s.nodes[name := node]), Step(s, e).pending[|s.pending|]);
      if name in s.nodes && !Accepts(NodeUpdated(s.nodes[name], node)) { RejectedUpdateIsHarmless(s, e); }
    case NodeGone(name) => NotifyIsDue(s.(nodes := s.nodes - {name}), NodeRemoved);
  }

  lemma ClaimChangeKeepsInv(s: Sys, e: Event)
    requires Inv(s) && (e.ClaimSet? || e.ClaimGone?)
    ensures Inv(Step(s, e))
  {
    match e
    case ClaimSet(name, claim) =>
      NotifyIsDue(s.(claims := s.claims[name := claim]), Step(s, e).pending[|s.pending|]);
      if name in s.claims && !Accepts(ClaimUpdated(s.claims[name], claim)) { RejectedUpdateIsHarmless(s, e); }
    case ClaimGone(name) => NotifyIsDue(s.(claims := s.claims - {name}), ClaimRemoved);
  }

  lemma HcpChangeKeepsInv(s: Sys, e: Event)
    requires Inv(s) && (e.HcpWrite? || e.HcpGone? || e.HcpSeen?)
    ensures Inv(Step(s, e))
  {
    if e.HcpSeen? { NotifyIsDue(s.(cached := e.version), HcpChanged); }
  }

  lemma StepKeepsInv(s: Sys, e: Event)
    requires Inv(s)
    ensures Inv(Step(s, e))
  {
    if e.NodeSet? || e.NodeGone? {
      NodeChangeKeepsInv(s, e);
    } else if e.ClaimSet? || e.ClaimGone? {
      ClaimChangeKeepsInv(s, e);
    } else if e.HcpWrite? || e.HcpGone? || e.HcpSeen? {
      HcpChangeKeepsInv(s, e);
    } else if e.Deliver? {
      DeliverKeepsDue(s);
    } else if e.Call? {
      NextKeepsInv(s, e.fault);
    }
  }

  lemma {:induction false} RunKeepsInv(s: Sys, es: seq<Event>)
    requires Inv(s)
    ensures Inv(Run(s, es))
    decreases |es|
  {
    if es != [] {
      StepKeepsInv(s, es[0]);
      RunKeepsInv(Step(s, es[0]), es[1..]);
    }
  }

  /**
   Main result: no update is lost. In every reachable state a reconcile is due, or one is in flight whose reads
   still match the caches, or the HCP in the cache is not the stored one, or the stored status equals a full recount.
   */
  lemma NoUpdateIsLost(s0: Sys, es: seq<Event>)
    requires Init(s0)
    ensures var s := Run(s0, es);
      Due(s) || Matches(s) || Behind(s) || s.live.value.status == Some(Recount(s.nodes, s.claims))
  {
    RunKeepsInv(s0, es);
  }

  /******* The reconcile's own computation *******/

  /** The int32 counter counts modulo 2^32. */
  lemma CountStep(x: int)
    ensures ToInt32(ToInt32(x) + 1) == ToInt32(x + 1)
  {
    var k := (x + TWO32 / 2) / TWO32;
    ModShift(x + 1 + TWO32 / 2, -k, TWO32);
  }

  method CountNodes(nodes: map<string, Node>) returns (liveNodes: set<string>, karpenterNodeCount: int)
    ensures liveNodes == nodes.Keys && karpenterNodeCount == ToInt32(|KarpenterNodes(nodes)|)
  {
    var order := List(nodes.Keys);
    liveNodes, karpenterNodeCount := {}, 0;
    ghost var chosen := KarpenterNodes(nodes);
    for i := 0 to |order|
      invariant liveNodes == set n | n in order[..i]
      invariant karpenterNodeCount == ToInt32(CountIn(order[..i], chosen))
    {
      assert order[..i + 1] == order[..i] + [order[i]] && order[i] in order;
      CountInAppends(order[..i], order[i], chosen);
      liveNodes := liveNodes + {order[i]};
      if nodes[order[i]].karpenter {
        CountStep(CountIn(order[..i], chosen));
        karpenterNodeCount := ToInt32(karpenterNodeCount + 1);
      }
    }
    assert order[..|order|] == order;
    CountIsSize(order, nodes.Keys, chosen);
  }

  /**
   Counts both listings, in whatever order they come, and returns the status to apply: the full recount, or
   nothing when the HCP already reports it.
   */
  method ReconcileAutoNodeStatus(hcp: Hcp, nodes: map<string, Node>, claims: map<string, NodeClaim>)
      returns (apply: Option<AutoNode>)
    ensures apply == if hcp.status == Some(Recount(nodes, claims)) then None else Some(Recount(nodes, claims))
  {
    var liveNodes, karpenterNodeCount := CountNodes(nodes);
    var claimOrder := List(claims.Keys);
    var vcpus := SumNodeClaimVCPUs(Items(claims, claimOrder), liveNodes);
    AnyListingSums(nodes, claims, claimOrder);
    ListingLength(claimOrder, claims.Keys);
    var desired := AutoNode(karpenterNodeCount, ToInt32(|claimOrder|), vcpus);
    apply := if hcp.status == Some(desired) then None else Some(desired);
  }
}
