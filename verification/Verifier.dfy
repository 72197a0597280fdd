/** The lookup of a node name among the EC2 instances of NodeClaims, in batches. */
module Verifier {
  import opened Wrappers

  /** The most instance IDs that one DescribeInstances call takes. */
  const MAX_PER_CALL := 1000

  /** The parts of a NodeClaim that matter here; an empty node name means that no node has joined for it yet. */
  datatype NodeClaim = NodeClaim(providerID: string, nodeName: string)

  datatype Instance = Instance(privateDNSName: Option<string>)

  datatype Fault = Fault(text: string)

  /** DescribeInstances: the reservations for a list of IDs, each with its instances. */
  type Describe = seq<string> -> Result<seq<seq<Instance>>, Fault>

  /** An absent name reads as the empty one. */
  function DNSName(i: Instance): string {
    if i.privateDNSName.Some? then i.privateDNSName.value else ""
  }

  /******* Instance IDs *******/

  function LastIndex(s: string, c: char): (at: int)
    ensures -1 <= at < |s|
    ensures at >= 0 ==> s[at] == c
    ensures forall k :: at < k < |s| ==> s[k] != c
  {
    if s == [] then -1
    else if s[|s| - 1] == c then |s| - 1
    else
      LastIndex(s[..|s| - 1], c)
  }

  function InstanceID(providerID: string): Option<string> {
    var separator := LastIndex(providerID, '/');
    if separator < 0 || separator == |providerID| - 1 then None else Some(providerID[separator + 1..])
  }

  /** The instance ID is the non-empty part behind the last slash, and there is none without a slash. */
  lemma InstanceIDIsTheLastPart(providerID: string, id: string)
    ensures InstanceID(providerID) == Some(id) <==>
      id != "" && '/' !in id && exists before: string :: providerID == before + "/" + id
  {
    var at := LastIndex(providerID, '/');
    if InstanceID(providerID) == Some(id) {
      assert providerID == providerID[..at] + "/" + id;
    }
    if before: string :| id != "" && '/' !in id && providerID == before + "/" + id {
      assert providerID[|before|] == '/';
      assert forall k :: |before| < k < |providerID| ==> providerID[k] == id[k - |before| - 1];
      assert at == |before|;
      assert providerID[at + 1..] == id;
    }
  }

  /** The instance IDs of the claims that have one, in order. */
  function InstanceIDs(claims: seq<NodeClaim>): (ids: seq<string>)
    ensures |ids| <= |claims|
  {
    if claims == [] then []
    else
      var init := InstanceIDs(claims[..|claims| - 1]);
      match InstanceID(claims[|claims| - 1].providerID) {
        case None => init
        case Some(id) => init + [id]
      }
  }

  lemma {:induction false} IDsOfClaims(claims: seq<NodeClaim>, id: string)
    ensures id in InstanceIDs(claims) <==> exists c :: c in claims && InstanceID(c.providerID) == Some(id)
  {
    if claims != [] {
      var n := |claims| - 1;
      IDsOfClaims(claims[..n], id);
      assert claims == claims[..n] + [claims[n]];
      assert forall c :: c in claims <==> c in claims[..n] || c == claims[n];
    }
  }

  /******* The batched lookup *******/

  function Chunks(ids: seq<string>): (chunks: seq<seq<string>>)
    ensures forall c :: c in chunks ==> 0 < |c| <= MAX_PER_CALL
    decreases |ids|
  {
    if ids == [] then []
    else if |ids| <= MAX_PER_CALL then [ids]
    else [ids[..MAX_PER_CALL]] + Chunks(ids[MAX_PER_CALL..])
  }

  /** Batching neither loses an ID nor invents one. */
  lemma {:induction false} ChunksCover(ids: seq<string>, id: string)
    ensures id in ids <==> exists c :: c in Chunks(ids) && id in c
    decreases |ids|
  {
    if ids == [] {
    } else if |ids| <= MAX_PER_CALL {
      assert Chunks(ids)[0] == ids;
    } else {
      var head, tail := ids[..MAX_PER_CALL], ids[MAX_PER_CALL..];
      ChunksCover(tail, id);
      assert ids == head + tail;
      assert Chunks(ids) == [head] + Chunks(tail);
      assert head in Chunks(ids);
    }
  }

  function Joined(chunks: seq<seq<string>>): seq<string> {
    if chunks == [] then [] else chunks[0] + Joined(chunks[1..])
  }

  lemma {:induction false} ChunksJoin(ids: seq<string>)
    ensures Joined(Chunks(ids)) == ids
    decreases |ids|
  {
    if |ids| > MAX_PER_CALL {
      var head, tail := ids[..MAX_PER_CALL], ids[MAX_PER_CALL..];
      ChunksJoin(tail);
      assert Chunks(ids)[1..] == Chunks(tail);
      assert Joined(Chunks(ids)) == head + tail;
    } else if ids != [] {
      assert Chunks(ids)[1..] == [];
    }
  }

  lemma {:induction false} ChunksAreFull(ids: seq<string>, i: nat)
    requires i < |Chunks(ids)|
    ensures if i < |Chunks(ids)| - 1 then |Chunks(ids)[i]| == 1000 else 0 < |Chunks(ids)[i]| <= 1000
    decreases |ids|
  {
    if |ids| > MAX_PER_CALL && i > 0 { ChunksAreFull(ids[MAX_PER_CALL..], i - 1); }
  }

  /** The batches are the IDs in order, cut every 1000: only the last one may be smaller, and none is empty. */
  lemma ChunksAreTheIDs(ids: seq<string>)
    ensures Joined(Chunks(ids)) == ids
    ensures forall i :: 0 <= i < |Chunks(ids)| ==>
      if i < |Chunks(ids)| - 1 then |Chunks(ids)[i]| == 1000 else 0 < |Chunks(ids)[i]| <= 1000
  {
    ChunksJoin(ids);
    forall i | 0 <= i < |Chunks(ids)|
      ensures if i < |Chunks(ids)| - 1 then |Chunks(ids)[i]| == 1000 else 0 < |Chunks(ids)[i]| <= 1000
    {
      ChunksAreFull(ids, i);
    }
  }

  predicate HasName(reservations: seq<seq<Instance>>, name: string) {
    exists r, i :: r in reservations && i in r && DNSName(i) == name
  }

  function Answer(describe: Describe, batch: seq<string>, name: string): Result<bool, Fault> {
    match describe(batch)
    case Err(e) => Err(e)
    case Ok(reservations) => Ok(HasName(reservations, name))
  }

  /** The batches in order; the first error or match decides. */
  function Lookup(describe: Describe, batches: seq<seq<string>>, name: string): Result<bool, Fault> {
    if batches == [] then Ok(false)
    else if Answer(describe, batches[0], name) == Ok(false) then Lookup(describe, batches[1..], name)
    else Answer(describe, batches[0], name)
  }

  function Verified(describe: Describe, name: string, claims: seq<NodeClaim>): Result<bool, Fault> {
    Lookup(describe, Chunks(InstanceIDs(claims)), name)
  }

  /** A call within the limit that succeeds returns the requested instances that exist, and nothing else. */
  ghost predicate Faithful(describe: Describe, cloud: map<string, Instance>) {
    forall ids: seq<string> :: 0 < |ids| <= MAX_PER_CALL && describe(ids).Ok? ==>
      forall i :: Returned(describe(ids).value, i) <==> Requested(cloud, ids, i)
  }

  predicate Returned(reservations: seq<seq<Instance>>, i: Instance) {
    exists r :: r in reservations && i in r
  }

  predicate Requested(cloud: map<string, Instance>, ids: seq<string>, i: Instance) {
    exists id :: id in ids && id in cloud && cloud[id] == i
  }

  /** The single question that the batches answer: does the instance of some claim have this DNS name? */
  ghost predicate SomeClaimHas(cloud: map<string, Instance>, claims: seq<NodeClaim>, name: string) {
    exists c :: c in claims && ClaimHas(cloud, c, name)
  }

  predicate ClaimHas(cloud: map<string, Instance>, claim: NodeClaim, name: string) {
    match InstanceID(claim.providerID)
    case None => false
    case Some(id) => id in cloud && DNSName(cloud[id]) == name
  }

  predicate SomeIDHas(cloud: map<string, Instance>, ids: seq<string>, name: string) {
    exists id :: id in ids && id in cloud && DNSName(cloud[id]) == name
  }

  lemma AnswerDecides(describe: Describe, cloud: map<string, Instance>, batch: seq<string>, name: string)
    requires Faithful(describe, cloud) && 0 < |batch| <= MAX_PER_CALL && describe(batch).Ok?
    ensures Answer(describe, batch, name) == Ok(SomeIDHas(cloud, batch, name))
  {
    var reservations := describe(batch).value;
    if SomeIDHas(cloud, batch, name) {
      var id :| id in batch && id in cloud && DNSName(cloud[id]) == name;
      assert Requested(cloud, batch, cloud[id]);
      var r :| r in reservations && cloud[id] in r;
    }
    if HasName(reservations, name) {
      var r, i :| r in reservations && i in r && DNSName(i) == name;
      assert Returned(reservations, i);
      assert Requested(cloud, batch, i);
    }
  }

  /** The position at which the lookup stops: all batches before it were answered without a match. */
  ghost predicate StopsAt(
      describe: Describe, cloud: map<string, Instance>, batches: seq<seq<string>>, name: string, k: nat)
  {
    && k <= |batches|
    && forall j :: 0 <= j < k ==> describe(batches[j]).Ok? && !SomeIDHas(cloud, batches[j], name)
  }

  lemma {:induction false} LookupDecides(describe: Describe, cloud: map<string, Instance>, batches: seq<seq<string>>,
                                         name: string) returns (k: nat)
    requires Faithful(describe, cloud) && forall b :: b in batches ==> 0 < |b| <= MAX_PER_CALL
    ensures StopsAt(describe, cloud, batches, name, k)
    ensures match Lookup(describe, batches, name)
      case Ok(true) => k < |batches| && describe(batches[k]).Ok? && SomeIDHas(cloud, batches[k], name)
      case Ok(false) => k == |batches|
      case Err(e) => k < |batches| && describe(batches[k]) == Err(e)
  {
    k := 0;
    if batches != [] && Answer(describe, batches[0], name) == Ok(false) {
      AnswerDecides(describe, cloud, batches[0], name);
      var rest := LookupDecides(describe, cloud, batches[1..], name);
      k := rest + 1;
    } else if batches != [] && describe(batches[0]).Ok? {
      AnswerDecides(describe, cloud, batches[0], name);
    }
  }

  lemma ClaimsAndIDs(cloud: map<string, Instance>, claims: seq<NodeClaim>, name: string)
    ensures SomeClaimHas(cloud, claims, name) <==> SomeIDHas(cloud, InstanceIDs(claims), name)
  {
    forall id ensures id in InstanceIDs(claims) <==> exists c :: c in claims && InstanceID(c.providerID) == Some(id) {
      IDsOfClaims(claims, id);
    }
    if SomeClaimHas(cloud, claims, name) {
      var c :| c in claims && ClaimHas(cloud, c, name);
      assert InstanceID(c.providerID).value in InstanceIDs(claims);
    }
  }

  lemma BatchesAndIDs(cloud: map<string, Instance>, ids: seq<string>, name: string)
    ensures SomeIDHas(cloud, ids, name) <==> exists b :: b in Chunks(ids) && SomeIDHas(cloud, b, name)
  {
    if SomeIDHas(cloud, ids, name) {
      var id :| id in ids && id in cloud && DNSName(cloud[id]) == name;
      ChunksCover(ids, id);
    }
    if b :| b in Chunks(ids) && SomeIDHas(cloud, b, name) {
      var id :| id in b && id in cloud && DNSName(cloud[id]) == name;
      ChunksCover(ids, id);
    }
  }

  /** Some batch fails before any batch was answered with a match. */
  ghost predicate FailsFirst(
      describe: Describe, cloud: map<string, Instance>, batches: seq<seq<string>>, name: string)
  {
    exists k: nat :: StopsAt(describe, cloud, batches, name, k) && k < |batches| && describe(batches[k]).Err?
  }

  lemma LookupFails(describe: Describe, cloud: map<string, Instance>, batches: seq<seq<string>>, name: string)
    requires Faithful(describe, cloud) && forall b :: b in batches ==> 0 < |b| <= MAX_PER_CALL
    ensures Lookup(describe, batches, name).Err? <==> FailsFirst(describe, cloud, batches, name)
  {
    var k := LookupDecides(describe, cloud, batches, name);
    if FailsFirst(describe, cloud, batches, name) {
      var m: nat :| StopsAt(describe, cloud, batches, name, m) && m < |batches| && describe(batches[m]).Err?;
      assert m < k ==> describe(batches[m]).Ok?;
      assert k < m ==> describe(batches[k]).Ok? && !SomeIDHas(cloud, batches[k], name);
    }
  }

  /**
   The batched lookup refines the single question. Its answers are always right, even when a later batch would fail;
   it fails exactly when a batch fails before any match.
   */
  lemma BatchesAnswerTheQuestion(describe: Describe, cloud: map<string, Instance>, name: string, claims: seq<NodeClaim>)
    requires Faithful(describe, cloud)
    ensures Verified(describe, name, claims) == Ok(true) ==> SomeClaimHas(cloud, claims, name)
    ensures Verified(describe, name, claims) == Ok(false) ==> !SomeClaimHas(cloud, claims, name)
    ensures Verified(describe, name, claims).Err? <==>
      FailsFirst(describe, cloud, Chunks(InstanceIDs(claims)), name)
  {
    var batches := Chunks(InstanceIDs(claims));
    LookupFails(describe, cloud, batches, name);
    ClaimsAndIDs(cloud, claims, name);
    BatchesAndIDs(cloud, InstanceIDs(claims), name);
    var k := LookupDecides(describe, cloud, batches, name);
    if Verified(describe, name, claims) == Ok(true) { assert batches[k] in batches; }
  }

  /******* The methods *******/

  method EC2InstanceID(providerID: string) returns (id: string, ok: bool)
    ensures ok <==>
      exists part: string, before: string :: part != "" && '/' !in part && providerID == before + "/" + part
    ensures if ok then InstanceID(providerID) == Some(id) else id == "" && InstanceID(providerID).None?
  {
    var separator := LastIndex(providerID, '/');
    if separator < 0 || separator == |providerID| - 1 {
      id, ok := "", false;
      forall part: string, before: string ensures !(part != "" && '/' !in part && providerID == before + "/" + part) {
        InstanceIDIsTheLastPart(providerID, part);
      }
    } else {
      id, ok := providerID[separator + 1..], true;
      InstanceIDIsTheLastPart(providerID, id);
    }
  }

  method MatchesPrivateDNSName(describe: Describe, batch: seq<string>, name: string) returns (r: Result<bool, Fault>)
    ensures r == Answer(describe, batch, name)
  {
    var output := describe(batch);
    if output.Err? { return Err(output.error); }
    var reservations := output.value;
    for i := 0 to |reservations|
      invariant !HasName(reservations[..i], name)
    {
      var reservation := reservations[i];
      for j := 0 to |reservation|
        invariant forall k :: 0 <= k < j ==> DNSName(reservation[k]) != name
      {
        if DNSName(reservation[j]) == name {
          assert reservation in reservations && reservation[j] in reservation;
          return Ok(true);
        }
      }
      assert reservations[..i + 1] == reservations[..i] + [reservation];
    }
    assert reservations[..|reservations|] == reservations;
    return Ok(false);
  }

  method Verify(describe: Describe, name: string, claims: seq<NodeClaim>) returns (r: Result<bool, Fault>)
    ensures r == Verified(describe, name, claims)
  {
    var ids := [];
    for i := 0 to |claims|
      invariant ids == InstanceIDs(claims[..i])
    {
      assert claims[..i + 1][..i] == claims[..i];
      var id, ok := EC2InstanceID(claims[i].providerID);
      if !ok { continue; }
      ids := ids + [id];
    }
    assert claims[..|claims|] == claims;

    var left := ids;
    while left != []
      invariant Verified(describe, name, claims) == Lookup(describe, Chunks(left), name)
      decreases |left|
    {
      var size := if |left| <= MAX_PER_CALL then |left| else MAX_PER_CALL;
      var batch := left[..size];
      assert Chunks(left)[0] == batch && Chunks(left)[1..] == Chunks(left[size..]);
      var found := MatchesPrivateDNSName(describe, batch, name);
      if found.Err? || found.value { return found; }
      left := left[size..];
    }
    return Ok(false);
  }
}
