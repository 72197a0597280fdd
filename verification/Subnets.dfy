/** The subnet IDs that the subnet controller aggregates over all OpenshiftEC2NodeClasses. */
module Subnets {
  import opened Listings

  datatype Subnet = Subnet(id: string, zone: string, zoneID: string)

  /** The byte-wise order of Go strings. */
  predicate Less(a: string, b: string) {
    b != [] && (a == [] || a[0] < b[0] || (a[0] == b[0] && Less(a[1..], b[1..])))
  }

  lemma {:induction false} LessIsTransitive(a: string, b: string, c: string)
    requires Less(a, b) && Less(b, c)
    ensures Less(a, c)
  {
    if a != [] && a[0] == b[0] == c[0] { LessIsTransitive(a[1..], b[1..], c[1..]); }
  }

  lemma {:induction false} LessIsTotal(a: string, b: string)
    ensures a == b || Less(a, b) || Less(b, a)
  {
    if a != [] && b != [] && a[0] == b[0] {
      LessIsTotal(a[1..], b[1..]);
      assert a == [a[0]] + a[1..] && b == [b[0]] + b[1..];
    }
  }

  lemma {:induction false} LessIsIrreflexive(a: string)
    ensures !Less(a, a)
  {
    if a != [] { LessIsIrreflexive(a[1..]); }
  }

  /** A string comes before another one if it is a proper prefix of it, or is smaller where the two first differ. */
  lemma {:induction false} LessMeans(a: string, b: string)
    ensures Less(a, b) <==>
      a < b || exists k :: 0 <= k < |a| && k < |b| && a[..k] == b[..k] && a[k] < b[k]
  {
    if a != [] && b != [] && a[0] == b[0] {
      var x, y := a[1..], b[1..];
      LessMeans(x, y);
      assert a == [a[0]] + x && b == [b[0]] + y;
      if k :| 0 <= k < |x| && k < |y| && x[..k] == y[..k] && x[k] < y[k] {
        assert a[..k + 1] == [a[0]] + x[..k] && b[..k + 1] == [b[0]] + y[..k];
        assert a[k + 1] < b[k + 1];
      }
      if k :| 0 <= k < |a| && k < |b| && a[..k] == b[..k] && a[k] < b[k] {
        assert a[..k][1..] == x[..k - 1] && b[..k][1..] == y[..k - 1];
        assert x[k - 1] < y[k - 1];
      }
    } else if a != [] && b != [] {
      assert a[..0] == b[..0];
      forall k | 0 < k < |a| && k < |b| ensures a[..k] != b[..k] { assert a[..k][0] != b[..k][0]; }
    }
  }

  ghost predicate StrictlySorted(ids: seq<string>) {
    forall i, j :: 0 <= i < j < |ids| ==> Less(ids[i], ids[j])
  }

  /** The non-empty subnet IDs of all NodeClasses. */
  ghost function AllIDs(nodeClasses: seq<seq<Subnet>>): set<string> {
    set i, j | 0 <= i < |nodeClasses| && 0 <= j < |nodeClasses[i]| && nodeClasses[i][j].id != "" ::
      nodeClasses[i][j].id
  }

  /** Puts an ID at its place in a sorted list that does not hold it. */
  function Insert(id: string, ids: seq<string>): (result: seq<string>)
    ensures forall x :: x in result <==> x == id || x in ids
    ensures |result| == |ids| + 1
  {
    if ids == [] || Less(id, ids[0]) then [id] + ids else [ids[0]] + Insert(id, ids[1..])
  }

  lemma {:induction false} InsertSorts(id: string, ids: seq<string>)
    requires StrictlySorted(ids) && id !in ids
    ensures StrictlySorted(Insert(id, ids))
  {
    if ids != [] {
      LessIsTotal(id, ids[0]);
      if Less(id, ids[0]) {
        forall j | 0 <= j < |ids| ensures Less(id, ids[j]) {
          if j > 0 { LessIsTransitive(id, ids[0], ids[j]); }
        }
      } else {
        InsertSorts(id, ids[1..]);
        var rest := Insert(id, ids[1..]);
        forall j | 0 <= j < |rest| ensures Less(ids[0], rest[j]) {
          assert rest[j] in rest;
        }
      }
    }
  }

  lemma HeadIsLeast(ids: seq<string>, x: string)
    requires StrictlySorted(ids) && x in ids
    ensures x == ids[0] || Less(ids[0], x)
    ensures x != ids[0] ==> x in ids[1..]
    ensures ids[0] !in ids[1..]
  {
    LessIsIrreflexive(ids[0]);
  }

  /** A set of IDs has only one strictly sorted listing. */
  lemma {:induction false} SortedListingIsUnique(a: seq<string>, b: seq<string>)
    requires StrictlySorted(a) && StrictlySorted(b)
    requires forall x :: x in a <==> x in b
    ensures a == b
  {
    if a != [] { assert a[0] in b; }
    if b != [] { assert b[0] in a; }
    if a != [] {
      HeadIsLeast(a, b[0]);
      HeadIsLeast(b, a[0]);
      if a[0] != b[0] {
        LessIsTransitive(a[0], b[0], a[0]);
        LessIsIrreflexive(a[0]);
      }
      forall x ensures x in a[1..] <==> x in b[1..] {
        if x in a { HeadIsLeast(a, x); HeadIsLeast(b, x); }
      }
      SortedListingIsUnique(a[1..], b[1..]);
    }
  }

  /** slices.Sort. */
  function SortStrings(ids: seq<string>): (result: seq<string>)
    ensures forall x :: x in result <==> x in ids
  {
    if ids == [] then [] else Insert(ids[0], SortStrings(ids[1..]))
  }

  ghost predicate Distinct(ids: seq<string>) {
    forall i, j :: 0 <= i < j < |ids| ==> ids[i] != ids[j]
  }

  lemma {:induction false} SortingDistinctSorts(ids: seq<string>)
    requires Distinct(ids)
    ensures StrictlySorted(SortStrings(ids))
  {
    if ids != [] {
      SortingDistinctSorts(ids[1..]);
      InsertSorts(ids[0], SortStrings(ids[1..]));
    }
  }

  /** The sorted listing of a set. */
  ghost function Sorted(ids: set<string>): (result: seq<string>)
    ensures StrictlySorted(result)
    ensures forall x :: x in result <==> x in ids
  {
    if ids == {} then []
    else
      var id :| id in ids;
      var rest := Sorted(ids - {id});
      InsertSorts(id, rest);
      Insert(id, rest)
  }

  /** What the subnet controller writes for the given NodeClasses. */
  ghost function Resolved(nodeClasses: seq<seq<Subnet>>): seq<string> {
    Sorted(AllIDs(nodeClasses))
  }

  /**
   The aggregation: collect into a set, list the set in any order, sort. Whatever orders the NodeClasses and the
   set are visited in, the result is the same strictly sorted listing of all non-empty IDs.
   */
  method ResolvedSubnetIDs(nodeClasses: seq<seq<Subnet>>) returns (subnetIDs: seq<string>)
    ensures StrictlySorted(subnetIDs)
    ensures forall x :: x in subnetIDs <==> x in AllIDs(nodeClasses)
    ensures subnetIDs == Resolved(nodeClasses)
    ensures forall x :: x in subnetIDs <==>
      x != "" && exists l, subnet :: l in nodeClasses && subnet in l && subnet.id == x
  {
    var unique: set<string> := {};
    for i := 0 to |nodeClasses|
      invariant unique == AllIDs(nodeClasses[..i])
    {
      AllIDsGrow(nodeClasses[..i], [], Subnet("", "", ""));
      assert nodeClasses[i][..0] == [];
      for j := 0 to |nodeClasses[i]|
        invariant unique == AllIDs(nodeClasses[..i] + [nodeClasses[i][..j]])
      {
        var subnet := nodeClasses[i][j];
        AllIDsGrow(nodeClasses[..i], nodeClasses[i][..j], subnet);
        assert nodeClasses[i][..j] + [subnet] == nodeClasses[i][..j + 1];
        if subnet.id != "" { unique := unique + {subnet.id}; }
      }
      assert nodeClasses[i][..|nodeClasses[i]|] == nodeClasses[i];
      assert nodeClasses[..i] + [nodeClasses[i]] == nodeClasses[..i + 1];
    }
    assert nodeClasses[..|nodeClasses|] == nodeClasses;

    subnetIDs := List(unique);
    SortingDistinctSorts(subnetIDs);
    subnetIDs := SortStrings(subnetIDs);
    SortedListingIsUnique(subnetIDs, Resolved(nodeClasses));
    AllIDsAreIDs(nodeClasses);
  }

  lemma AllIDsAreIDs(nodeClasses: seq<seq<Subnet>>)
    ensures forall x :: x in AllIDs(nodeClasses) <==>
      x != "" && exists l, subnet :: l in nodeClasses && subnet in l && subnet.id == x
  {
    forall x | x != "" && exists l, subnet :: l in nodeClasses && subnet in l && subnet.id == x
      ensures x in AllIDs(nodeClasses)
    {
      var l, subnet :| l in nodeClasses && subnet in l && subnet.id == x;
      var i :| 0 <= i < |nodeClasses| && nodeClasses[i] == l;
      var j :| 0 <= j < |l| && l[j] == subnet;
      assert nodeClasses[i][j].id == x;
    }
    forall x | x in AllIDs(nodeClasses)
      ensures x != "" && exists l, subnet :: l in nodeClasses && subnet in l && subnet.id == x
    {
      var i, j :| 0 <= i < |nodeClasses| && 0 <= j < |nodeClasses[i]| && nodeClasses[i][j].id != ""
                  && nodeClasses[i][j].id == x;
      assert nodeClasses[i] in nodeClasses && nodeClasses[i][j] in nodeClasses[i];
    }
  }

  lemma AllIDsGrow(nodeClasses: seq<seq<Subnet>>, last: seq<Subnet>, subnet: Subnet)
    ensures AllIDs(nodeClasses + [[]]) == AllIDs(nodeClasses)
    ensures AllIDs(nodeClasses + [last + [subnet]])
      == AllIDs(nodeClasses + [last]) + (if subnet.id != "" then {subnet.id} else {})
  {
    var a, b := nodeClasses + [last], nodeClasses + [last + [subnet]];
    var n := |nodeClasses|;
    forall x | x in AllIDs(a) ensures x in AllIDs(b) {
      var i, j :| 0 <= i < |a| && 0 <= j < |a[i]| && a[i][j].id != "" && a[i][j].id == x;
      assert b[i][j].id == x;
    }
    forall x | x in AllIDs(b) ensures x in AllIDs(a) || (subnet.id != "" && x == subnet.id) {
      var i, j :| 0 <= i < |b| && 0 <= j < |b[i]| && b[i][j].id != "" && b[i][j].id == x;
      if i == n && j == |last| { assert x == subnet.id; } else { assert a[i][j].id == x; }
    }
    assert subnet.id != "" ==> b[n][|last|].id in AllIDs(b);
    var e := nodeClasses + [[]];
    forall x ensures x in AllIDs(e) <==> x in AllIDs(nodeClasses) {
      if x in AllIDs(nodeClasses) {
        var i, j :| 0 <= i < n && 0 <= j < |nodeClasses[i]| && nodeClasses[i][j].id != "" && nodeClasses[i][j].id == x;
        assert e[i][j].id == x;
      }
      if x in AllIDs(e) {
        var i, j :| 0 <= i < |e| && 0 <= j < |e[i]| && e[i][j].id != "" && e[i][j].id == x;
        assert nodeClasses[i][j].id == x;
      }
    }
  }

  /** The order of the NodeClasses does not matter. */
  lemma ResolvedIgnoresOrder(a: seq<seq<Subnet>>, b: seq<seq<Subnet>>)
    requires multiset(a) == multiset(b)
    ensures Resolved(a) == Resolved(b)
  {
    forall l ensures l in a <==> l in b {
      assert l in a <==> l in multiset(a);
    }
    SameIDs(a, b);
    SameIDs(b, a);
    assert AllIDs(a) == AllIDs(b);
  }

  lemma SameIDs(a: seq<seq<Subnet>>, b: seq<seq<Subnet>>)
    requires forall l :: l in a ==> l in b
    ensures AllIDs(a) <= AllIDs(b)
  {
    forall x | x in AllIDs(a) ensures x in AllIDs(b) {
      var i, j :| 0 <= i < |a| && 0 <= j < |a[i]| && a[i][j].id != "" && a[i][j].id == x;
      assert a[i] in b;
      var k :| 0 <= k < |b| && b[k] == a[i];
      assert b[k][j].id == x;
    }
  }
}
