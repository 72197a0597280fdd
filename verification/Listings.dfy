/** Listings of the names of a map: every name once, in any order, as Go's map iteration and API lists give them. */
module Listings {

  ghost predicate IsListing<T(!new)>(order: seq<T>, names: set<T>) {
    && (forall n :: n in order <==> n in names)
    && (forall i, j :: 0 <= i < j < |order| ==> order[i] != order[j])
  }

  lemma ExtendListing<T(!new)>(order: seq<T>, names: set<T>, n: T)
    requires IsListing(order, names) && n !in names
    ensures IsListing(order + [n], names + {n})
  {
    var longer := order + [n];
    forall i, j | 0 <= i < j < |longer| ensures longer[i] != longer[j] {
      assert longer[i] == order[i] && order[i] in order;
    }
  }

  method List<T(==, !new)>(names: set<T>) returns (order: seq<T>)
    ensures IsListing(order, names)
  {
    order := [];
    var left := names;
    while left != {}
      invariant left <= names && IsListing(order, names - left)
      decreases |left|
    {
      var n :| n in left;
      ExtendListing(order, names - left, n);
      assert names - left + {n} == names - (left - {n});
      left := left - {n};
      order := order + [n];
    }
    assert names - {} == names;
  }

  ghost function AnyOrder<T(!new)>(names: set<T>): (order: seq<T>)
    ensures IsListing(order, names)
  {
    if names == {} then []
    else
      var n :| n in names;
      var rest := AnyOrder(names - {n});
      assert forall i :: 0 <= i < |rest| ==> rest[i] in rest;
      [n] + rest
  }

  lemma EmptyListing<T(!new)>(order: seq<T>, names: set<T>)
    requires IsListing(order, names)
    ensures order == [] <==> names == {}
  {
    if order != [] { assert order[0] in names; }
  }

  lemma TailIsListing<T(!new)>(order: seq<T>, names: set<T>)
    requires IsListing(order, names) && order != []
    ensures IsListing(order[1..], names - {order[0]}) && order[0] in names
  {
    assert forall n :: n in order <==> n == order[0] || n in order[1..];
  }

  /** How many entries of a listing are in `chosen`. */
  function CountIn<T(==)>(order: seq<T>, chosen: set<T>): nat {
    if order == [] then 0 else (if order[0] in chosen then 1 else 0) + CountIn(order[1..], chosen)
  }

  lemma {:induction false} CountInAppends<T>(order: seq<T>, n: T, chosen: set<T>)
    ensures CountIn(order + [n], chosen) == CountIn(order, chosen) + (if n in chosen then 1 else 0)
  {
    if order == [] {
      assert order + [n] == [n];
    } else {
      CountInAppends(order[1..], n, chosen);
      assert (order + [n])[1..] == order[1..] + [n];
    }
  }

  /** A listing meets each of its names once. */
  lemma {:induction false} CountIsSize<T(!new)>(order: seq<T>, names: set<T>, chosen: set<T>)
    requires IsListing(order, names) && chosen <= names
    ensures CountIn(order, chosen) == |chosen|
    decreases |order|
  {
    if order == [] {
      assert chosen == {};
    } else {
      TailIsListing(order, names);
      CountIsSize(order[1..], names - {order[0]}, chosen - {order[0]});
      SameCount(order[1..], chosen, chosen - {order[0]});
    }
  }

  lemma {:induction false} SameCount<T>(order: seq<T>, a: set<T>, b: set<T>)
    requires forall n :: n in order ==> (n in a <==> n in b)
    ensures CountIn(order, a) == CountIn(order, b)
  {
    if order != [] { SameCount(order[1..], a, b); }
  }

  lemma {:induction false} ListingLength<T(!new)>(order: seq<T>, names: set<T>)
    requires IsListing(order, names)
    ensures |order| == |names|
    decreases |order|
  {
    if order != [] {
      TailIsListing(order, names);
      ListingLength(order[1..], names - {order[0]});
    }
  }
}
