/** The counts that the AutoNode status reports, and the int arithmetic behind them. */
module AutoNodeCount {
  import opened Wrappers

  /** Only what the counts can depend on; `rest` stands for everything else in the object. */
  datatype Node = Node(karpenter: bool, rest: int)

  /** `cpu` is the CPU capacity in thousandths, if the NodeClaim reports one. */
  datatype NodeClaim = NodeClaim(nodeName: string, cpu: Option<nat>, rest: int)

  datatype AutoNode = AutoNode(nodeCount: int, nodeClaimCount: int, vcpus: int)

  const TWO32 := 0x1_0000_0000
  const TWO64 := 0x1_0000_0000_0000_0000

  /** Go's conversion to int32. */
  function ToInt32(x: int): int {
    (x + TWO32 / 2) % TWO32 - TWO32 / 2
  }

  /** Go's int64 arithmetic wraps. */
  function Wrap64(x: int): int {
    (x + TWO64 / 2) % TWO64 - TWO64 / 2
  }

  /** Quantity.Value rounds up. */
  function Value(milli: nat): nat {
    (milli + 999) / 1000
  }

  predicate Counted(claim: NodeClaim, live: set<string>) {
    claim.nodeName in live && claim.cpu.Some?
  }

  /** The exact sum of whole vCPUs over the NodeClaims with a live node. */
  function Sum(claims: seq<NodeClaim>, live: set<string>): nat {
    if claims == [] then 0
    else (if Counted(claims[0], live) then Value(claims[0].cpu.value) else 0) + Sum(claims[1..], live)
  }

  function ExactMilli(claims: seq<NodeClaim>, live: set<string>): nat {
    if claims == [] then 0
    else (if Counted(claims[0], live) then claims[0].cpu.value else 0) + ExactMilli(claims[1..], live)
  }

  function CountedClaims(claims: seq<NodeClaim>, live: set<string>): nat {
    if claims == [] then 0 else (if Counted(claims[0], live) then 1 else 0) + CountedClaims(claims[1..], live)
  }

  /** Rounding up each NodeClaim never loses capacity and adds less than one vCPU for each counted NodeClaim. */
  lemma {:induction false} RoundingIsBounded(claims: seq<NodeClaim>, live: set<string>)
    ensures 0 <= Sum(claims, live) * 1000 - ExactMilli(claims, live) <= 999 * CountedClaims(claims, live)
  {
    if claims != [] { RoundingIsBounded(claims[1..], live); }
  }

  /** Only a NodeClaim with a live node and a CPU capacity is counted, with its capacity rounded up to whole vCPUs. */
  lemma OneMoreClaim(claims: seq<NodeClaim>, claim: NodeClaim, live: set<string>)
    ensures var more := Sum(claims + [claim], live) - Sum(claims, live);
      if claim.nodeName in live && claim.cpu.Some? then 1000 * (more - 1) < claim.cpu.value <= 1000 * more
      else more == 0
    ensures Sum([], live) == 0
  {
    SumAppends(claims, [claim], live);
  }

  lemma {:induction false} SumAppends(a: seq<NodeClaim>, b: seq<NodeClaim>, live: set<string>)
    ensures Sum(a + b, live) == Sum(a, live) + Sum(b, live)
  {
    if a == [] {
      assert a + b == b;
    } else {
      assert (a + b)[1..] == a[1..] + b;
      SumAppends(a[1..], b, live);
    }
  }

  lemma SumRemoves(b: seq<NodeClaim>, i: nat, live: set<string>)
    requires i < |b|
    ensures var rest := b[..i] + b[i + 1..];
      Sum(b, live) == Sum([b[i]], live) + Sum(rest, live) && multiset(rest) == multiset(b) - multiset{b[i]}
  {
    assert b == b[..i] + ([b[i]] + b[i + 1..]);
    SumAppends(b[..i], b[i + 1..], live);
    SumAppends([b[i]], b[i + 1..], live);
    SumAppends(b[..i], [b[i]] + b[i + 1..], live);
  }

  /** The listing order does not matter. */
  lemma {:induction false} SumIgnoresOrder(a: seq<NodeClaim>, b: seq<NodeClaim>, live: set<string>)
    requires multiset(a) == multiset(b)
    ensures Sum(a, live) == Sum(b, live)
    decreases |a|
  {
    if a == [] {
      assert |multiset(b)| == |b|;
    } else {
      assert a == [a[0]] + a[1..];
      assert a[0] in multiset(a);
      var i :| 0 <= i < |b| && b[i] == a[0];
      var rest := b[..i] + b[i + 1..];
      SumRemoves(b, i, live);
      SumAppends([a[0]], a[1..], live);
      SumIgnoresOrder(a[1..], rest, live);
    }
  }

  lemma WrapStep(x: int, y: int)
    ensures Wrap64(Wrap64(x) + y) == Wrap64(x + y)
  {
    var k := (x + TWO64 / 2) / TWO64;
    assert Wrap64(x) == x - k * TWO64;
    WrapShift(x + y, -k);
  }

  lemma WrapShift(x: int, k: int)
    ensures Wrap64(x + k * TWO64) == Wrap64(x)
  {
    ModShift(x + TWO64 / 2, k, TWO64);
  }

  lemma ModShift(x: int, k: int, m: int)
    requires m > 0
    ensures (x + k * m) % m == x % m
  {
    var q, r := x / m, x % m;
    assert x + k * m == (q + k) * m + r;
    ModUnique(x + k * m, q + k, r, m);
  }

  lemma ModUnique(x: int, q: int, r: int, m: int)
    requires m > 0 && 0 <= r < m && x == q * m + r
    ensures x % m == r
  {
    var d := x / m - q;
    assert d * m == r - x % m;
    assert (d > 0 ==> d * m >= m) && (d < 0 ==> d * m <= -m);
  }

  /** Truncating a wrapped sum to int32 gives what truncating the exact sum would. */
  lemma NarrowingForgetsTheWrap(x: int)
    ensures ToInt32(Wrap64(x)) == ToInt32(x)
  {
    var k := (x + TWO64 / 2) / TWO64;
    assert Wrap64(x) == x - k * TWO64;
    ModShift(x + TWO32 / 2, -k * TWO32, TWO32);
    assert x - k * TWO64 + TWO32 / 2 == (x + TWO32 / 2) + (-k * TWO32) * TWO32;
  }

  /**
   The loop over int64 and the final conversion compute the exact sum modulo 2^32, and so the exact sum itself
   exactly when it is below 2^31.
   */
  method SumNodeClaimVCPUs(claims: seq<NodeClaim>, live: set<string>) returns (vcpus: int)
    ensures vcpus == ToInt32(Sum(claims, live))
    ensures vcpus == Sum(claims, live) <==> Sum(claims, live) < 0x8000_0000
  {
    var total := 0;
    for i := 0 to |claims|
      invariant total == Wrap64(Sum(claims[..i], live))
    {
      assert claims[..i + 1] == claims[..i] + [claims[i]];
      SumAppends(claims[..i], [claims[i]], live);
      if claims[i].nodeName !in live { continue; }
      if claims[i].cpu.Some? {
        WrapStep(Sum(claims[..i], live), Value(claims[i].cpu.value));
        total := Wrap64(total + Value(claims[i].cpu.value));
      }
    }
    assert claims[..|claims|] == claims;
    NarrowingForgetsTheWrap(Sum(claims, live));
    vcpus := ToInt32(total);
  }
}
