/** The gateway's nearest-rank percentile, the load driver's, and where the two agree. */
module Percentiles {
  import opened Common

  function Ceil(x: real): int {
    -((-x).Floor)
  }

  // ----- ascending order ------------------------------------------------------

  predicate Sorted(s: seq<real>) {
    forall j, k :: 0 <= j <= k < |s| ==> s[j] <= s[k]
  }

  lemma ConsSorted(x: real, s: seq<real>)
    requires Sorted(s) && forall v :: v in multiset(s) ==> x <= v
    ensures Sorted([x] + s)
  {
    assert forall k :: 0 <= k < |s| ==> s[k] in multiset(s);
  }

  function Insert(x: real, s: seq<real>): (r: seq<real>)
    ensures |r| == |s| + 1 && multiset(r) == multiset{x} + multiset(s)
    ensures Sorted(s) ==> Sorted(r)
  {
    if s == [] || x <= s[0] then [x] + s
    else
      var rest := Insert(x, s[1..]);
      assert s == [s[0]] + s[1..];
      assert Sorted(s) ==> Sorted([s[0]] + rest) by {
        if Sorted(s) {
          ConsSorted(s[0], rest);
        }
      }
      [s[0]] + rest
  }

  /** Ascending order, as a library sort gives it. */
  function Ascending(s: seq<real>): (r: seq<real>)
    ensures Sorted(r) && |r| == |s| && multiset(r) == multiset(s)
  {
    if s == [] then []
    else
      assert s == [s[0]] + s[1..];
      Insert(s[0], Ascending(s[1..]))
  }

  // ----- the gateway's percentile ---------------------------------------------

  /** The 1-based nearest rank of percentile `p` among `n` samples, before clamping. */
  function Rank(p: real, n: nat): int {
    Ceil(p / 100.0 * n as real)
  }

  /** `None` for no samples; otherwise the sample at the clamped nearest rank. */
  function Percentile(sorted: seq<real>, p: real): Option<real> {
    if |sorted| == 0 then None
    else
      var rank := Rank(p, |sorted|);
      Some(sorted[Min(if rank < 1 then 1 else rank, |sorted|) - 1])
  }

  /** How many samples are at most `v`, and how many are strictly below it. */
  function AtMost(s: seq<real>, v: real): nat {
    if s == [] then 0 else (if s[0] <= v then 1 else 0) + AtMost(s[1..], v)
  }

  function Below(s: seq<real>, v: real): nat {
    if s == [] then 0 else (if s[0] < v then 1 else 0) + Below(s[1..], v)
  }

  /** The order statistic itself: a sample that enough samples do not exceed and too few undercut. */
  predicate IsNearestRank(s: seq<real>, rank: int, v: real) {
    v in s && Below(s, v) < rank <= AtMost(s, v)
  }

  lemma {:induction false} CountsAppend(s: seq<real>, t: seq<real>, v: real)
    ensures AtMost(s + t, v) == AtMost(s, v) + AtMost(t, v)
    ensures Below(s + t, v) == Below(s, v) + Below(t, v)
  {
    if s == [] {
      assert s + t == t;
    } else {
      assert (s + t)[1..] == s[1..] + t && (s + t)[0] == s[0];
      CountsAppend(s[1..], t, v);
    }
  }

  lemma CountsRemove(t: seq<real>, k: nat, v: real)
    requires k < |t|
    ensures AtMost(t, v) == AtMost(Without(t, k), v) + AtMost([t[k]], v)
    ensures Below(t, v) == Below(Without(t, k), v) + Below([t[k]], v)
  {
    hide AtMost, Below;
    var front, one, back := t[..k], [t[k]], t[k + 1..];
    assert t == front + (one + back);
    CountsAppend(front, one + back, v);
    CountsAppend(one, back, v);
    CountsAppend(front, back, v);
  }

  /** Both counts depend on the samples only as a multiset, never on bucket or sample order. */
  lemma {:induction false} CountsIgnoreOrder(s: seq<real>, t: seq<real>, v: real)
    requires multiset(s) == multiset(t)
    ensures AtMost(s, v) == AtMost(t, v) && Below(s, v) == Below(t, v)
  {
    SameLength(s, t);
    if s != [] {
      hide AtMost, Below;
      var k := SameElements(s, t);
      CountsRemove(s, 0, v);
      CountsRemove(t, k, v);
      CountsIgnoreOrder(Without(s, 0), Without(t, k), v);
    }
  }

  lemma {:induction false} CountsAreMonotone(s: seq<real>, u: real, v: real)
    requires u < v
    ensures AtMost(s, u) <= Below(s, v)
  {
    if s != [] {
      CountsAreMonotone(s[1..], u, v);
    }
  }

  lemma {:induction false} AllCounted(s: seq<real>, v: real)
    ensures (forall k :: 0 <= k < |s| ==> s[k] <= v) ==> AtMost(s, v) == |s|
    ensures (forall k :: 0 <= k < |s| ==> s[k] >= v) ==> Below(s, v) == 0
    ensures Below(s, v) <= AtMost(s, v) <= |s|
  {
    if s != [] {
      AllCounted(s[1..], v);
    }
  }

  lemma SortedPosition(s: seq<real>, k: nat)
    requires Sorted(s) && k < |s|
    ensures Below(s, s[k]) <= k < AtMost(s, s[k])
  {
    hide AtMost, Below;
    assert s == s[..k + 1] + s[k + 1..];
    CountsAppend(s[..k + 1], s[k + 1..], s[k]);
    AllCounted(s[..k + 1], s[k]);
    assert s == s[..k] + s[k..];
    CountsAppend(s[..k], s[k..], s[k]);
    AllCounted(s[..k], s[k]);
    AllCounted(s[k..], s[k]);
  }

  lemma NearestRankUnique(s: seq<real>, rank: int, u: real, v: real)
    requires IsNearestRank(s, rank, u) && IsNearestRank(s, rank, v)
    ensures u == v
  {
    if u < v {
      CountsAreMonotone(s, u, v);
    } else if v < u {
      CountsAreMonotone(s, v, u);
    }
  }

  lemma RankInRange(p: real, n: nat)
    requires 0.0 < p <= 100.0 && n > 0
    ensures 1 <= Rank(p, n) <= n
  {
    var x := p / 100.0 * n as real;
    var q := p / 100.0;
    assert 0.0 < q <= 1.0;
    assert x == q * n as real;
    assert x > 0.0;
    assert n as real - x == (1.0 - q) * n as real;
    assert x <= n as real;
  }

  /** The reported value is the nearest-rank statistic of the samples, in whatever order they came:
      it is some sample, at least ceil(p*n/100) samples do not exceed it, fewer lie strictly below. */
  lemma PercentileIsNearestRank(samples: seq<real>, p: real, v: real)
    requires 0.0 < p <= 100.0
    ensures Percentile(Ascending(samples), p) == Some(v) <==> IsNearestRank(samples, Rank(p, |samples|), v)
    ensures Percentile(Ascending(samples), p) == None <==> samples == []
  {
    hide AtMost, Below, Ascending, Rank;
    var s := Ascending(samples);
    if samples != [] {
      var rank := Rank(p, |s|);
      RankInRange(p, |s|);
      var u := s[rank - 1];
      SortedPosition(s, rank - 1);
      CountsIgnoreOrder(s, samples, u);
      assert u in multiset(s);
      assert IsNearestRank(samples, rank, u);
      if IsNearestRank(samples, rank, v) {
        NearestRankUnique(samples, rank, u, v);
      }
    }
  }

  /** A snapshot's percentiles do not depend on the order of buckets or of samples within them. */
  lemma PercentileIgnoresOrder(s: seq<real>, t: seq<real>, p: real)
    requires 0.0 < p <= 100.0 && multiset(s) == multiset(t)
    ensures Percentile(Ascending(s), p) == Percentile(Ascending(t), p)
  {
    assert |multiset(s)| == |multiset(t)|;
    if s != [] {
      var v := Percentile(Ascending(s), p).value;
      PercentileIsNearestRank(s, p, v);
      PercentileIsNearestRank(t, p, v);
      CountsIgnoreOrder(s, t, v);
      assert v in multiset(s);
    }
  }

  lemma RankMonotone(p: real, q: real, n: nat)
    requires p <= q
    ensures Rank(p, n) <= Rank(q, n)
  {
    assert (q / 100.0 - p / 100.0) * n as real >= 0.0;
    assert q / 100.0 * n as real - p / 100.0 * n as real == (q / 100.0 - p / 100.0) * n as real;
  }

  /** A higher percentile is never a lower latency: p50 <= p95 <= p99. */
  lemma PercentileMonotone(samples: seq<real>, p: real, q: real)
    requires 0.0 < p <= q <= 100.0 && samples != []
    ensures Percentile(Ascending(samples), p).value <= Percentile(Ascending(samples), q).value
  {
    hide AtMost, Below, Rank;
    var u, v := Percentile(Ascending(samples), p).value, Percentile(Ascending(samples), q).value;
    PercentileIsNearestRank(samples, p, u);
    PercentileIsNearestRank(samples, q, v);
    RankMonotone(p, q, |samples|);
    if v < u {
      CountsAreMonotone(samples, v, u);
    }
  }

  lemma {:induction false} SlowerSamplesCountLess(s: seq<real>, t: seq<real>, v: real)
    requires |s| == |t| && forall k :: 0 <= k < |s| ==> s[k] <= t[k]
    ensures AtMost(t, v) <= AtMost(s, v)
  {
    if s != [] {
      SlowerSamplesCountLess(s[1..], t[1..], v);
    }
  }

  /** If no sample got faster, no percentile got lower. */
  lemma PercentileFollowsSamples(s: seq<real>, t: seq<real>, p: real)
    requires 0.0 < p <= 100.0
    requires |s| == |t| > 0 && forall k :: 0 <= k < |s| ==> s[k] <= t[k]
    ensures Percentile(Ascending(s), p).value <= Percentile(Ascending(t), p).value
  {
    hide AtMost, Below, Rank;
    var u, v := Percentile(Ascending(s), p).value, Percentile(Ascending(t), p).value;
    PercentileIsNearestRank(s, p, u);
    PercentileIsNearestRank(t, p, v);
    SlowerSamplesCountLess(s, t, v);
    if v < u {
      CountsAreMonotone(s, v, u);
    }
  }

  // ----- the load driver's percentile -------------------------------------------

  /** Round half to even. */
  function Round(x: real): int {
    var k := x.Floor;
    var frac := x - k as real;
    if frac < 0.5 then k
    else if frac > 0.5 then k + 1
    else if k % 2 == 0 then k else k + 1
  }

  /** The 1-based rank the load driver uses, before clamping. */
  function DriverRank(fraction: real, n: nat): int {
    Round(fraction * n as real + 0.5)
  }

  /** The position each side reads in the ascending samples. */
  function DriverIndex(fraction: real, n: nat): int {
    var last := n - 1;
    var i := Min(last, DriverRank(fraction, n) - 1);
    if i < 0 then 0 else i
  }

  function GatewayIndex(p: real, n: nat): int {
    var rank := Rank(p, n);
    Min(if rank < 1 then 1 else rank, n) - 1
  }

  predicate OddInteger(x: real) {
    x == x.Floor as real && x.Floor % 2 == 1
  }

  /** fraction * n is an odd integer, and not n itself. */
  predicate Disputed(fraction: real, n: nat) {
    OddInteger(fraction * n as real) && fraction * n as real < n as real
  }

  lemma RoundUpExceptOdd(x: real)
    ensures Round(x + 0.5) == Ceil(x) + if OddInteger(x) then 1 else 0
  {
    var k := x.Floor;
    if x == k as real {
      assert (x + 0.5).Floor == k;
      assert Ceil(x) == k;
    } else {
      assert Ceil(x) == k + 1;
    }
  }

  /** The driver's rank is the nearest rank, plus one exactly when fraction * n is an odd integer. */
  lemma DriverRankIs(fraction: real, n: nat)
    ensures Rank(100.0 * fraction, n) == Ceil(fraction * n as real)
    ensures DriverRank(fraction, n) ==
            Rank(100.0 * fraction, n) + if OddInteger(fraction * n as real) then 1 else 0
  {
    assert 100.0 * fraction / 100.0 == fraction;
    RoundUpExceptOdd(fraction * n as real);
  }

  lemma OddShort(x: real, n: nat)
    ensures OddInteger(x) ==> (x < n as real <==> Ceil(x) < n)
  {
    IntegerCeil(x.Floor, n);
  }

  lemma ClampedApart(driver: int, gateway: int, n: nat)
    requires 1 <= gateway <= n && gateway <= driver <= gateway + 1
    ensures
      var i, j := Min(n - 1, driver - 1), Min(gateway, n) - 1;
      0 <= j <= i <= j + 1 && (i == j <==> (driver == gateway || gateway == n))
  {
  }

  /** After clamping, the two percentiles read different positions exactly when fraction * n is an odd
      integer short of n, and then the driver reads the next one up. */
  lemma DriverMatchesGatewayIff(fraction: real, n: nat)
    requires 0.0 < fraction <= 1.0 && n > 0
    ensures DriverIndex(fraction, n) ==
            GatewayIndex(100.0 * fraction, n) + if Disputed(fraction, n) then 1 else 0
  {
    hide Rank, DriverRank, OddInteger, Ceil;
    DriverRankIs(fraction, n);
    OddShort(fraction * n as real, n);
    RankInRange(100.0 * fraction, n);
    ClampedApart(DriverRank(fraction, n), Rank(100.0 * fraction, n), n);
  }

  lemma IntegerCeil(k: int, n: nat)
    ensures Ceil(k as real) == k
    ensures k as real < n as real <==> k < n
  {
    assert -(k as real) == (-k) as real;
  }

  /** The median of ten samples is where the two part company: x = 5, so the driver reads the sixth. */
  lemma DriverDiffersAtTheMedianOfTen()
    ensures DriverIndex(0.5, 10) == 5 && GatewayIndex(50.0, 10) == 4
  {
    assert 0.5 * 10 as real == 5.0;
    RoundUpExceptOdd(5.0);
    assert 50.0 / 100.0 * 10 as real == 5.0;
  }
}
