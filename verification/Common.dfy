/** Small shared vocabulary: options, results, and sums over sequences. */
module Common {

  datatype Option<+T> = None | Some(value: T)

  datatype Result<+T, +E> = Success(value: T) | Failure(error: E)

  function Min(a: int, b: int): int {
    if a < b then a else b
  }

  function Sum(xs: seq<int>): int {
    if xs == [] then 0 else Sum(xs[..|xs| - 1]) + xs[|xs| - 1]
  }

  lemma {:induction false} SumLe(xs: seq<int>, ys: seq<int>)
    requires |xs| == |ys|
    requires forall k :: 0 <= k < |xs| ==> xs[k] <= ys[k]
    ensures Sum(xs) <= Sum(ys)
    ensures Sum(xs) == Sum(ys) ==> xs == ys
  {
    if xs != [] {
      SumLe(xs[..|xs| - 1], ys[..|ys| - 1]);
      if Sum(xs) == Sum(ys) {
        assert xs == xs[..|xs| - 1] + [xs[|xs| - 1]];
        assert ys == ys[..|ys| - 1] + [ys[|ys| - 1]];
      }
    }
  }

  lemma {:induction false} SumAdd(xs: seq<int>, ys: seq<int>, zs: seq<int>)
    requires |xs| == |ys| == |zs|
    requires forall k :: 0 <= k < |xs| ==> zs[k] == xs[k] + ys[k]
    ensures Sum(zs) == Sum(xs) + Sum(ys)
  {
    if xs != [] {
      SumAdd(xs[..|xs| - 1], ys[..|ys| - 1], zs[..|zs| - 1]);
    }
  }

  lemma {:induction false} SumConcat(xs: seq<int>, ys: seq<int>)
    ensures Sum(xs + ys) == Sum(xs) + Sum(ys)
  {
    if ys == [] {
      assert xs + ys == xs;
    } else {
      assert (xs + ys)[..|xs + ys| - 1] == xs + ys[..|ys| - 1];
      SumConcat(xs, ys[..|ys| - 1]);
    }
  }

  function Without<T>(s: seq<T>, k: nat): seq<T>
    requires k < |s|
  {
    s[..k] + s[k + 1..]
  }

  lemma SplitAt<T>(s: seq<T>, k: nat)
    requires k < |s|
    ensures s == s[..k] + ([s[k]] + s[k + 1..])
  {
  }

  lemma HeadAndTail<T>(s: seq<T>)
    requires s != []
    ensures s == [s[0]] + s[1..] && multiset(s) == multiset(s[1..]) + multiset{s[0]}
  {
    assert s == [s[0]] + s[1..];
  }

  lemma WithoutOne<T>(s: seq<T>, k: nat)
    requires k < |s|
    ensures multiset(s) == multiset(Without(s, k)) + multiset{s[k]}
  {
    assert s == s[..k] + ([s[k]] + s[k + 1..]);
  }

  lemma CancelOne<T>(a: multiset<T>, b: multiset<T>, x: T)
    requires a + multiset{x} == b + multiset{x}
    ensures a == b
  {
    assert a == (a + multiset{x}) - multiset{x};
    assert b == (b + multiset{x}) - multiset{x};
  }

  /** Two arrangements of the same elements: the first element of one is somewhere in the other, and
      without it they are again two arrangements of the same elements. */
  lemma SameElements<T>(a: seq<T>, b: seq<T>) returns (k: nat)
    requires multiset(a) == multiset(b) && a != []
    ensures k < |b| && b[k] == a[0]
    ensures multiset(Without(a, 0)) == multiset(Without(b, k))
  {
    assert a[0] in multiset(b);
    k :| 0 <= k < |b| && b[k] == a[0];
    WithoutOne(a, 0);
    WithoutOne(b, k);
    CancelOne(multiset(Without(a, 0)), multiset(Without(b, k)), a[0]);
  }

  lemma SameLength<T>(a: seq<T>, b: seq<T>)
    requires multiset(a) == multiset(b)
    ensures |a| == |b|
  {
    assert |multiset(a)| == |multiset(b)|;
  }

  // ----- counting the elements of a kind ------------------------------------------------

  function CountIf<T>(xs: seq<T>, p: T -> bool): nat {
    if xs == [] then 0 else CountIf(xs[..|xs| - 1], p) + if p(xs[|xs| - 1]) then 1 else 0
  }

  lemma {:induction false} CountIfUpdate<T>(xs: seq<T>, k: nat, x: T, p: T -> bool)
    requires k < |xs|
    ensures CountIf(xs[k := x], p) + (if p(xs[k]) then 1 else 0) == CountIf(xs, p) + if p(x) then 1 else 0
  {
    if k == |xs| - 1 {
      assert xs[k := x][..k] == xs[..k];
    } else {
      assert xs[k := x][..|xs| - 1] == xs[..|xs| - 1][k := x];
      CountIfUpdate(xs[..|xs| - 1], k, x, p);
    }
  }

  lemma CountIfSnoc<T>(xs: seq<T>, x: T, p: T -> bool)
    ensures CountIf(xs + [x], p) == CountIf(xs, p) + if p(x) then 1 else 0
  {
    assert (xs + [x])[..|xs|] == xs;
  }

  lemma {:induction false} CountIfBounds<T>(xs: seq<T>, p: T -> bool, q: T -> bool)
    requires forall x :: x in xs && p(x) ==> q(x)
    ensures CountIf(xs, p) <= CountIf(xs, q) <= |xs|
    ensures CountIf(xs, p) == |xs| <==> forall x :: x in xs ==> p(x)
    ensures CountIf(xs, p) == 0 <==> forall x :: x in xs ==> !p(x)
  {
    if xs != [] {
      CountIfBounds(xs[..|xs| - 1], p, q);
      assert forall x :: x in xs <==> x in xs[..|xs| - 1] || x == xs[|xs| - 1];
    }
  }

  /** Elements split the same way one by one split the same way in number. */
  lemma {:induction false} CountIfSplit<T>(xs: seq<T>, a: T -> bool, b: T -> bool, c: T -> bool, d: T -> bool,
                                           e: T -> bool)
    requires forall x :: x in xs ==>
               (if a(x) then 1 else 0) + (if b(x) then 1 else 0) ==
               (if c(x) then 1 else 0) + (if d(x) then 1 else 0) + (if e(x) then 1 else 0)
    ensures CountIf(xs, a) + CountIf(xs, b) == CountIf(xs, c) + CountIf(xs, d) + CountIf(xs, e)
  {
    if xs != [] {
      assert xs[|xs| - 1] in xs;
      CountIfSplit(xs[..|xs| - 1], a, b, c, d, e);
    }
  }

  function RealSum<T>(xs: seq<T>, f: T -> real): real {
    if xs == [] then 0.0 else RealSum(xs[..|xs| - 1], f) + f(xs[|xs| - 1])
  }

  lemma {:induction false} RealSumUpdate<T>(xs: seq<T>, k: nat, x: T, f: T -> real)
    requires k < |xs|
    ensures RealSum(xs[k := x], f) == RealSum(xs, f) - f(xs[k]) + f(x)
  {
    if k == |xs| - 1 {
      assert xs[k := x][..k] == xs[..k];
    } else {
      assert xs[k := x][..|xs| - 1] == xs[..|xs| - 1][k := x];
      RealSumUpdate(xs[..|xs| - 1], k, x, f);
    }
  }

  lemma RealSumSnoc<T>(xs: seq<T>, x: T, f: T -> real)
    ensures RealSum(xs + [x], f) == RealSum(xs, f) + f(x)
  {
    assert (xs + [x])[..|xs|] == xs;
  }

  lemma SameKind<T>(xs: seq<T>, p: T -> bool, q: T -> bool)
    requires forall x :: x in xs ==> (p(x) <==> q(x))
    ensures CountIf(xs, p) == CountIf(xs, q)
  {
    CountIfBounds(xs, p, q);
    CountIfBounds(xs, q, p);
  }

  lemma {:induction false} CountIfNone<T(!new)>(xs: seq<T>, p: T -> bool)
    requires forall x :: !p(x)
    ensures CountIf(xs, p) == 0
  {
    if xs != [] {
      CountIfNone(xs[..|xs| - 1], p);
    }
  }
}
