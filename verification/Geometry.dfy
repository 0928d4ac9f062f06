/** Window geometry: bucket indices by floor division, and what a bucketed window covers. */
module Geometry {

  /** The two breaker settings the health window reads. */
  datatype Window = Window(windowSeconds: int, bucketSeconds: int) {

    /** Field bounds only: both settings are positive. */
    predicate Positive() {
      windowSeconds > 0 && bucketSeconds > 0
    }

    /** The whole startup check, including the cross-field divisibility rule. */
    predicate Valid() {
      Positive() && windowSeconds % bucketSeconds == 0 && bucketSeconds <= windowSeconds
    }

    function BucketCount(): nat
      requires Positive()
    {
      windowSeconds / bucketSeconds
    }

    function TtlSeconds(): int {
      windowSeconds * 2
    }

    function Ttl(): real {
      TtlSeconds() as real
    }

    function Span(): real {
      windowSeconds as real
    }

    function Width(): real {
      bucketSeconds as real
    }

    /** The floor-divided epoch index of the bucket covering `t`. */
    function BucketOf(t: real): int
      requires Positive()
    {
      (t / Width()).Floor
    }

    /** The oldest index of the window seen from `t`. */
    function Oldest(t: real): int
      requires Positive()
    {
      BucketOf(t) - BucketCount() + 1
    }

    /** Whether the window seen from `t` covers bucket `index`. */
    predicate Covers(t: real, index: int)
      requires Positive()
    {
      Oldest(t) <= index <= BucketOf(t)
    }
  }

  // ----- floor division ---------------------------------------------------

  lemma BucketAtLeast(w: Window, t: real, k: int)
    requires w.Positive()
    ensures w.BucketOf(t) >= k <==> t >= k as real * w.Width()
  {
    var q := t / w.Width();
    assert q * w.Width() == t;
    ScaleOrder(q, k as real, w.Width());
  }

  lemma ScaleOrder(x: real, y: real, b: real)
    requires b > 0.0
    ensures x >= y <==> x * b >= y * b
  {
    assert x * b - y * b == (x - y) * b;
    if x >= y {
      assert (x - y) * b >= 0.0;
    } else {
      assert (y - x) * b > 0.0;
      assert x * b - y * b == -((y - x) * b);
    }
  }

  lemma {:induction false} CastProduct(n: nat, b: int)
    ensures (n * b) as real == n as real * b as real
  {
    if n > 0 {
      CastProduct(n - 1, b);
      assert n * b == (n - 1) * b + b;
      assert n as real * b as real == (n - 1) as real * b as real + b as real;
    }
  }

  lemma BucketMonotone(w: Window, s: real, t: real)
    requires w.Positive() && s <= t
    ensures w.BucketOf(s) <= w.BucketOf(t)
  {
    BucketAtLeast(w, s, w.BucketOf(s));
    BucketAtLeast(w, t, w.BucketOf(s));
  }

  /** Moving time back by whole buckets moves the index back by as many. */
  lemma BucketShift(w: Window, s: real, t: real, n: nat)
    requires w.Positive() && t - s == n as real * w.Width()
    ensures w.BucketOf(s) == w.BucketOf(t) - n
  {
    var k := w.BucketOf(t);
    BucketAtLeast(w, t, k);
    BucketAtLeast(w, t, k + 1);
    BucketAtLeast(w, s, k - n);
    BucketAtLeast(w, s, k - n + 1);
    assert (k - n) as real * w.Width() == k as real * w.Width() - n as real * w.Width();
    assert (k - n + 1) as real * w.Width() == (k + 1) as real * w.Width() - n as real * w.Width();
  }

  lemma BucketStart(w: Window, k: int)
    requires w.Positive()
    ensures w.BucketOf(k as real * w.Width()) == k
  {
    BucketAtLeast(w, k as real * w.Width(), k);
    BucketAtLeast(w, k as real * w.Width(), k + 1);
    ScaleOrder(k as real, (k + 1) as real, w.Width());
  }

  /** The window is exactly its bucket count of whole buckets long. */
  lemma SpanIsWholeBuckets(w: Window)
    requires w.Valid()
    ensures w.BucketCount() >= 1
    ensures w.Span() == w.BucketCount() as real * w.Width()
    ensures w.Ttl() == (2 * w.BucketCount()) as real * w.Width()
  {
    CastProduct(w.BucketCount(), w.bucketSeconds);
    CastProduct(2 * w.BucketCount(), w.bucketSeconds);
  }

  // ----- what the bucketed window promises about ages (decision D3) -----------

  /** An event read at `stamp` that the window seen from `t` still covers is younger than the window. */
  lemma CoveredIsYounger(w: Window, t: real, stamp: real)
    requires w.Valid()
    requires w.BucketOf(stamp) >= w.Oldest(t)
    ensures t - stamp < w.Span()
  {
    SpanIsWholeBuckets(w);
    var before := t - w.Span();
    BucketShift(w, before, t, w.BucketCount());
    if stamp <= before {
      BucketMonotone(w, stamp, before);
    }
  }

  /** An event at least one bucket short of the window's age is always covered. */
  lemma YoungIsCovered(w: Window, t: real, stamp: real)
    requires w.Valid()
    requires stamp <= t && t - stamp <= w.Span() - w.Width()
    ensures w.Covers(t, w.BucketOf(stamp))
  {
    SpanIsWholeBuckets(w);
    BucketMonotone(w, stamp, t);
    var edge := t - (w.Span() - w.Width());
    assert (w.BucketCount() - 1) as real * w.Width() == w.Span() - w.Width();
    BucketShift(w, edge, t, w.BucketCount() - 1);
    BucketMonotone(w, edge, stamp);
  }

  /** Readings at most two windows old fall in the current bucket or the 2 * BucketCount before it. */
  lemma TwoWindowsOfBuckets(w: Window, t: real, stamp: real)
    requires w.Valid() && t - w.Ttl() <= stamp <= t
    ensures w.BucketOf(t) - 2 * w.BucketCount() <= w.BucketOf(stamp) <= w.BucketOf(t)
  {
    SpanIsWholeBuckets(w);
    var edge := t - w.Ttl();
    BucketShift(w, edge, t, 2 * w.BucketCount());
    BucketMonotone(w, edge, stamp);
    BucketMonotone(w, stamp, t);
  }

  /** Every event no older than one bucket short of the window is covered, whenever it is read. */
  ghost predicate NeverTooEarly(w: Window)
    requires w.Positive()
  {
    forall t: real, stamp: real {:trigger w.BucketOf(t), w.BucketOf(stamp)} ::
      stamp <= t && t - stamp <= w.Span() - w.Width() ==> w.Covers(t, w.BucketOf(stamp))
  }

  /**
    The one-bucket early-eviction bound rests on the divisibility check, and on nothing else:
    among positive geometries whose bucket fits the window, it holds exactly for the divisible ones.
   */
  lemma EarlyBoundNeedsWholeBuckets(w: Window)
    requires w.Positive() && w.bucketSeconds <= w.windowSeconds
    ensures NeverTooEarly(w) <==> w.windowSeconds % w.bucketSeconds == 0
  {
    var n := w.BucketCount();
    var spare := w.windowSeconds % w.bucketSeconds;
    assert w.windowSeconds == n * w.bucketSeconds + spare;
    if spare == 0 {
      forall t: real, stamp: real | stamp <= t && t - stamp <= w.Span() - w.Width()
        ensures w.Covers(t, w.BucketOf(stamp))
      {
        YoungIsCovered(w, t, stamp);
      }
    } else {
      var t := 0.0;
      var stamp := w.Width() - w.Span();
      CastProduct(n, w.bucketSeconds);
      assert stamp == (1 - n) as real * w.Width() - spare as real;
      BucketAtLeast(w, stamp, 1 - n);
      BucketAtLeast(w, t, 0);
      BucketAtLeast(w, t, 1);
      assert !w.Covers(t, w.BucketOf(stamp));
    }
  }
}
