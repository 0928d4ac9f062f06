/** What a merged window read says about the log: exactness, clock steps, torn reads, memory. */
module WindowReads {
  import opened Common
  import opened Taxonomy
  import opened Geometry
  import opened Redis
  import opened WindowLog

  // ----- sums over a range of buckets ------------------------------------------

  function BucketCounts(log: seq<Commit>, p: string, lo: int, n: nat, o: Outcome): (r: seq<int>)
    ensures |r| == n && forall k :: 0 <= k < n ==> r[k] == Count(BucketLog(log, p, lo + k), o)
  {
    seq(n, k requires 0 <= k < n => Count(BucketLog(log, p, lo + k), o))
  }

  /** One field of every reply, as integers. */
  function Column(replies: seq<map<string, Raw>>, field: string): (r: seq<int>)
    ensures |r| == |replies| && forall k :: 0 <= k < |r| ==> r[k] == FieldCount(replies[k], field)
  {
    seq(|replies|, k requires 0 <= k < |replies| => FieldCount(replies[k], field))
  }

  function Merged(replies: seq<map<string, Raw>>, o: Outcome): int {
    Sum(Column(replies, FieldFor(o)))
  }

  lemma {:induction false} SumOneHot(xs: seq<int>, ys: seq<int>, hot: int)
    requires |xs| == |ys|
    requires forall k :: 0 <= k < |xs| ==> ys[k] == xs[k] + if k == hot then 1 else 0
    ensures Sum(ys) == Sum(xs) + if 0 <= hot < |xs| then 1 else 0
  {
    if xs != [] {
      SumOneHot(xs[..|xs| - 1], ys[..|ys| - 1], hot);
    }
  }

  lemma {:induction false} SumZeros(xs: seq<int>)
    requires forall k :: 0 <= k < |xs| ==> xs[k] == 0
    ensures Sum(xs) == 0
  {
    if xs != [] {
      SumZeros(xs[..|xs| - 1]);
    }
  }

  lemma CountSnoc(log: seq<Commit>, e: Commit, p: string, i: int, o: Outcome)
    ensures Count(BucketLog(log + [e], p, i), o) ==
            Count(BucketLog(log, p, i), o) + if InBucket(e, p, i) && e.attempt.outcome == o then 1 else 0
  {
    BucketLogSnoc(log, e, p, i);
    var bl := BucketLog(log, p, i);
    assert (bl + [e])[..|bl|] == bl;
  }

  lemma CountInRangeSnoc(log: seq<Commit>, e: Commit, p: string, lo: int, n: nat, o: Outcome)
    ensures CountInRange(log + [e], p, lo, n, o) == CountInRange(log, p, lo, n, o) +
            if e.attempt.provider == p && lo <= e.index < lo + n && e.attempt.outcome == o then 1 else 0
  {
    assert (log + [e])[..|log|] == log;
  }

  lemma BucketCountsSnoc(log: seq<Commit>, e: Commit, p: string, lo: int, n: nat, o: Outcome)
    ensures Sum(BucketCounts(log + [e], p, lo, n, o)) == Sum(BucketCounts(log, p, lo, n, o)) +
            if e.attempt.provider == p && lo <= e.index < lo + n && e.attempt.outcome == o then 1 else 0
  {
    var hot := if e.attempt.provider == p && e.attempt.outcome == o then e.index - lo else -1;
    var xs, ys := BucketCounts(log, p, lo, n, o), BucketCounts(log + [e], p, lo, n, o);
    forall k | 0 <= k < n
      ensures ys[k] == xs[k] + if k == hot then 1 else 0
    {
      CountSnoc(log, e, p, lo + k, o);
    }
    SumOneHot(xs, ys, hot);
  }

  /** Summing bucket by bucket counts every in-range commit once, and nothing else. */
  lemma {:induction false} RangeIsSumOfBuckets(log: seq<Commit>, p: string, lo: int, n: nat, o: Outcome)
    ensures Sum(BucketCounts(log, p, lo, n, o)) == CountInRange(log, p, lo, n, o)
  {
    if log == [] {
      SumZeros(BucketCounts(log, p, lo, n, o));
    } else {
      var init, e := log[..|log| - 1], log[|log| - 1];
      RangeIsSumOfBuckets(init, p, lo, n, o);
      assert log == init + [e];
      BucketCountsSnoc(init, e, p, lo, n, o);
      CountInRangeSnoc(init, e, p, lo, n, o);
    }
  }

  // ----- a read of one instant ---------------------------------------------------

  /** The replies of a window read issued while nothing else happens. */
  ghost predicate QuietReplies(replies: seq<map<string, Raw>>, log: seq<Commit>, now: real, ttl: real, p: string,
                               lo: int) {
    forall k :: 0 <= k < |replies| ==> replies[k] == HashOf(Visible(BucketLog(log, p, lo + k), now, ttl))
  }

  /** No bucket lo .. lo + n - 1 has lost a commit to expiry. */
  ghost predicate RangeUnbroken(log: seq<Commit>, now: real, ttl: real, p: string, lo: int, n: nat) {
    forall i :: lo <= i < lo + n ==> Unbroken(BucketLog(log, p, i), now, ttl)
  }

  lemma ColumnCounts(replies: seq<map<string, Raw>>, log: seq<Commit>, now: real, ttl: real, p: string, lo: int,
                     o: Outcome, k: nat)
    requires QuietReplies(replies, log, now, ttl, p, lo) && k < |replies|
    ensures Column(replies, FieldFor(o))[k] == Count(Visible(BucketLog(log, p, lo + k), now, ttl), o)
    ensures Column(replies, FieldFor(o))[k] <= BucketCounts(log, p, lo, |replies|, o)[k]
  {
    HashCounts(Visible(BucketLog(log, p, lo + k), now, ttl), o);
    VisibleCounts(BucketLog(log, p, lo + k), now, ttl, o);
  }

  lemma ReadOutcome(replies: seq<map<string, Raw>>, log: seq<Commit>, now: real, ttl: real, p: string, lo: int,
                    o: Outcome)
    requires QuietReplies(replies, log, now, ttl, p, lo)
    ensures Merged(replies, o) <= CountInRange(log, p, lo, |replies|, o)
    ensures Merged(replies, o) == CountInRange(log, p, lo, |replies|, o) ==>
            Column(replies, FieldFor(o)) == BucketCounts(log, p, lo, |replies|, o)
    ensures RangeUnbroken(log, now, ttl, p, lo, |replies|) ==>
            Merged(replies, o) == CountInRange(log, p, lo, |replies|, o)
  {
    var n := |replies|;
    var xs, ys := Column(replies, FieldFor(o)), BucketCounts(log, p, lo, n, o);
    RangeIsSumOfBuckets(log, p, lo, n, o);
    forall k | 0 <= k < n
      ensures xs[k] <= ys[k]
      ensures RangeUnbroken(log, now, ttl, p, lo, n) ==> xs[k] == ys[k]
    {
      ColumnCounts(replies, log, now, ttl, p, lo, o, k);
      VisibleCounts(BucketLog(log, p, lo + k), now, ttl, o);
    }
    SumLe(xs, ys);
    if RangeUnbroken(log, now, ttl, p, lo, n) {
      assert xs == ys;
    }
  }

  /** A quiet read equals the histogram of in-range commits exactly when no in-range bucket ever went
      longer than the TTL without a commit; with no assumption on clocks, times or writers. */
  lemma ReadExactIff(replies: seq<map<string, Raw>>, log: seq<Commit>, now: real, ttl: real, p: string, lo: int)
    requires QuietReplies(replies, log, now, ttl, p, lo)
    ensures forall o :: Merged(replies, o) <= CountInRange(log, p, lo, |replies|, o)
    ensures (forall o :: Merged(replies, o) == CountInRange(log, p, lo, |replies|, o)) <==>
            RangeUnbroken(log, now, ttl, p, lo, |replies|)
  {
    forall o
      ensures Merged(replies, o) <= CountInRange(log, p, lo, |replies|, o)
      ensures RangeUnbroken(log, now, ttl, p, lo, |replies|) ==>
              Merged(replies, o) == CountInRange(log, p, lo, |replies|, o)
    {
      ReadOutcome(replies, log, now, ttl, p, lo, o);
    }
    if !RangeUnbroken(log, now, ttl, p, lo, |replies|) {
      var i :| lo <= i < lo + |replies| && !Unbroken(BucketLog(log, p, i), now, ttl);
      var o := BrokenReadIsShort(replies, log, now, ttl, p, lo, i - lo);
    }
  }

  lemma BrokenReadIsShort(replies: seq<map<string, Raw>>, log: seq<Commit>, now: real, ttl: real, p: string, lo: int,
                          k: nat)
    returns (o: Outcome)
    requires QuietReplies(replies, log, now, ttl, p, lo) && k < |replies|
    requires !Unbroken(BucketLog(log, p, lo + k), now, ttl)
    ensures Merged(replies, o) != CountInRange(log, p, lo, |replies|, o)
  {
    o := BrokenLosesOne(BucketLog(log, p, lo + k), now, ttl);
    ColumnCounts(replies, log, now, ttl, p, lo, o, k);
    ReadOutcome(replies, log, now, ttl, p, lo, o);
  }

  // ----- clock steps against the TTL ------------------------------------------------

  /** Every commit was filed under the bucket of its own reading, and no reading was ahead of the
      server by more than `lag` allows: `lag` is the least lead of server over gateway clock. */
  ghost predicate WellFiled(w: Window, log: seq<Commit>, lag: real)
    requires w.Positive()
  {
    forall k :: 0 <= k < |log| ==> log[k].index == w.BucketOf(log[k].reading) && log[k].at - log[k].reading >= lag
  }

  lemma {:induction false} BucketLogTimed(log: seq<Commit>, now: real, p: string, i: int)
    requires WellTimed(log, now)
    ensures WellTimed(BucketLog(log, p, i), now)
  {
    if log != [] {
      BucketLogTimed(log[..|log| - 1], now, p, i);
    }
  }

  /** A commit the reader's window still covers is no older than the TTL. */
  lemma WithinTtl(w: Window, now: real, lag: real, reading: real, stamp: real, at: real)
    requires reading - stamp < w.Span() && at - stamp >= lag && now - reading <= lag + w.Span()
    ensures now < at + w.Ttl()
  {
    TtlIsTwoSpans(w);
  }

  lemma TtlIsTwoSpans(w: Window)
    ensures w.Ttl() == w.Span() + w.Span()
  {
  }

  lemma NothingOverdue(bl: seq<Commit>, now: real, ttl: real)
    requires WellTimed(bl, now) && forall k :: 0 <= k < |bl| ==> now < bl[k].at + ttl
    ensures Unbroken(bl, now, ttl)
  {
    forall k | 0 < k < |bl| ensures bl[k].at <= bl[k - 1].at + ttl {
      assert now < bl[k - 1].at + ttl && bl[k].at <= now;
    }
  }

  /** A reader whose clock has fallen back by at most one whole window never looks for an expired bucket. */
  lemma InRangeNeverExpires(w: Window, log: seq<Commit>, now: real, lag: real, reading: real, p: string, i: int)
    requires w.Valid() && WellFiled(w, log, lag) && WellTimed(log, now)
    requires now - reading <= lag + w.Span()
    requires w.Covers(reading, i)
    ensures Unbroken(BucketLog(log, p, i), now, w.Ttl())
  {
    var bl := BucketLog(log, p, i);
    BucketLogTimed(log, now, p, i);
    assert forall k :: 0 <= k < |bl| ==> bl[k] in log && bl[k].index == i;
    hide BucketLog, WellTimed, Unbroken;
    forall k | 0 <= k < |bl|
      ensures now < bl[k].at + w.Ttl()
    {
      FiledCommit(w, log, lag, bl[k]);
      hide *;
      CoveredIsYounger(w, reading, bl[k].reading);
      WithinTtl(w, now, lag, reading, bl[k].reading, bl[k].at);
    }
    NothingOverdue(bl, now, w.Ttl());
  }

  lemma FiledCommit(w: Window, log: seq<Commit>, lag: real, e: Commit)
    requires w.Positive() && WellFiled(w, log, lag) && e in log
    ensures e.index == w.BucketOf(e.reading) && e.at - e.reading >= lag
  {
  }

  ghost predicate ToleratesStep(w: Window, step: real)
    requires w.Valid()
  {
    forall log: seq<Commit>, now: real, lag: real, reading: real, p: string, i: int
      {:trigger WellFiled(w, log, lag), WellTimed(log, now), w.Covers(reading, i), BucketLog(log, p, i)} ::
      WellFiled(w, log, lag) && WellTimed(log, now) && now - reading <= lag + step && w.Covers(reading, i) ==>
      Unbroken(BucketLog(log, p, i), now, w.Ttl())
  }

  /** One whole window is exactly the backward step the TTL absorbs: no smaller, no larger. */
  lemma ToleratedStepIsOneWindow(w: Window, step: real)
    requires w.Valid()
    ensures ToleratesStep(w, step) <==> step <= w.Span()
  {
    if step <= w.Span() {
      forall log: seq<Commit>, now: real, lag: real, reading: real, p: string, i: int
        | WellFiled(w, log, lag) && WellTimed(log, now) && now - reading <= lag + step && w.Covers(reading, i)
        ensures Unbroken(BucketLog(log, p, i), now, w.Ttl())
      {
        InRangeNeverExpires(w, log, now, lag, reading, p, i);
      }
    } else {
      hide *;
      StepTooFar(w, step);
    }
  }

  /** Half of what a step exceeds the window by, and at most half a window. */
  lemma HalfTheExcess(w: Window, step: real) returns (half: real)
    requires w.Valid() && step > w.Span()
    ensures half > 0.0 && half < w.Span() && half + half <= step - w.Span()
  {
    half := if step > w.Span() + w.Span() then w.Span() / 2.0 else (step - w.Span()) / 2.0;
  }

  /** A reader short of the window by any amount up to the window still covers bucket 0. */
  lemma CoversTheFirst(w: Window, half: real)
    requires w.Valid() && 0.0 < half < w.Span()
    ensures w.Covers(w.Span() - half, 0) && w.BucketOf(0.0) == 0
  {
    SpanIsWholeBuckets(w);
    BucketStart(w, 0);
    assert 0 as real * w.Width() == 0.0;
    BucketAtLeast(w, w.Span() - half, w.BucketCount());
    BucketAtLeast(w, w.Span() - half, 0);
  }

  /** A commit at time zero, and a reader too far behind to be told of it. */
  lemma StepTooFar(w: Window, step: real)
    requires w.Valid() && step > w.Span()
    ensures !ToleratesStep(w, step)
  {
    hide Geometry.Window.BucketOf, Geometry.Window.Covers, Geometry.Window.Span, Geometry.Window.Ttl;
    var half := HalfTheExcess(w, step);
    CoversTheFirst(w, half);
    TtlIsTwoSpans(w);
    var e := Commit(Attempt("p", Ok, 0.0), 0, 0.0, 0.0);
    var now, reading := w.Ttl() + half, w.Span() - half;
    OneCommit(e, "p", 0, now, w.Ttl());
    assert now - reading <= 0.0 + step;
    assert WellFiled(w, [e], 0.0) && WellTimed([e], now) && w.Covers(reading, 0);
    assert !Unbroken(BucketLog([e], "p", 0), now, w.Ttl());
  }

  lemma OneCommit(e: Commit, p: string, i: int, now: real, ttl: real)
    requires InBucket(e, p, i) && now > e.at + ttl
    ensures BucketLog([e], p, i) == [e] && !Unbroken(BucketLog([e], p, i), now, ttl)
  {
    BucketLogSnoc([], e, p, i);
    assert [] + [e] == [e];
  }

  // ----- bucketed against exact windowing (decision D3) --------------------------------

  /** Commits of `p` with outcome `o` whose reading is at or after (or only after) `cutoff`. */
  function CountSince(log: seq<Commit>, p: string, o: Outcome, cutoff: real, inclusive: bool): nat {
    if log == [] then 0
    else
      var e := log[|log| - 1];
      CountSince(log[..|log| - 1], p, o, cutoff, inclusive) +
      if e.attempt.provider == p && e.attempt.outcome == o &&
         (e.reading > cutoff || (inclusive && e.reading == cutoff)) then 1 else 0
  }

  /** Under a clock that has not run past `t`, the bucketed count lies between two exact windows:
      everything up to one bucket short of the window is in, nothing of the window's age or older is. */
  lemma {:induction false} BucketedCountSandwich(w: Window, log: seq<Commit>, t: real, p: string, o: Outcome)
    requires w.Valid()
    requires forall k :: 0 <= k < |log| ==> log[k].index == w.BucketOf(log[k].reading) && log[k].reading <= t
    ensures CountSince(log, p, o, t - (w.Span() - w.Width()), true)
            <= CountInRange(log, p, w.Oldest(t), w.BucketCount(), o)
            <= CountSince(log, p, o, t - w.Span(), false)
  {
    if log != [] {
      var e := log[|log| - 1];
      BucketedCountSandwich(w, log[..|log| - 1], t, p, o);
      if t - e.reading <= w.Span() - w.Width() {
        YoungIsCovered(w, t, e.reading);
      }
      if e.index >= w.Oldest(t) {
        CoveredIsYounger(w, t, e.reading);
      }
    }
  }

  // ----- how much stays live ------------------------------------------------------------

  /** Clock and server run in step, and each record commits at its own reading. */
  ghost predicate Steady(w: Window, log: seq<Commit>, lag: real)
    requires w.Positive()
  {
    forall k :: 0 <= k < |log| ==> log[k].index == w.BucketOf(log[k].reading) && log[k].at - log[k].reading == lag
  }

  /** At most 2 * BucketCount + 1 bucket indices of a provider are live, each with a capped list. */
  lemma LiveBucketsBounded(w: Window, log: seq<Commit>, now: real, lag: real, p: string, i: int)
    requires w.Valid() && Steady(w, log, lag) && WellTimed(log, now)
    requires Visible(BucketLog(log, p, i), now, w.Ttl()) != []
    ensures w.BucketOf(now - lag) - 2 * w.BucketCount() <= i <= w.BucketOf(now - lag)
    ensures |ListOf(Visible(BucketLog(log, p, i), now, w.Ttl()))| <= SAMPLE_CAP
  {
    var bl := BucketLog(log, p, i);
    var e := bl[|bl| - 1];
    assert e in log && e.index == i;
    TwoWindowsOfBuckets(w, now - lag, e.reading);
    ListIsNewest(Visible(bl, now, w.Ttl()));
  }

  /** A commit at the very start of bucket `k`. */
  function Stair(w: Window, p: string, k: int): Commit {
    var t := k as real * w.Width();
    Commit(Attempt(p, Ok, 0.0), k, t, t)
  }

  function Staircase(w: Window, p: string, n: nat): (log: seq<Commit>)
    ensures |log| == n && forall k :: 0 <= k < n ==> log[k] == Stair(w, p, k)
  {
    seq(n, k => Stair(w, p, k))
  }

  lemma StairInBucket(w: Window, p: string, k: int, i: int)
    ensures InBucket(Stair(w, p, k), p, i) <==> k == i
  {
  }

  lemma StaircaseSnoc(w: Window, p: string, n: nat)
    requires n > 0
    ensures Staircase(w, p, n) == Staircase(w, p, n - 1) + [Stair(w, p, n - 1)]
  {
    hide Stair;
  }

  lemma NoCommits(p: string, i: int)
    ensures BucketLog([], p, i) == []
  {
  }

  lemma {:induction false} StaircaseBucket(w: Window, p: string, n: nat, i: int)
    ensures BucketLog(Staircase(w, p, n), p, i) == if 0 <= i < n then [Stair(w, p, i)] else []
  {
    hide Stair, Staircase, InBucket, BucketLog;
    if n == 0 {
      NoCommits(p, i);
      assert Staircase(w, p, n) == [];
    } else {
      StaircaseBucket(w, p, n - 1, i);
      StaircaseSnoc(w, p, n);
      StairInBucket(w, p, n - 1, i);
      BucketLogSnoc(Staircase(w, p, n - 1), Stair(w, p, n - 1), p, i);
    }
  }

  lemma StairsAreSteady(w: Window, p: string, n: nat)
    requires w.Positive()
    ensures Steady(w, Staircase(w, p, n), 0.0)
    ensures forall j, k :: 0 <= j <= k < n ==> 0.0 <= Stair(w, p, j).at <= Stair(w, p, k).at
  {
    forall k | 0 <= k < n ensures w.BucketOf(Stair(w, p, k).reading) == k {
      assert Stair(w, p, k).reading == k as real * w.Width();
      BucketStart(w, k);
    }
    forall j, k | 0 <= j <= k < n ensures 0.0 <= Stair(w, p, j).at <= Stair(w, p, k).at {
      ScaleOrder(j as real, 0.0, w.Width());
      ScaleOrder(k as real, j as real, w.Width());
    }
  }

  /** The bound is met, so a provider can hold twice the buckets one snapshot merges. */
  lemma LiveBoundIsReached(w: Window, p: string)
    requires w.Valid()
    ensures
      var log := Staircase(w, p, 2 * w.BucketCount() + 1);
      && Steady(w, log, 0.0) && WellTimed(log, w.Ttl())
      && forall i :: 0 <= i <= 2 * w.BucketCount() ==> Visible(BucketLog(log, p, i), w.Ttl(), w.Ttl()) != []
  {
    var n := 2 * w.BucketCount() + 1;
    var log := Staircase(w, p, n);
    SpanIsWholeBuckets(w);
    StairsAreSteady(w, p, n);
    assert Stair(w, p, n - 1).at == w.Ttl();
    assert WellTimed(log, w.Ttl());
    forall i | 0 <= i < n ensures Visible(BucketLog(log, p, i), w.Ttl(), w.Ttl()) != [] {
      StairIsLive(w, p, n, i, w.Ttl());
    }
  }

  lemma StairIsLive(w: Window, p: string, n: nat, i: nat, ttl: real)
    requires i < n && Stair(w, p, i).at >= 0.0
    ensures Visible(BucketLog(Staircase(w, p, n), p, i), ttl, ttl) != []
  {
    hide Stair, Staircase, BucketLog;
    StaircaseBucket(w, p, n, i);
  }
}
