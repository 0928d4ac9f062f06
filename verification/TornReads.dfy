/** Window reads whose commands are answered at different moments, with traffic in between. */
module TornReads {
  import opened Common
  import opened Taxonomy
  import opened Geometry
  import opened Redis
  import opened WindowLog
  import opened WindowReads

  /** What the store had seen when it answered one command. */
  datatype Moment = Moment(log: seq<Commit>, now: real)

  /** Time passed and the log grew, in that order: what was added ran no earlier than the first moment. */
  ghost predicate Later(a: Moment, b: Moment) {
    && a.log <= b.log
    && a.now <= b.now
    && forall k :: |a.log| <= k < |b.log| ==> a.now <= b.log[k].at
  }

  lemma {:induction false} BucketLogAppend(log: seq<Commit>, more: seq<Commit>, p: string, i: int)
    ensures BucketLog(log + more, p, i) == BucketLog(log, p, i) + BucketLog(more, p, i)
  {
    if more == [] {
      assert log + more == log;
    } else {
      var init, e := more[..|more| - 1], more[|more| - 1];
      assert log + more == (log + init) + [e] && more == init + [e];
      BucketLogAppend(log, init, p, i);
      BucketLogSnoc(log + init, e, p, i);
      BucketLogSnoc(init, e, p, i);
    }
  }

  lemma {:induction false} CountInRangeAppend(log: seq<Commit>, more: seq<Commit>, p: string, lo: int, n: nat,
                                              o: Outcome)
    ensures CountInRange(log + more, p, lo, n, o) == CountInRange(log, p, lo, n, o) + CountInRange(more, p, lo, n, o)
  {
    if more == [] {
      assert log + more == log;
    } else {
      var init, e := more[..|more| - 1], more[|more| - 1];
      assert log + more == (log + init) + [e] && more == init + [e];
      CountInRangeAppend(log, init, p, lo, n, o);
      CountInRangeSnoc(log + init, e, p, lo, n, o);
      CountInRangeSnoc(init, e, p, lo, n, o);
    }
  }

  lemma UnbrokenPrefix(x: seq<Commit>, y: seq<Commit>, now: real, now': real, ttl: real)
    requires Unbroken(x + y, now', ttl)
    requires now <= if y == [] then now' else y[0].at
    ensures Unbroken(x, now, ttl)
  {
    var xy := x + y;
    assert forall k :: 0 <= k < |x| ==> xy[k] == x[k];
    assert y != [] ==> xy[|x|] == y[0];
    assert y == [] ==> xy == x;
  }

  /** What the log gained between two moments. */
  ghost function Added(a: Moment, b: Moment): (more: seq<Commit>)
    requires Later(a, b)
    ensures b.log == a.log + more
    ensures forall e :: e in more ==> a.now <= e.at
  {
    b.log[|a.log|..]
  }

  /** A bucket nothing has been lost from at a later moment had lost nothing before. */
  lemma UnbrokenEarlier(a: Moment, b: Moment, ttl: real, p: string, i: int)
    requires Later(a, b)
    requires Unbroken(BucketLog(b.log, p, i), b.now, ttl)
    ensures Unbroken(BucketLog(a.log, p, i), a.now, ttl)
  {
    var more := Added(a, b);
    BucketLogAppend(a.log, more, p, i);
    var y := BucketLog(more, p, i);
    assert y != [] ==> y[0] in more;
    assert a.now <= b.now;
    hide BucketLog, Later, Added, Unbroken;
    UnbrokenPrefix(BucketLog(a.log, p, i), y, a.now, b.now, ttl);
  }

  /** What one command answered, against the log at the moment it answered. */
  ghost predicate TornReplies(replies: seq<map<string, Raw>>, ms: seq<Moment>, ttl: real, p: string, lo: int) {
    && |replies| <= |ms|
    && forall k :: 0 <= k < |replies| ==> replies[k] == HashOf(Visible(BucketLog(ms[k].log, p, lo + k), ms[k].now, ttl))
  }

  /** Every moment lies between the first and the last, and they follow one another. */
  ghost predicate InOrder(ms: seq<Moment>) {
    forall j, k :: 0 <= j <= k < |ms| ==> Later(ms[j], ms[k])
  }

  lemma Grows(a: Moment, b: Moment, p: string, i: int, o: Outcome)
    requires Later(a, b)
    ensures Count(BucketLog(a.log, p, i), o) <= Count(BucketLog(b.log, p, i), o)
    ensures |BucketLog(a.log, p, i)| <= |BucketLog(b.log, p, i)|
  {
    hide BucketLog, Later;
    var more := Added(a, b);
    BucketLogAppend(a.log, more, p, i);
    CountAppend(BucketLog(a.log, p, i), BucketLog(more, p, i), o);
  }

  // ----- what a bucket can lose between two moments ------------------------------------------

  /** The bucket's deadline does not pass between two moments: neither the silence before a commit that ran in
      between nor the one at the end outlasts the TTL, if there was anything left to lose. */
  ghost predicate NoLapse(a: Moment, b: Moment, ttl: real, p: string, i: int) {
    var seen, bl := BucketLog(a.log, p, i), BucketLog(b.log, p, i);
    Visible(seen, a.now, ttl) != [] ==>
      && (forall k :: 0 < |seen| <= k < |bl| ==> bl[k].at <= bl[k - 1].at + ttl)
      && (bl != [] ==> b.now <= bl[|bl| - 1].at + ttl)
  }

  /** The same of commits `x` and the ones `y` that follow them. */
  predicate Follows(x: seq<Commit>, y: seq<Commit>, now: real, ttl: real) {
    var bl := x + y;
    && (forall k :: 0 < |x| <= k < |bl| ==> bl[k].at <= bl[k - 1].at + ttl)
    && (bl != [] ==> now <= bl[|bl| - 1].at + ttl)
  }

  lemma VisibleLater(x: seq<Commit>, now: real, now': real, ttl: real)
    requires now <= now'
    ensures Visible(x, now', ttl) == if x != [] && now' > x[|x| - 1].at + ttl then [] else Visible(x, now, ttl)
  {
  }

  lemma VisibleSnocAt(bl: seq<Commit>, e: Commit, now: real, ttl: real)
    ensures Visible(bl + [e], now, ttl) == if now > e.at + ttl then [] else Visible(bl, e.at, ttl) + [e]
  {
    assert (bl + [e])[..|bl|] == bl;
  }

  /** Later commits add themselves at most. */
  lemma {:induction false} VisibleAtMost(x: seq<Commit>, y: seq<Commit>, now: real, now': real, ttl: real, o: Outcome)
    requires now <= now' && forall e :: e in y ==> now <= e.at
    ensures |Visible(x + y, now', ttl)| <= |Visible(x, now, ttl)| + |y|
    ensures Count(Visible(x + y, now', ttl), o) <= Count(Visible(x, now, ttl), o) + Count(y, o)
  {
    if y == [] {
      assert x + y == x;
      VisibleLater(x, now, now', ttl);
    } else {
      var init, e := y[..|y| - 1], y[|y| - 1];
      assert y == init + [e] && x + y == (x + init) + [e];
      hide Visible, Count;
      VisibleAtMost(x, init, now, e.at, ttl, o);
      VisibleSnocAt(x + init, e, now', ttl);
      CountAppend(init, [e], o);
      CountAppend(Visible(x + init, e.at, ttl), [e], o);
      NoneIsZero(o);
    }
  }

  lemma NoneIsZero(o: Outcome)
    ensures Count([], o) == 0
  {
  }

  /** ... and without a lapse exactly themselves. */
  lemma {:induction false} VisibleExactly(x: seq<Commit>, y: seq<Commit>, now: real, now': real, ttl: real)
    requires now <= now' && forall e :: e in y ==> now <= e.at
    requires Visible(x, now, ttl) != [] && Follows(x, y, now', ttl)
    ensures Visible(x + y, now', ttl) == Visible(x, now, ttl) + y
  {
    if y == [] {
      assert x + y == x;
      VisibleLater(x, now, now', ttl);
    } else {
      var init, e := y[..|y| - 1], y[|y| - 1];
      assert y == init + [e];
      hide Visible, Follows;
      FollowsInit(x, init, e, now', ttl);
      VisibleExactly(x, init, now, e.at, ttl);
      OneMoreVisible(x, init, e, Visible(x, now, ttl), now', ttl);
    }
  }

  lemma OneMoreVisible(x: seq<Commit>, init: seq<Commit>, e: Commit, v: seq<Commit>, now: real, ttl: real)
    requires Visible(x + init, e.at, ttl) == v + init && now <= e.at + ttl
    ensures Visible(x + (init + [e]), now, ttl) == v + (init + [e])
  {
    assert x + (init + [e]) == (x + init) + [e] && v + (init + [e]) == (v + init) + [e];
    hide Visible;
    VisibleSnocAt(x + init, e, now, ttl);
  }

  lemma FollowsInit(x: seq<Commit>, init: seq<Commit>, e: Commit, now: real, ttl: real)
    requires x != [] && Follows(x, init + [e], now, ttl)
    ensures Follows(x, init, e.at, ttl) && now <= e.at + ttl
  {
    var bl := x + (init + [e]);
    assert forall k :: 0 <= k < |x + init| ==> bl[k] == (x + init)[k];
    assert bl[|x + init|] == e;
  }

  /** What two commands on one bucket can see of each other. */
  lemma TwoMoments(a: Moment, b: Moment, ttl: real, p: string, i: int, o: Outcome)
    requires Later(a, b)
    ensures
      var before, after := Visible(BucketLog(a.log, p, i), a.now, ttl), Visible(BucketLog(b.log, p, i), b.now, ttl);
      var more := BucketLog(Added(a, b), p, i);
      && |after| <= |before| + |more| && Count(after, o) <= Count(before, o) + Count(more, o)
      && (NoLapse(a, b, ttl, p, i) ==> |before| <= |after| && Count(before, o) <= Count(after, o))
  {
    hide BucketLog, Later, Added, Visible, Follows, NoLapse, Count;
    var x, y := BucketLog(a.log, p, i), BucketLog(Added(a, b), p, i);
    BucketBetween(a, b, ttl, p, i);
    VisibleAtMost(x, y, a.now, b.now, ttl, o);
    if NoLapse(a, b, ttl, p, i) && Visible(x, a.now, ttl) != [] {
      VisibleExactly(x, y, a.now, b.now, ttl);
      CountAppend(Visible(x, a.now, ttl), y, o);
    } else {
      NoneIsZero(o);
    }
  }

  lemma BucketBetween(a: Moment, b: Moment, ttl: real, p: string, i: int)
    requires Later(a, b)
    ensures a.now <= b.now
    ensures
      var x, y := BucketLog(a.log, p, i), BucketLog(Added(a, b), p, i);
      && BucketLog(b.log, p, i) == x + y
      && (forall e :: e in y ==> a.now <= e.at)
      && (NoLapse(a, b, ttl, p, i) && Visible(x, a.now, ttl) != [] ==> Follows(x, y, b.now, ttl))
  {
    var more := Added(a, b);
    BucketLogAppend(a.log, more, p, i);
    assert forall e :: e in BucketLog(more, p, i) ==> e in more;
    hide BucketLog, Visible;
    assert NoLapse(a, b, ttl, p, i) && Visible(BucketLog(a.log, p, i), a.now, ttl) != [] ==>
             BucketLog(a.log, p, i) != [] by {
      NothingVisible(a.now, ttl);
    }
  }

  lemma NothingVisible(now: real, ttl: real)
    ensures Visible([], now, ttl) == []
  {
  }

  /** Where a bucket has lost nothing at all by a moment, it lost nothing on the way there. */
  lemma UnbrokenNoLapse(a: Moment, b: Moment, ttl: real, p: string, i: int)
    requires Unbroken(BucketLog(b.log, p, i), b.now, ttl)
    ensures NoLapse(a, b, ttl, p, i)
  {
    hide Visible;
  }

  /** A bucket's growth over part of a read is part of its growth over all of it. */
  lemma GrowthNests(first: Moment, a: Moment, b: Moment, last: Moment, p: string, i: int, o: Outcome)
    requires Later(first, a) && Later(a, b) && Later(b, last) && Later(first, last)
    ensures |BucketLog(Added(a, b), p, i)| <= |BucketLog(Added(first, last), p, i)|
    ensures Count(BucketLog(Added(a, b), p, i), o) <= Count(BucketLog(Added(first, last), p, i), o)
  {
    hide BucketLog, Later, Added, Count;
    Grows(first, a, p, i, o);
    Grows(b, last, p, i, o);
    GrownBy(a, b, p, i, o);
    GrownBy(first, last, p, i, o);
  }

  lemma GrownBy(a: Moment, b: Moment, p: string, i: int, o: Outcome)
    requires Later(a, b)
    ensures |BucketLog(b.log, p, i)| == |BucketLog(a.log, p, i)| + |BucketLog(Added(a, b), p, i)|
    ensures Count(BucketLog(b.log, p, i), o) ==
            Count(BucketLog(a.log, p, i), o) + Count(BucketLog(Added(a, b), p, i), o)
  {
    hide BucketLog, Later, Count;
    BucketLogAppend(a.log, Added(a, b), p, i);
    CountAppend(BucketLog(a.log, p, i), BucketLog(Added(a, b), p, i), o);
  }

  // ----- counts of a torn read -------------------------------------------------------------------

  /** What a read answered whole at one moment would count, bucket by bucket. */
  function Instant(m: Moment, ttl: real, p: string, lo: int, n: nat, o: Outcome): (r: seq<int>)
    ensures |r| == n
    ensures forall k :: 0 <= k < n ==> r[k] == Count(Visible(BucketLog(m.log, p, lo + k), m.now, ttl), o)
  {
    seq(n, k requires 0 <= k < n => Count(Visible(BucketLog(m.log, p, lo + k), m.now, ttl), o))
  }

  ghost predicate NoLapseUpTo(first: Moment, ms: seq<Moment>, ttl: real, p: string, lo: int) {
    forall k :: 0 <= k < |ms| ==> NoLapse(first, ms[k], ttl, p, lo + k)
  }

  ghost predicate NoLapseAfter(ms: seq<Moment>, last: Moment, ttl: real, p: string, lo: int) {
    forall k :: 0 <= k < |ms| ==> NoLapse(ms[k], last, ttl, p, lo + k)
  }

  lemma OneReply(reply: map<string, Raw>, m: Moment, last: Moment, ttl: real, p: string, i: int, o: Outcome)
    requires reply == HashOf(Visible(BucketLog(m.log, p, i), m.now, ttl)) && Later(m, last)
    ensures 0 <= FieldCount(reply, FieldFor(o)) <= Count(BucketLog(last.log, p, i), o)
  {
    hide FieldFor, BucketLog, Visible, HashOf, Later, Count, FieldCount;
    HashCounts(Visible(BucketLog(m.log, p, i), m.now, ttl), o);
    VisibleCounts(BucketLog(m.log, p, i), m.now, ttl, o);
    Grows(m, last, p, i, o);
  }

  /** With no assumption on expiry at all: a read reports no attempt that is not in the log. */
  lemma NeverOvercounts(replies: seq<map<string, Raw>>, ms: seq<Moment>, ttl: real, p: string, lo: int, o: Outcome,
                        last: Moment)
    requires TornReplies(replies, ms, ttl, p, lo) && forall k :: 0 <= k < |replies| ==> Later(ms[k], last)
    ensures 0 <= Merged(replies, o) <= CountInRange(last.log, p, lo, |replies|, o)
  {
    hide FieldFor, BucketLog, Visible, HashOf, Later, Count, Sum, FieldCount;
    var n := |replies|;
    var zeros := seq(n, k => 0);
    var xs, ys := Column(replies, FieldFor(o)), BucketCounts(last.log, p, lo, n, o);
    forall k | 0 <= k < n ensures 0 <= xs[k] <= ys[k] {
      OneReply(replies[k], ms[k], last, ttl, p, lo + k, o);
    }
    SumZeros(zeros);
    SumLe(zeros, xs);
    SumLe(xs, ys);
    RangeIsSumOfBuckets(last.log, p, lo, n, o);
  }

  lemma TornCell(reply: map<string, Raw>, first: Moment, m: Moment, last: Moment, ttl: real, p: string, i: int,
                 o: Outcome)
    requires reply == HashOf(Visible(BucketLog(m.log, p, i), m.now, ttl))
    requires Later(first, m) && Later(m, last) && Later(first, last)
    ensures
      var count := FieldCount(reply, FieldFor(o));
      var was := Count(Visible(BucketLog(first.log, p, i), first.now, ttl), o);
      var becomes := Count(Visible(BucketLog(last.log, p, i), last.now, ttl), o);
      && count <= was + Count(BucketLog(Added(first, last), p, i), o)
      && (NoLapse(first, m, ttl, p, i) ==> was <= count)
      && (NoLapse(m, last, ttl, p, i) ==> count <= becomes)
  {
    hide Later, BucketLog, HashOf, Visible, Count, FieldFor, FieldCount, NoLapse, Added;
    HashCounts(Visible(BucketLog(m.log, p, i), m.now, ttl), o);
    TwoMoments(first, m, ttl, p, i, o);
    TwoMoments(m, last, ttl, p, i, o);
    LaterItself(first);
    GrowthNests(first, first, m, last, p, i, o);
  }

  lemma LaterItself(m: Moment)
    ensures Later(m, m)
  {
  }

  /** The counts of a torn read, for any clocks and any expiry. No attempt is reported that is not in the log
      by the last command, nor more than a whole read at the first moment plus what landed since; and a count
      lies between whole reads at the first and the last moment unless a covered bucket's deadline passes on
      the way from the one to its command, or from its command to the other. */
  lemma TornCounts(replies: seq<map<string, Raw>>, ms: seq<Moment>, ttl: real, p: string, lo: int, o: Outcome,
                   first: Moment, last: Moment)
    requires |replies| == |ms| && TornReplies(replies, ms, ttl, p, lo) && Later(first, last)
    requires forall k :: 0 <= k < |ms| ==> Later(first, ms[k]) && Later(ms[k], last)
    ensures 0 <= Merged(replies, o) <= CountInRange(last.log, p, lo, |replies|, o)
    ensures Merged(replies, o) <= Sum(Instant(first, ttl, p, lo, |replies|, o)) +
                                  CountInRange(Added(first, last), p, lo, |replies|, o)
    ensures NoLapseUpTo(first, ms, ttl, p, lo) ==> Sum(Instant(first, ttl, p, lo, |replies|, o)) <= Merged(replies, o)
    ensures NoLapseAfter(ms, last, ttl, p, lo) ==> Merged(replies, o) <= Sum(Instant(last, ttl, p, lo, |replies|, o))
  {
    hide Later, BucketLog, HashOf, Visible, Count, FieldFor, FieldCount, NoLapse, Sum, Added;
    var n, more := |replies|, Added(first, last);
    var column := Column(replies, FieldFor(o));
    var was, becomes := Instant(first, ttl, p, lo, n, o), Instant(last, ttl, p, lo, n, o);
    var added := BucketCounts(more, p, lo, n, o);
    var high := seq(n, k requires 0 <= k < n => was[k] + added[k]);
    forall k | 0 <= k < n
      ensures column[k] <= high[k]
      ensures NoLapse(first, ms[k], ttl, p, lo + k) ==> was[k] <= column[k]
      ensures NoLapse(ms[k], last, ttl, p, lo + k) ==> column[k] <= becomes[k]
    {
      TornCell(replies[k], first, ms[k], last, ttl, p, lo + k, o);
    }
    NeverOvercounts(replies, ms, ttl, p, lo, o, last);
    SumLe(column, high);
    SumAdd(was, added, high);
    RangeIsSumOfBuckets(more, p, lo, n, o);
    if NoLapseUpTo(first, ms, ttl, p, lo) {
      SumLe(was, column);
    }
    if NoLapseAfter(ms, last, ttl, p, lo) {
      SumLe(column, becomes);
    }
  }

  /** A whole read of buckets that have lost nothing is the exact histogram. */
  lemma InstantIsExact(m: Moment, ttl: real, p: string, lo: int, n: nat, o: Outcome)
    ensures Sum(Instant(m, ttl, p, lo, n, o)) <= CountInRange(m.log, p, lo, n, o)
    ensures RangeUnbroken(m.log, m.now, ttl, p, lo, n) ==>
              Sum(Instant(m, ttl, p, lo, n, o)) == CountInRange(m.log, p, lo, n, o)
  {
    hide Sum, BucketLog, Count, Visible, Unbroken;
    var xs, ys := Instant(m, ttl, p, lo, n, o), BucketCounts(m.log, p, lo, n, o);
    RangeIsSumOfBuckets(m.log, p, lo, n, o);
    forall k | 0 <= k < n
      ensures xs[k] <= ys[k] && (RangeUnbroken(m.log, m.now, ttl, p, lo, n) ==> xs[k] == ys[k])
    {
      VisibleCounts(BucketLog(m.log, p, lo + k), m.now, ttl, o);
    }
    SumLe(xs, ys);
    if RangeUnbroken(m.log, m.now, ttl, p, lo, n) {
      assert xs == ys;
    }
  }

  /** Where no covered bucket has lost anything by the last command, torn counts lie between the exact ones. */
  lemma TornCountsExact(replies: seq<map<string, Raw>>, ms: seq<Moment>, ttl: real, p: string, lo: int, o: Outcome,
                        first: Moment, last: Moment)
    requires |replies| == |ms| && TornReplies(replies, ms, ttl, p, lo) && Later(first, last)
    requires forall k :: 0 <= k < |ms| ==> Later(first, ms[k]) && Later(ms[k], last)
    requires RangeUnbroken(last.log, last.now, ttl, p, lo, |replies|)
    ensures CountInRange(first.log, p, lo, |replies|, o) <= Merged(replies, o)
            <= CountInRange(last.log, p, lo, |replies|, o)
  {
    hide Later, BucketLog, HashOf, Visible, Unbroken, NoLapse, Instant, Sum, Merged, CountInRange, Added;
    forall k | 0 <= k < |ms| ensures NoLapse(first, ms[k], ttl, p, lo + k) {
      UnbrokenEarlier(ms[k], last, ttl, p, lo + k);
      UnbrokenNoLapse(first, ms[k], ttl, p, lo + k);
    }
    RangeUnbrokenEarlier(first, last, ttl, p, lo, |replies|);
    InstantIsExact(first, ttl, p, lo, |replies|, o);
    TornCounts(replies, ms, ttl, p, lo, o, first, last);
  }

  lemma RangeUnbrokenEarlier(a: Moment, b: Moment, ttl: real, p: string, lo: int, n: nat)
    requires Later(a, b) && RangeUnbroken(b.log, b.now, ttl, p, lo, n)
    ensures RangeUnbroken(a.log, a.now, ttl, p, lo, n)
  {
    hide Later, Unbroken, BucketLog;
    forall i | lo <= i < lo + n ensures Unbroken(BucketLog(a.log, p, i), a.now, ttl) {
      UnbrokenEarlier(a, b, ttl, p, i);
    }
  }

  /** A reader no further behind than one whole window at its last command covers no bucket that lost anything. */
  lemma RangeInStep(w: Window, last: Moment, lag: real, reading: real, p: string)
    requires w.Valid() && WellFiled(w, last.log, lag) && WellTimed(last.log, last.now)
    requires last.now - reading <= lag + w.Span()
    ensures RangeUnbroken(last.log, last.now, w.Ttl(), p, w.Oldest(reading), w.BucketCount())
  {
    hide WellFiled, WellTimed, Unbroken, BucketLog;
    var lo, n := w.Oldest(reading), w.BucketCount();
    forall i | lo <= i < lo + n ensures Unbroken(BucketLog(last.log, p, i), last.now, w.Ttl()) {
      InRangeNeverExpires(w, last.log, last.now, lag, reading, p, i);
    }
  }

  // ----- sample counts of a torn snapshot ------------------------------------------------

  function Lengths(samples: seq<seq<RawSample>>): (r: seq<int>)
    ensures |r| == |samples| && forall k :: 0 <= k < |r| ==> r[k] == |samples[k]|
  {
    seq(|samples|, k requires 0 <= k < |samples| => |samples[k]|)
  }

  /** All attempts a bucket hash reports, whatever their outcome. */
  function HashTotal(fields: map<string, Raw>): int {
    FieldCount(fields, FieldFor(Ok))
    + FieldCount(fields, FieldFor(Failed(RateLimit)))
    + FieldCount(fields, FieldFor(Failed(Timeout)))
    + FieldCount(fields, FieldFor(Failed(ServerError)))
    + FieldCount(fields, FieldFor(Failed(QuotaExhausted)))
    + FieldCount(fields, FieldFor(Failed(AuthFailure)))
    + FieldCount(fields, FieldFor(Failed(ContentFilter)))
    + FieldCount(fields, FieldFor(Failed(BadRequest)))
  }

  function CountAll(s: seq<Commit>): int {
    Count(s, Ok)
    + Count(s, Failed(RateLimit)) + Count(s, Failed(Timeout)) + Count(s, Failed(ServerError))
    + Count(s, Failed(QuotaExhausted)) + Count(s, Failed(AuthFailure))
    + Count(s, Failed(ContentFilter)) + Count(s, Failed(BadRequest))
  }

  lemma {:induction false} CountAllIsLength(s: seq<Commit>)
    ensures CountAll(s) == |s|
  {
    if s != [] {
      CountAllIsLength(s[..|s| - 1]);
      match s[|s| - 1].attempt.outcome
      case Ok =>
      case Failed(RateLimit) =>
      case Failed(Timeout) =>
      case Failed(ServerError) =>
      case Failed(QuotaExhausted) =>
      case Failed(AuthFailure) =>
      case Failed(ContentFilter) =>
      case Failed(BadRequest) =>
    }
  }

  lemma HashTotalIsLength(s: seq<Commit>)
    ensures HashTotal(HashOf(s)) == |s|
  {
    CountAllIsLength(s);
    HashCounts(s, Ok);
    HashCounts(s, Failed(RateLimit));
    HashCounts(s, Failed(Timeout));
    HashCounts(s, Failed(ServerError));
    HashCounts(s, Failed(QuotaExhausted));
    HashCounts(s, Failed(AuthFailure));
    HashCounts(s, Failed(ContentFilter));
    HashCounts(s, Failed(BadRequest));
  }

  /** What each LRANGE answered, against the log at the moment it answered. */
  ghost predicate TornLists(lists: seq<seq<RawSample>>, ms: seq<Moment>, ttl: real, p: string, lo: int) {
    && |lists| <= |ms|
    && forall k :: 0 <= k < |lists| ==> lists[k] == ListOf(Visible(BucketLog(ms[k].log, p, lo + k), ms[k].now, ttl))
  }

  function Totals(replies: seq<map<string, Raw>>): (r: seq<int>)
    ensures |r| == |replies| && forall k :: 0 <= k < |r| ==> r[k] == HashTotal(replies[k])
  {
    seq(|replies|, k requires 0 <= k < |replies| => HashTotal(replies[k]))
  }

  /** Each bucket's total, cut off at the sample cap. */
  function CappedTotals(replies: seq<map<string, Raw>>): (r: seq<int>)
    ensures |r| == |replies| && forall k :: 0 <= k < |r| ==> r[k] == Min(SAMPLE_CAP, HashTotal(replies[k]))
  {
    seq(|replies|, k requires 0 <= k < |replies| => Min(SAMPLE_CAP, HashTotal(replies[k])))
  }

  /** How many of these commits reached each bucket of the range. */
  function Arrivals(more: seq<Commit>, p: string, lo: int, n: nat): (r: seq<int>)
    ensures |r| == n && forall k :: 0 <= k < n ==> r[k] == |BucketLog(more, p, lo + k)|
  {
    seq(n, k requires 0 <= k < n => |BucketLog(more, p, lo + k)|)
  }

  lemma {:induction false} ArrivalsAtMostAll(more: seq<Commit>, p: string, lo: int, xs: seq<int>)
    requires forall k :: 0 <= k < |xs| ==> xs[k] == |BucketLog(more, p, lo + k)|
    ensures Sum(xs) <= |more|
  {
    if more == [] {
      SumZeros(xs);
    } else {
      var init, e := more[..|more| - 1], more[|more| - 1];
      assert more == init + [e];
      var ys := seq(|xs|, k requires 0 <= k < |xs| => |BucketLog(init, p, lo + k)|);
      ArrivalsAtMostAll(init, p, lo, ys);
      var hot := if e.attempt.provider == p then e.index - lo else -1;
      forall k | 0 <= k < |xs| ensures xs[k] == ys[k] + if k == hot then 1 else 0 {
        BucketLogSnoc(init, e, p, lo + k);
      }
      SumOneHot(ys, xs, hot);
    }
  }

  lemma ReplyLengths(fields: map<string, Raw>, items: seq<RawSample>, va: seq<Commit>, vb: seq<Commit>)
    requires fields == HashOf(va) && items == ListOf(vb)
    ensures HashTotal(fields) == |va| && |items| == Min(SAMPLE_CAP, |vb|)
  {
    HashTotalIsLength(va);
    ListIsNewest(vb);
  }

  /** With nothing added in between, the second command sees what the first saw, or nothing: a lapse. */
  lemma LapseOrSame(a: Moment, b: Moment, ttl: real, p: string, i: int)
    requires Later(a, b) && BucketLog(a.log, p, i) == BucketLog(b.log, p, i)
    ensures
      var before, after := Visible(BucketLog(a.log, p, i), a.now, ttl), Visible(BucketLog(b.log, p, i), b.now, ttl);
      if NoLapse(a, b, ttl, p, i) then after == before else after == [] != before
  {
    var bl := BucketLog(a.log, p, i);
    assert a.now <= b.now;
    VisibleLater(bl, a.now, b.now, ttl);
    hide BucketLog, Later;
  }

  lemma SampleCell(fields: map<string, Raw>, items: seq<RawSample>, first: Moment, a: Moment, b: Moment, last: Moment,
                   ttl: real, p: string, i: int)
    requires fields == HashOf(Visible(BucketLog(a.log, p, i), a.now, ttl))
    requires items == ListOf(Visible(BucketLog(b.log, p, i), b.now, ttl))
    requires Later(first, a) && Later(a, b) && Later(b, last) && Later(first, last)
    ensures |items| <= HashTotal(fields) + |BucketLog(Added(first, last), p, i)|
    ensures NoLapse(a, b, ttl, p, i) ==> Min(SAMPLE_CAP, HashTotal(fields)) <= |items|
    ensures first.log == last.log ==>
              |items| <= Min(SAMPLE_CAP, HashTotal(fields)) &&
              (|items| == Min(SAMPLE_CAP, HashTotal(fields)) <==> NoLapse(a, b, ttl, p, i))
  {
    var va, vb := Visible(BucketLog(a.log, p, i), a.now, ttl), Visible(BucketLog(b.log, p, i), b.now, ttl);
    ReplyLengths(fields, items, va, vb);
    TwoMoments(a, b, ttl, p, i, Ok);
    GrowthNests(first, a, b, last, p, i, Ok);
    if first.log == last.log {
      LogsPinned(first, a, b, last);
      LapseOrSame(a, b, ttl, p, i);
    }
    hide Later, HashOf, ListOf, Visible, HashTotal, NoLapse, BucketLog, Count, Added;
  }

  lemma LogsPinned(first: Moment, a: Moment, b: Moment, last: Moment)
    requires Later(first, a) && Later(a, b) && Later(b, last) && first.log == last.log
    ensures a.log == b.log == first.log
  {
    assert |first.log| <= |a.log| <= |b.log| <= |last.log|;
  }

  ghost predicate NoLapseBetween(ms: seq<Moment>, ms': seq<Moment>, ttl: real, p: string, lo: int) {
    |ms| == |ms'| && forall k :: 0 <= k < |ms| ==> NoLapse(ms[k], ms'[k], ttl, p, lo + k)
  }

  /** The sample count of a torn snapshot, for any clocks and any expiry: no more than the total it reports
      plus the records that landed while it ran; no fewer than the capped totals it reports, unless a
      covered bucket's deadline passes between its two commands; and when nothing landed, exactly the capped
      totals if and only if no deadline passed so. */
  lemma TornSampleCount(replies: seq<map<string, Raw>>, lists: seq<seq<RawSample>>, ms: seq<Moment>, ms': seq<Moment>,
                        ttl: real, p: string, lo: int)
    requires |replies| == |lists| == |ms| == |ms'| > 0
    requires InOrder(ms + ms') && TornReplies(replies, ms, ttl, p, lo) && TornLists(lists, ms', ttl, p, lo)
    ensures Sum(Lengths(lists)) <= Sum(Totals(replies)) + |ms'[|ms'| - 1].log| - |ms[0].log|
    ensures NoLapseBetween(ms, ms', ttl, p, lo) ==> Sum(CappedTotals(replies)) <= Sum(Lengths(lists))
    ensures ms[0].log == ms'[|ms'| - 1].log ==>
              (Sum(Lengths(lists)) == Sum(CappedTotals(replies)) <==> NoLapseBetween(ms, ms', ttl, p, lo))
  {
    hide Later, BucketLog, HashTotal, HashOf, ListOf, Visible, NoLapse, Sum, Added;
    var n, all := |replies|, ms + ms';
    var first, last := all[0], all[2 * n - 1];
    assert first == ms[0] && last == ms'[n - 1] && Later(first, last);
    var more := Added(first, last);
    var low, mid, totals := CappedTotals(replies), Lengths(lists), Totals(replies);
    var arrivals := Arrivals(more, p, lo, n);
    var high := seq(n, k requires 0 <= k < n => totals[k] + arrivals[k]);
    forall k | 0 <= k < n
      ensures mid[k] <= high[k]
      ensures NoLapse(ms[k], ms'[k], ttl, p, lo + k) ==> low[k] <= mid[k]
      ensures first.log == last.log ==>
                mid[k] <= low[k] && (mid[k] == low[k] <==> NoLapse(ms[k], ms'[k], ttl, p, lo + k))
    {
      var a, b := all[k], all[n + k];
      assert a == ms[k] && b == ms'[k];
      assert Later(first, a) && Later(a, b) && Later(b, last);
      SampleCell(replies[k], lists[k], first, a, b, last, ttl, p, lo + k);
    }
    SumLe(mid, high);
    SumAdd(totals, arrivals, high);
    ArrivalsAtMostAll(more, p, lo, arrivals);
    AddedLength(first, last);
    if NoLapseBetween(ms, ms', ttl, p, lo) {
      SumLe(low, mid);
    }
    if first.log == last.log {
      SumLe(mid, low);
    }
  }

  lemma WholeNoLapse(ms: seq<Moment>, ms': seq<Moment>, last: Moment, ttl: real, p: string, lo: int)
    requires |ms| == |ms'| && RangeUnbroken(last.log, last.now, ttl, p, lo, |ms|)
    requires forall k :: 0 <= k < |ms'| ==> Later(ms'[k], last)
    ensures NoLapseBetween(ms, ms', ttl, p, lo)
  {
    hide NoLapse, Unbroken, BucketLog, Later;
    forall k | 0 <= k < |ms| ensures NoLapse(ms[k], ms'[k], ttl, p, lo + k) {
      UnbrokenEarlier(ms'[k], last, ttl, p, lo + k);
      UnbrokenNoLapse(ms[k], ms'[k], ttl, p, lo + k);
    }
  }

  lemma AddedLength(a: Moment, b: Moment)
    requires Later(a, b)
    ensures |Added(a, b)| == |b.log| - |a.log|
  {
  }

  /** One bucket, one attempt, and a snapshot whose HGETALL comes just before the deadline and whose LRANGE
      just after: one attempt, no sample, though nothing landed and nothing was trimmed. */
  lemma LapseLosesSamples(p: string, ttl: real)
    requires ttl > 0.0
    ensures
      var log := [Commit(Attempt(p, Ok, 0.0), 0, 0.0, 0.0)];
      var m, m' := Moment(log, ttl), Moment(log, ttl + 1.0);
      var reply := HashOf(Visible(BucketLog(log, p, 0), m.now, ttl));
      var items := ListOf(Visible(BucketLog(log, p, 0), m'.now, ttl));
      && Later(m, m') && HashTotal(reply) == 1 && items == [] && !NoLapse(m, m', ttl, p, 0)
  {
    var e := Commit(Attempt(p, Ok, 0.0), 0, 0.0, 0.0);
    BucketLogSnoc([], e, p, 0);
    assert [] + [e] == [e];
    VisibleSnocAt([], e, ttl, ttl);
    VisibleSnocAt([], e, ttl + 1.0, ttl);
    HashTotalIsLength([e]);
  }
}
