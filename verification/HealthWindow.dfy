/** The tracker: one transaction per attempt, one non-atomic pipeline per read. */
module HealthWindow {
  import opened Common
  import opened Taxonomy
  import opened Geometry
  import opened Keys
  import opened Redis
  import opened WindowLog
  import opened WindowReads
  import opened TornReads
  import opened HealthStore
  import opened HealthMerge
  import opened Percentiles

  /** What became of one transaction: it ran and was heard of, it ran but its reply was lost or came
      too late, or it never ran. */
  datatype Link = Delivered | ReplyLost | Unsent

  /** The sample half of a record, staged onto a pipeline someone else opened. */
  method StageRecord(pipe: Pipeline, key: string, latencyMs: real, ttl: real)
    modifies pipe
    ensures pipe.staged == old(pipe.staged) + [LPush(key, latencyMs), LTrim(key, SAMPLE_CAP), Expire(key, ttl)]
  {
    pipe.Stage(LPush(key, latencyMs));
    pipe.Stage(LTrim(key, SAMPLE_CAP));
    pipe.Stage(Expire(key, ttl));
  }

  /** The count and the sample of one attempt land together exactly when the count field does not hold
      foreign text: the sample always lands, and the error reply that loses the count is what is reported. */
  lemma CountAndSampleTogetherIff(db: Db, w: Window, a: Attempt, index: int)
    requires w.Positive()
    requires BucketKey(a.provider, index) !in db.lists && LatencyKey(a.provider, index) !in db.hashes
    ensures
      var hk, lk, f := BucketKey(a.provider, index), LatencyKey(a.provider, index), FieldFor(a.outcome);
      var h := db.HGetAll(hk);
      var r := ApplyAll(db, RecordCommands(w, a, index));
      && r.db.LRange(lk) == Pushed(db.LRange(lk), a.latencyMs)
      && (FieldCount(r.db.HGetAll(hk), f) == FieldCount(h, f) + 1 <==> !(f in h && h[f].Text?))
      && (r.ok <==> !(f in h && h[f].Text?))
  {
    hide BucketKey, LatencyKey, FieldFor, ApplyAll, RecordCommands, Pushed;
    RecordEffect(db, w, a, index);
  }

  /** ... as it does here: a bucket whose count field someone set to text. The sample lands, the count does not. */
  lemma TextSplitsThePair(w: Window, a: Attempt, index: int)
    requires w.Positive()
    ensures
      var hk, lk, f := BucketKey(a.provider, index), LatencyKey(a.provider, index), FieldFor(a.outcome);
      var db := Db(0.0, map[hk := Slot(map[f := Text("many")], None)], map[]);
      var r := ApplyAll(db, RecordCommands(w, a, index));
      && !r.ok && r.db.LRange(lk) == [Number(a.latencyMs)] && r.db.HGetAll(hk) == db.HGetAll(hk)
  {
    var hk, lk, f := BucketKey(a.provider, index), LatencyKey(a.provider, index), FieldFor(a.outcome);
    var db := Db(0.0, map[hk := Slot(map[f := Text("many")], None)], map[]);
    KindsDisjoint(a.provider, index, a.provider, index);
    hide BucketKey, LatencyKey, FieldFor, ApplyAll, RecordCommands;
    assert db.HGetAll(hk) == map[f := Text("many")];
    RecordEffect(db, w, a, index);
    assert Pushed([], a.latencyMs) == [Number(a.latencyMs)];
  }

  class HealthTracker {
    const store: Store
    const window: Window
    /** Providers the drop callback was called with, in order. */
    var dropped: seq<string>

    constructor (store: Store, window: Window)
      requires window.Valid()
      ensures this.store == store && this.window == window && dropped == []
    {
      this.store := store;
      this.window := window;
      dropped := [];
    }

    /** Count one attempt into the bucket of the clock reading. Never raises. */
    method Record(a: Attempt, reading: real, link: Link)
      requires window.Valid()
      modifies this`dropped, store
      ensures link.Unsent? ==> store.State() == old(store.State())
      ensures !link.Unsent? ==>
                store.State() == Next(old(store.State()), window, Lands(a, window.BucketOf(reading), reading))
      ensures old(store.State()).Consistent(window) ==> store.State().Consistent(window)
      ensures
        var heard := link.Delivered? && ApplyAll(old(store.db), RecordCommands(window, a, window.BucketOf(reading))).ok;
        dropped == old(dropped) + if heard then [] else [a.provider]
      ensures old(store.State()).Consistent(window) ==>
                dropped == old(dropped) + if link.Delivered? then [] else [a.provider]
    {
      var bucket := window.BucketOf(reading);
      var key := BucketKey(a.provider, bucket);
      var field := FieldFor(a.outcome);
      var pipe := new Pipeline();
      pipe.Stage(HIncrBy(key, field));
      pipe.Stage(Expire(key, window.Ttl()));
      StageRecord(pipe, LatencyKey(a.provider, bucket), a.latencyMs, window.Ttl());
      assert pipe.staged == RecordCommands(window, a, bucket);
      var ok := false;
      if !link.Unsent? {
        LandsConsistently(store.State(), window, a, bucket, reading);
        hide *;
        ghost var at := store.db.now;
        ok := store.Execute(pipe);
        store.log := store.log + [Commit(a, bucket, reading, at)];
      }
      if !(link.Delivered? && ok) {
        dropped := dropped + [a.provider];
      }
    }

    /** HGETALL for each of `n` buckets from `lo` on, with traffic before each command. */
    method FetchHashes(provider: string, lo: int, n: nat, traffic: seq<seq<Event>>)
      returns (replies: seq<map<string, Raw>>, ghost ms: seq<Moment>)
      requires window.Valid() && store.State().Consistent(window) && Feasible(traffic)
      modifies store
      ensures store.State().Consistent(window)
      ensures |replies| == |ms| == n && Watched(old(store.State()).Now(), ms, store.State().Now(), n)
      ensures TornReplies(replies, ms, window.Ttl(), provider, lo)
      ensures Quiet(traffic) ==> store.State() == old(store.State())
    {
      TornNone(window.Ttl(), provider, lo);
      hide Watched, TornReplies, InOrder, Later, BucketLog, Visible, HashOf, BucketKey, Matches, KindsApart, WellTimed,
           Quiet, Feasible, Burst, Run, AllPossible;
      replies, ms := [], [];
      ghost var start := store.State();
      WatchNone(start.Now());
      for k := 0 to n
        invariant store.State().Consistent(window)
        invariant |replies| == |ms| == k && Watched(start.Now(), ms, store.State().Now(), k)
        invariant TornReplies(replies, ms, window.Ttl(), provider, lo)
        invariant Quiet(traffic) ==> store.State() == start
      {
        ghost var before := store.State().Now();
        BurstIsPossible(store.State(), window, traffic, k);
        store.Meanwhile(window, Burst(traffic, k));
        WatchOne(start.Now(), ms, before, store.State().Now());
        ReadsVisible(store.db, store.log, window.Ttl(), provider, lo + k);
        TornRepliesSnoc(replies, ms, store.State().Now(), window.Ttl(), provider, lo);
        replies := replies + [store.db.HGetAll(BucketKey(provider, lo + k))];
        ms := ms + [store.State().Now()];
      }
    }

    /** LRANGE for each of `n` buckets from `lo` on, with traffic before each command. */
    method FetchLists(provider: string, lo: int, n: nat, traffic: seq<seq<Event>>)
      returns (lists: seq<seq<RawSample>>, ghost ms: seq<Moment>)
      requires window.Valid() && store.State().Consistent(window) && Feasible(traffic)
      modifies store
      ensures store.State().Consistent(window)
      ensures |lists| == |ms| == n && Watched(old(store.State()).Now(), ms, store.State().Now(), n)
      ensures TornLists(lists, ms, window.Ttl(), provider, lo)
      ensures Quiet(traffic) ==> store.State() == old(store.State())
    {
      TornNone(window.Ttl(), provider, lo);
      hide Watched, TornLists, InOrder, Later, BucketLog, Visible, ListOf, LatencyKey, Matches, KindsApart, WellTimed,
           Quiet, Feasible, Burst, Run, AllPossible;
      lists, ms := [], [];
      ghost var start := store.State();
      WatchNone(start.Now());
      for k := 0 to n
        invariant store.State().Consistent(window)
        invariant |lists| == |ms| == k && Watched(start.Now(), ms, store.State().Now(), k)
        invariant TornLists(lists, ms, window.Ttl(), provider, lo)
        invariant Quiet(traffic) ==> store.State() == start
      {
        ghost var before := store.State().Now();
        BurstIsPossible(store.State(), window, traffic, k);
        store.Meanwhile(window, Burst(traffic, k));
        WatchOne(start.Now(), ms, before, store.State().Now());
        ReadsVisible(store.db, store.log, window.Ttl(), provider, lo + k);
        TornListsSnoc(lists, ms, store.State().Now(), window.Ttl(), provider, lo);
        lists := lists + [store.db.LRange(LatencyKey(provider, lo + k))];
        ms := ms + [store.State().Now()];
      }
    }

    /**
      Merge the window. `None` means the store could not be read. Otherwise the read cannot raise, and never
      counts an attempt that was not committed or counts one twice. It counts no fewer than a whole read at the
      start would, unless a covered bucket's deadline passes before its command; and all that was committed
      before it began, unless a covered bucket outlived its TTL, which it has not for a reader at most one
      window behind. With no traffic it is exact precisely then.
     */
    method Read(provider: string, reading: real, reachable: bool, traffic: seq<seq<Event>>)
      returns (r: Option<Result<WindowCounts, MergeError>>, ghost replies: seq<map<string, Raw>>, ghost ms: seq<Moment>)
      requires window.Valid() && store.State().Consistent(window) && Feasible(traffic)
      modifies store
      ensures store.State().Consistent(window)
      ensures r == None <==> !reachable
      ensures reachable ==> r.value.Success? && r.value.value.provider == provider && r.value.value.ZeroFilled()
      // `replies[k]` is what the k-th bucket answered at `ms[k]`, between the call and the return
      ensures
        reachable ==>
          && |replies| == window.BucketCount()
          && Watched(old(store.State()).Now(), ms, store.State().Now(), window.BucketCount())
          && TornReplies(replies, ms, window.Ttl(), provider, window.Oldest(reading))
          && forall o :: r.value.value.CountFor(o) == Merged(replies, o)
      ensures
        var lo, n := window.Oldest(reading), window.BucketCount();
        var whole := RangeUnbroken(store.log, store.db.now, window.Ttl(), provider, lo, n);
        reachable ==>
          && (forall o :: r.value.value.CountFor(o) <= CountInRange(store.log, provider, lo, n, o))
          && (NoLapseUpTo(old(store.State()).Now(), ms, window.Ttl(), provider, lo) ==>
                forall o :: Sum(Instant(old(store.State()).Now(), window.Ttl(), provider, lo, n, o)) <=
                            r.value.value.CountFor(o))
          && (whole ==> forall o :: CountInRange(old(store.log), provider, lo, n, o) <= r.value.value.CountFor(o))
          && (Quiet(traffic) ==>
                (whole <==> forall o :: r.value.value.CountFor(o) == CountInRange(store.log, provider, lo, n, o)))
      ensures forall lag :: WellFiled(window, store.log, lag) && store.db.now - reading <= lag + window.Span() ==>
                RangeUnbroken(store.log, store.db.now, window.Ttl(), provider, window.Oldest(reading),
                              window.BucketCount())
    {
      replies, ms := [], [];
      if !reachable {
        InStep(window, store.State(), reading, provider);
        return None, replies, ms;
      }
      ghost var start := store.State();
      var lo, n := window.Oldest(reading), window.BucketCount();
      var hashes, moments := FetchHashes(provider, lo, n, traffic);
      replies, ms := hashes, moments;
      ReadBounds(replies, ms, window.Ttl(), provider, lo, start.Now(), store.State().Now());
      InStep(window, store.State(), reading, provider);
      if Quiet(traffic) {
        QuietMoments(replies, ms, window.Ttl(), provider, lo, start.Now());
        ReadExactIff(replies, start.log, start.db.now, window.Ttl(), provider, lo);
      }
      hide *;
      var counts := Merge(provider, hashes);
      return Some(counts), replies, ms;
    }

    /**
      Counts and percentiles over one window, in one pipeline: every HGETALL, then every LRANGE. The
      counts are bounded as in Read. The sample count is at most the reported total plus the records that
      landed meanwhile; at least what the reported per-bucket totals leave under the cap, unless a covered
      bucket's deadline passes between its two commands; and with no traffic exactly that. The percentiles are
      those of exactly the samples fetched.
     */
    method Snapshot(provider: string, reading: real, reachable: bool,
                    countTraffic: seq<seq<Event>>, sampleTraffic: seq<seq<Event>>)
      returns (r: Option<Result<ProviderHealth, MergeError>>, ghost replies: seq<map<string, Raw>>,
               ghost lists: seq<seq<RawSample>>, ghost ms: seq<Moment>, ghost ms': seq<Moment>)
      requires window.Valid() && store.State().Consistent(window)
      requires Feasible(countTraffic) && Feasible(sampleTraffic)
      modifies store
      ensures store.State().Consistent(window)
      ensures r == None <==> !reachable
      ensures reachable ==>
                r.value.Success? && r.value.value.counts.provider == provider && r.value.value.counts.ZeroFilled()
      ensures reachable ==> r.value.value == FromWindow(r.value.value.counts, UsableInAll(lists))
      ensures reachable ==> forall o :: r.value.value.counts.CountFor(o) == Merged(replies, o)
      // `replies[k]` and `lists[k]` are what the k-th bucket answered at `ms[k]` and `ms'[k]`, all between the
      // call and the return and every count before every list
      ensures
        reachable ==>
          && |replies| == |lists| == |ms| == |ms'| == window.BucketCount()
          && Watched(old(store.State()).Now(), ms + ms', store.State().Now(), 2 * window.BucketCount())
          && TornReplies(replies, ms, window.Ttl(), provider, window.Oldest(reading))
          && TornLists(lists, ms', window.Ttl(), provider, window.Oldest(reading))
      ensures
        var lo, n := window.Oldest(reading), window.BucketCount();
        reachable ==>
          var health := r.value.value;
          && (forall o :: health.counts.CountFor(o) <= CountInRange(store.log, provider, lo, n, o))
          && health.sampleCount <= health.counts.Total() + |store.log| - |old(store.log)|
          && (NoLapseUpTo(old(store.State()).Now(), ms, window.Ttl(), provider, lo) ==>
                forall o :: Sum(Instant(old(store.State()).Now(), window.Ttl(), provider, lo, n, o)) <=
                            health.counts.CountFor(o))
          && (NoLapseBetween(ms, ms', window.Ttl(), provider, lo) ==> Sum(CappedTotals(replies)) <= health.sampleCount)
          && (Quiet(countTraffic) && Quiet(sampleTraffic) ==> health.sampleCount == Sum(CappedTotals(replies)))
      ensures
        var lo, n := window.Oldest(reading), window.BucketCount();
        reachable && RangeUnbroken(store.log, store.db.now, window.Ttl(), provider, lo, n) ==>
          var health := r.value.value;
          && (forall o :: CountInRange(old(store.log), provider, lo, n, o) <= health.counts.CountFor(o))
          && Sum(CappedTotals(replies)) <= health.sampleCount
          && (Quiet(countTraffic) && Quiet(sampleTraffic) ==>
                && health.sampleCount == Sum(CappedBuckets(store.log, provider, lo, n))
                && UsableInAll(lists) == NewestSamples(store.log, provider, lo, n))
      ensures forall lag :: WellFiled(window, store.log, lag) && store.db.now - reading <= lag + window.Span() ==>
                RangeUnbroken(store.log, store.db.now, window.Ttl(), provider, window.Oldest(reading),
                              window.BucketCount())
    {
      replies, lists, ms, ms' := [], [], [], [];
      if !reachable {
        InStep(window, store.State(), reading, provider);
        return None, replies, lists, ms, ms';
      }
      ghost var start := store.State();
      var lo, n := window.Oldest(reading), window.BucketCount();
      var hashes, moments := FetchHashes(provider, lo, n, countTraffic);
      ghost var middle := store.State();
      var samples, moments' := FetchLists(provider, lo, n, sampleTraffic);
      replies, lists, ms, ms' := hashes, samples, moments, moments';
      SpanIsWholeBuckets(window);
      SnapshotBounds(hashes, samples, ms, ms', window.Ttl(), provider, lo, start.Now(), middle.Now(),
                     store.State().Now());
      InStep(window, store.State(), reading, provider);
      hide Watched, TornReplies, TornLists, RangeUnbroken, CountInRange, Merged, Sum, CappedTotals, Totals, Lengths,
           UsableInAll, CappedBuckets, Matches, KindsApart, WellTimed, Feasible, Ascending, Percentile, WellFiled,
           NoLapseUpTo, NoLapseBetween, Instant, NewestSamples;
      var counts := Merge(provider, hashes);
      var flat := ParseSamples(samples);
      match counts {
        case Failure(e) =>
          r := Some(Failure(e));
        case Success(c) =>
          r := Some(Success(FromWindow(c, flat)));
          SnapshotPercentiles(c, flat);
          MergedTotalIsSum(hashes);
          assert c.Total() == MergedTotal(hashes) by {
            TotalAddsUp(c, hashes);
          }
      }
    }
  }

  /** Readers at most one window behind cover nothing that was lost. */
  lemma InStep(w: Window, h: Held, reading: real, p: string)
    requires w.Valid() && h.Consistent(w)
    ensures forall lag :: WellFiled(w, h.log, lag) && h.db.now - reading <= lag + w.Span() ==>
              RangeUnbroken(h.log, h.db.now, w.Ttl(), p, w.Oldest(reading), w.BucketCount())
  {
    hide Matches, KindsApart, WellFiled, WellTimed, RangeUnbroken;
    forall lag | WellFiled(w, h.log, lag) && h.db.now - reading <= lag + w.Span()
      ensures RangeUnbroken(h.log, h.db.now, w.Ttl(), p, w.Oldest(reading), w.BucketCount())
    {
      RangeInStep(w, h.Now(), lag, reading, p);
    }
  }

  /** Traffic is a list of bursts, one before each command; missing ones are empty. */
  function Burst(traffic: seq<seq<Event>>, k: nat): seq<Event> {
    if k < |traffic| then traffic[k] else []
  }

  predicate Feasible(traffic: seq<seq<Event>>) {
    forall k :: 0 <= k < |traffic| ==> AllPossible(traffic[k])
  }

  predicate Quiet(traffic: seq<seq<Event>>) {
    forall k :: 0 <= k < |traffic| ==> traffic[k] == []
  }

  lemma BurstIsPossible(h: Held, w: Window, traffic: seq<seq<Event>>, k: nat)
    requires Feasible(traffic)
    ensures AllPossible(Burst(traffic, k))
    ensures Quiet(traffic) ==> Run(h, w, Burst(traffic, k)) == h
  {
  }

  /** `n` successive moments between a first and a last one. */
  ghost predicate Watched(first: Moment, ms: seq<Moment>, last: Moment, n: nat) {
    && |ms| == n
    && InOrder(ms)
    && Later(first, last)
    && forall k :: 0 <= k < n ==> Later(first, ms[k]) && Later(ms[k], last)
  }

  lemma TornNone(ttl: real, p: string, lo: int)
    ensures TornReplies([], [], ttl, p, lo) && TornLists([], [], ttl, p, lo)
  {
  }

  lemma TornRepliesSnoc(replies: seq<map<string, Raw>>, ms: seq<Moment>, m: Moment, ttl: real, p: string, lo: int)
    requires |replies| == |ms| && TornReplies(replies, ms, ttl, p, lo)
    ensures TornReplies(replies + [HashOf(Visible(BucketLog(m.log, p, lo + |ms|), m.now, ttl))], ms + [m], ttl, p, lo)
  {
    hide HashOf, Visible, BucketLog;
  }

  lemma TornListsSnoc(lists: seq<seq<RawSample>>, ms: seq<Moment>, m: Moment, ttl: real, p: string, lo: int)
    requires |lists| == |ms| && TornLists(lists, ms, ttl, p, lo)
    ensures TornLists(lists + [ListOf(Visible(BucketLog(m.log, p, lo + |ms|), m.now, ttl))], ms + [m], ttl, p, lo)
  {
    hide ListOf, Visible, BucketLog;
  }

  lemma WatchNone(m: Moment)
    ensures Watched(m, [], m, 0)
  {
  }

  lemma WatchOne(first: Moment, ms: seq<Moment>, last: Moment, next: Moment)
    requires Watched(first, ms, last, |ms|) && Later(last, next)
    ensures Watched(first, ms + [next], next, |ms| + 1)
  {
    forall a: Moment | Later(a, last) ensures Later(a, next) {
      LaterTransitive(a, last, next);
    }
  }

  lemma ReadBounds(replies: seq<map<string, Raw>>, ms: seq<Moment>, ttl: real, p: string, lo: int,
                   first: Moment, last: Moment)
    requires Watched(first, ms, last, |replies|) && TornReplies(replies, ms, ttl, p, lo)
    ensures forall o :: 0 <= Merged(replies, o) <= CountInRange(last.log, p, lo, |replies|, o)
    ensures NoLapseUpTo(first, ms, ttl, p, lo) ==>
              forall o :: Sum(Instant(first, ttl, p, lo, |replies|, o)) <= Merged(replies, o)
    ensures RangeUnbroken(last.log, last.now, ttl, p, lo, |replies|) ==>
              forall o :: CountInRange(first.log, p, lo, |replies|, o) <= Merged(replies, o)
  {
    hide Later, TornReplies, Merged, CountInRange, RangeUnbroken, NoLapseUpTo, Instant, Sum, InOrder;
    forall o
      ensures 0 <= Merged(replies, o) <= CountInRange(last.log, p, lo, |replies|, o)
      ensures NoLapseUpTo(first, ms, ttl, p, lo) ==> Sum(Instant(first, ttl, p, lo, |replies|, o)) <= Merged(replies, o)
      ensures RangeUnbroken(last.log, last.now, ttl, p, lo, |replies|) ==>
                CountInRange(first.log, p, lo, |replies|, o) <= Merged(replies, o)
    {
      TornCounts(replies, ms, ttl, p, lo, o, first, last);
      if RangeUnbroken(last.log, last.now, ttl, p, lo, |replies|) {
        TornCountsExact(replies, ms, ttl, p, lo, o, first, last);
      }
    }
  }

  lemma QuietMoments(replies: seq<map<string, Raw>>, ms: seq<Moment>, ttl: real, p: string, lo: int, here: Moment)
    requires Watched(here, ms, here, |replies|) && TornReplies(replies, ms, ttl, p, lo)
    ensures QuietReplies(replies, here.log, here.now, ttl, p, lo)
  {
    forall k | 0 <= k < |replies| ensures ms[k] == here {
      assert Later(here, ms[k]) && Later(ms[k], here);
    }
  }

  lemma TotalAddsUp(c: WindowCounts, replies: seq<map<string, Raw>>)
    requires c.ZeroFilled() && forall o :: c.CountFor(o) == Merged(replies, o)
    ensures c.Total() == MergedTotal(replies)
  {
    hide Merged;
    assert c.CountFor(Ok) == c.ok;
    assert forall e :: e in c.errors ==> c.CountFor(Failed(e)) == c.errors[e];
  }

  /** Attempts of each bucket, cut off at the sample cap. */
  function CappedBuckets(log: seq<Commit>, p: string, lo: int, n: nat): (r: seq<int>)
    ensures |r| == n && forall k :: 0 <= k < n ==> r[k] == Min(SAMPLE_CAP, |BucketLog(log, p, lo + k)|)
  {
    seq(n, k requires 0 <= k < n => Min(SAMPLE_CAP, |BucketLog(log, p, lo + k)|))
  }

  lemma SnapshotBounds(replies: seq<map<string, Raw>>, lists: seq<seq<RawSample>>, ms: seq<Moment>, ms': seq<Moment>,
                       ttl: real, p: string, lo: int, first: Moment, middle: Moment, last: Moment)
    requires |replies| == |lists| == |ms| == |ms'| > 0
    requires Watched(first, ms, middle, |ms|) && Watched(middle, ms', last, |ms'|)
    requires TornReplies(replies, ms, ttl, p, lo) && TornLists(lists, ms', ttl, p, lo)
    ensures forall o :: 0 <= Merged(replies, o) <= CountInRange(last.log, p, lo, |replies|, o)
    ensures NoLapseUpTo(first, ms, ttl, p, lo) ==>
              forall o :: Sum(Instant(first, ttl, p, lo, |replies|, o)) <= Merged(replies, o)
    ensures Watched(first, ms + ms', last, 2 * |ms|)
    ensures |UsableInAll(lists)| == Sum(Lengths(lists))
    ensures Sum(Lengths(lists)) <= Sum(Totals(replies)) + |last.log| - |first.log|
    ensures NoLapseBetween(ms, ms', ttl, p, lo) ==> Sum(CappedTotals(replies)) <= Sum(Lengths(lists))
    ensures first == last ==> Sum(Lengths(lists)) == Sum(CappedTotals(replies))
    ensures RangeUnbroken(last.log, last.now, ttl, p, lo, |replies|) ==>
              && (forall o :: CountInRange(first.log, p, lo, |replies|, o) <= Merged(replies, o))
              && Sum(CappedTotals(replies)) <= Sum(Lengths(lists))
              && (first == last ==>
                    && Sum(Lengths(lists)) == Sum(CappedBuckets(last.log, p, lo, |replies|))
                    && UsableInAll(lists) == NewestSamples(last.log, p, lo, |replies|))
  {
    hide FieldFor, BucketLog, Visible, HashOf, ListOf, Later, Count, Sum, Unbroken, InOrder, Merged, CountInRange,
         NoLapse, NoLapseUpTo, NoLapseBetween, RangeUnbroken, TornReplies, TornLists, Instant, UsableInAll;
    WatchLonger(first, ms, middle, last);
    ReadBounds(replies, ms, ttl, p, lo, first, last);
    ListsAreUsable(lists, ms', ttl, p, lo);
    WatchBoth(first, ms, middle, ms', last);
    WatchAll(first, ms, middle, ms', last);
    var late := ms'[|ms'| - 1];
    TornSampleCount(replies, lists, ms, ms', ttl, p, lo);
    LogsGrow(first, ms[0]);
    LogsGrow(late, last);
    if first == last {
      WatchPinned(first, middle, ms', last);
      AllPinned(last, ms);
      AllPinned(last, ms');
      SameMomentNoLapse(last, ms, ms', ttl, p, lo);
    }
    if RangeUnbroken(last.log, last.now, ttl, p, lo, |replies|) {
      WholeNoLapse(ms, ms', last, ttl, p, lo);
      if first == last {
        QuietTotals(replies, ms, ttl, p, lo, last);
        QuietSamples(lists, ms', ttl, p, lo, last);
      }
    }
  }

  lemma AllPinned(here: Moment, ms: seq<Moment>)
    requires Watched(here, ms, here, |ms|)
    ensures forall k :: 0 <= k < |ms| ==> ms[k] == here
  {
    hide InOrder;
    forall k | 0 <= k < |ms| ensures ms[k] == here {
      Pinned(here, ms[k]);
    }
  }

  lemma SameMomentNoLapse(here: Moment, ms: seq<Moment>, ms': seq<Moment>, ttl: real, p: string, lo: int)
    requires |ms| == |ms'|
    requires forall k :: 0 <= k < |ms| ==> ms[k] == here && ms'[k] == here
    ensures NoLapseBetween(ms, ms', ttl, p, lo)
  {
    hide NoLapse;
    forall k | 0 <= k < |ms| ensures NoLapse(ms[k], ms'[k], ttl, p, lo + k) {
      NoTimeNoLapse(here, ttl, p, lo + k);
    }
  }

  lemma NoTimeNoLapse(m: Moment, ttl: real, p: string, i: int)
    ensures NoLapse(m, m, ttl, p, i)
  {
    hide BucketLog;
  }

  lemma ListsAreUsable(lists: seq<seq<RawSample>>, ms: seq<Moment>, ttl: real, p: string, lo: int)
    requires TornLists(lists, ms, ttl, p, lo)
    ensures |UsableInAll(lists)| == Sum(Lengths(lists))
  {
    hide BucketLog, Visible, ListOf, Usable;
    forall j | 0 <= j < |lists| ensures forall k :: 0 <= k < |lists[j]| ==> Usable(lists[j][k]) {
      RecordedAreUsable(Visible(BucketLog(ms[j].log, p, lo + j), ms[j].now, ttl));
    }
    AllUsableInAll(lists);
  }

  lemma WatchLonger(first: Moment, ms: seq<Moment>, middle: Moment, last: Moment)
    requires Watched(first, ms, middle, |ms|) && Later(middle, last)
    ensures Watched(first, ms, last, |ms|)
  {
    hide InOrder;
    LaterTransitive(first, middle, last);
    forall k | 0 <= k < |ms| ensures Later(ms[k], last) {
      LaterTransitive(ms[k], middle, last);
    }
  }

  lemma WatchAll(first: Moment, ms: seq<Moment>, middle: Moment, ms': seq<Moment>, last: Moment)
    requires |ms| == |ms'| && Watched(first, ms, middle, |ms|) && Watched(middle, ms', last, |ms'|)
    ensures Watched(first, ms + ms', last, 2 * |ms|)
  {
    WatchBoth(first, ms, middle, ms', last);
    LaterTransitive(first, middle, last);
    hide InOrder, Later;
    var all := ms + ms';
    forall k | 0 <= k < |all| ensures Later(first, all[k]) && Later(all[k], last) {
      if k < |ms| {
        LaterTransitive(ms[k], middle, last);
      } else {
        LaterTransitive(first, middle, ms'[k - |ms|]);
      }
    }
  }

  lemma WatchBoth(first: Moment, ms: seq<Moment>, middle: Moment, ms': seq<Moment>, last: Moment)
    requires Watched(first, ms, middle, |ms|) && Watched(middle, ms', last, |ms'|)
    ensures InOrder(ms + ms')
  {
    hide Later;
    var all := ms + ms';
    forall j, k | 0 <= j <= k < |all| ensures Later(all[j], all[k]) {
      if j < |ms| <= k {
        LaterTransitive(ms[j], middle, ms'[k - |ms|]);
      }
    }
  }

  lemma LogsGrow(a: Moment, b: Moment)
    requires Later(a, b)
    ensures |a.log| <= |b.log|
    ensures |a.log| == |b.log| ==> a.log == b.log
  {
  }

  lemma Pinned(here: Moment, m: Moment)
    requires Later(here, m) && Later(m, here)
    ensures m == here
  {
  }

  lemma WatchPinned(first: Moment, middle: Moment, ms: seq<Moment>, last: Moment)
    requires Later(first, middle) && Watched(middle, ms, last, |ms|) && first == last
    ensures Watched(last, ms, last, |ms|)
  {
    hide InOrder;
    Pinned(first, middle);
  }

  /** The latencies a bucket's list keeps: the newest SAMPLE_CAP of its commits, newest first. */
  function Newest(s: seq<Commit>): (r: seq<real>)
    ensures |r| == Min(SAMPLE_CAP, |s|)
    ensures forall k :: 0 <= k < |r| ==> r[k] == s[|s| - 1 - k].attempt.latencyMs
  {
    seq(Min(SAMPLE_CAP, |s|), k requires 0 <= k < Min(SAMPLE_CAP, |s|) => s[|s| - 1 - k].attempt.latencyMs)
  }

  /** ... bucket by bucket, oldest bucket first. */
  function NewestSamples(log: seq<Commit>, p: string, lo: int, n: nat): seq<real> {
    if n == 0 then [] else NewestSamples(log, p, lo, n - 1) + Newest(BucketLog(log, p, lo + n - 1))
  }

  lemma ReadBackNewest(s: seq<Commit>)
    ensures UsableIn(ListOf(s)) == Newest(s)
  {
    hide ListOf;
    ListIsNewest(s);
    RecordedAreUsable(s);
    AllUsable(ListOf(s));
  }

  lemma QuietSamples(lists: seq<seq<RawSample>>, ms: seq<Moment>, ttl: real, p: string, lo: int, here: Moment)
    requires |lists| == |ms| && Watched(here, ms, here, |ms|) && TornLists(lists, ms, ttl, p, lo)
    requires RangeUnbroken(here.log, here.now, ttl, p, lo, |lists|)
    ensures UsableInAll(lists) == NewestSamples(here.log, p, lo, |lists|)
  {
    hide Watched, BucketLog, Visible, ListOf, Unbroken;
    AllPinned(here, ms);
    forall k | 0 <= k < |lists| ensures lists[k] == ListOf(BucketLog(here.log, p, lo + k)) {
      VisibleCounts(BucketLog(here.log, p, lo + k), here.now, ttl, Ok);
    }
    SamplesAtOnce(lists, here.log, p, lo);
  }

  lemma {:induction false} SamplesAtOnce(lists: seq<seq<RawSample>>, log: seq<Commit>, p: string, lo: int)
    requires forall k :: 0 <= k < |lists| ==> lists[k] == ListOf(BucketLog(log, p, lo + k))
    ensures UsableInAll(lists) == NewestSamples(log, p, lo, |lists|)
  {
    hide BucketLog, ListOf;
    if lists != [] {
      var k := |lists| - 1;
      ReadBackNewest(BucketLog(log, p, lo + k));
      SamplesAtOnce(lists[..k], log, p, lo);
    }
  }

  lemma QuietTotals(replies: seq<map<string, Raw>>, ms: seq<Moment>, ttl: real, p: string, lo: int, here: Moment)
    requires Watched(here, ms, here, |replies|) && TornReplies(replies, ms, ttl, p, lo)
    requires RangeUnbroken(here.log, here.now, ttl, p, lo, |replies|)
    ensures CappedTotals(replies) == CappedBuckets(here.log, p, lo, |replies|)
  {
    hide Watched, BucketLog, Visible, HashOf, HashTotal, Unbroken;
    QuietMoments(replies, ms, ttl, p, lo, here);
    forall k | 0 <= k < |replies| ensures HashTotal(replies[k]) == |BucketLog(here.log, p, lo + k)| {
      var bl := BucketLog(here.log, p, lo + k);
      VisibleCounts(bl, here.now, ttl, Ok);
      HashTotalIsLength(bl);
    }
  }

  /** A record into a consistent store keeps it consistent, and every one of its commands succeeds. */
  lemma LandsConsistently(h: Held, w: Window, a: Attempt, index: int, reading: real)
    requires w.Positive()
    ensures h.Consistent(w) ==> Next(h, w, Lands(a, index, reading)).Consistent(w)
    ensures h.Consistent(w) ==> ApplyAll(h.db, RecordCommands(w, a, index)).ok
  {
    if h.Consistent(w) {
      NextConsistent(h, w, Lands(a, index, reading));
      LandKeepsMatch(h.db, h.log, w, Commit(a, index, reading, h.db.now));
    }
  }
}
