/** Reads in the middle of a run: other processes are at work between a reader's commands. */
module TornRuns {
  import opened Common
  import opened Taxonomy
  import opened Geometry
  import opened Keys
  import opened Redis
  import opened WindowLog
  import opened WindowReads
  import opened TornReads
  import opened HealthStore
  import opened HealthRuns

  /** The store's history and clock once the first `t` steps of a run are over. */
  function MomentAt(w: Window, lag: real, steps: seq<Step>, t: nat): Moment
    requires w.Positive() && t <= |steps|
  {
    match After(w, lag, steps[..t])
    case None => Moment([], 0.0)
    case Some(s) => s.held.Now()
  }

  lemma StepForward(s: System, w: Window, lag: real, step: Step)
    requires w.Positive() && Invariant(s, w, lag) && Enabled(s, lag, step)
    ensures Later(s.held.Now(), StepOf(s, w, lag, step).held.Now())
  {
    LaterItself(s.held.Now());
    hide Later, Next, Matches, KindsApart, WellTimed, WellFiled, FiledRight, CountLog, CountIf;
    match step
    case Start(_, _) =>
    case Land(k) => NextConsistent(s.held, w, LandingOf(s.records[k]));
    case Vanish(_) =>
    case Hear(_) =>
    case Report(_) =>
    case Cancel(_) =>
    case Pass(seconds) => NextConsistent(s.held, w, Passes(seconds));
    case Reclaim(key) => NextConsistent(s.held, w, Reclaims(key));
  }

  /** A run only ever moves forward, and every state on the way is that of a run. */
  lemma {:induction false} RunsMoveForward(w: Window, lag: real, steps: seq<Step>, j: nat, k: nat)
    requires w.Positive() && After(w, lag, steps).Some? && j <= k <= |steps|
    ensures After(w, lag, steps[..j]).Some? && After(w, lag, steps[..k]).Some?
    ensures Later(MomentAt(w, lag, steps, j), MomentAt(w, lag, steps, k))
  {
    hide Later, Invariant, StepOf, Enabled;
    var n := |steps| - 1;
    if j == |steps| {
      assert steps[..j] == steps;
      LaterItself(MomentAt(w, lag, steps, j));
    } else {
      var init := steps[..n];
      assert forall t :: 0 <= t <= n ==> init[..t] == steps[..t];
      if k <= n {
        RunsMoveForward(w, lag, init, j, k);
      } else {
        RunsMoveForward(w, lag, init, j, n);
        EveryRunKeeps(w, lag, init);
        StepForward(After(w, lag, init).value, w, lag, steps[n]);
        assert steps[..k] == steps && init[..n] == init;
        LaterTransitive(MomentAt(w, lag, steps, j), MomentAt(w, lag, steps, n), MomentAt(w, lag, steps, k));
      }
    }
  }

  /** When the commands of a pipeline are answered: after this many steps each. */
  predicate Timetable(ts: seq<nat>, steps: seq<Step>) {
    ts != [] && forall j, k :: 0 <= j <= k < |ts| ==> ts[j] <= ts[k] <= |steps|
  }

  function MomentsAt(w: Window, lag: real, steps: seq<Step>, ts: seq<nat>): (ms: seq<Moment>)
    requires w.Positive() && Timetable(ts, steps)
    ensures |ms| == |ts| && forall k :: 0 <= k < |ms| ==> ms[k] == MomentAt(w, lag, steps, ts[k])
  {
    seq(|ts|, k requires 0 <= k < |ts| => MomentAt(w, lag, steps, ts[k]))
  }

  function StoreAt(w: Window, lag: real, steps: seq<Step>, t: nat): Db
    requires w.Positive() && t <= |steps|
  {
    match After(w, lag, steps[..t])
    case None => EMPTY_DB
    case Some(s) => s.held.db
  }

  /** Each HGETALL is answered from the keyspace as it stands at that point of the run; each LRANGE likewise. */
  predicate HashesAnswer(replies: seq<map<string, Raw>>, w: Window, lag: real, steps: seq<Step>, ts: seq<nat>,
                         p: string, lo: int)
    requires w.Positive() && Timetable(ts, steps)
  {
    && |replies| == |ts|
    && forall k :: 0 <= k < |ts| ==> replies[k] == StoreAt(w, lag, steps, ts[k]).HGetAll(BucketKey(p, lo + k))
  }

  predicate ListsAnswer(lists: seq<seq<RawSample>>, w: Window, lag: real, steps: seq<Step>, ts: seq<nat>,
                        p: string, lo: int)
    requires w.Positive() && Timetable(ts, steps)
  {
    && |lists| == |ts|
    && forall k :: 0 <= k < |ts| ==> lists[k] == StoreAt(w, lag, steps, ts[k]).LRange(LatencyKey(p, lo + k))
  }

  lemma AnswersAt(w: Window, lag: real, steps: seq<Step>, t: nat, p: string, i: int)
    requires w.Positive() && After(w, lag, steps).Some? && t <= |steps|
    ensures
      var m := MomentAt(w, lag, steps, t);
      var seen := Visible(BucketLog(m.log, p, i), m.now, w.Ttl());
      && StoreAt(w, lag, steps, t).HGetAll(BucketKey(p, i)) == HashOf(seen)
      && StoreAt(w, lag, steps, t).LRange(LatencyKey(p, i)) == ListOf(seen)
      && WellFiled(w, m.log, lag) && WellTimed(m.log, m.now)
  {
    RunsMoveForward(w, lag, steps, t, t);
    EveryRunKeeps(w, lag, steps[..t]);
    var s := After(w, lag, steps[..t]).value;
    hide Matches, KindsApart, WellTimed, WellFiled, BucketKey, LatencyKey, HashOf, ListOf, Visible, BucketLog,
         FiledRight, CountLog, CountIf, After;
    ReadsVisible(s.held.db, s.held.log, w.Ttl(), p, i);
  }

  lemma TornInRun(replies: seq<map<string, Raw>>, w: Window, lag: real, steps: seq<Step>, ts: seq<nat>, p: string,
                  lo: int)
    requires w.Positive() && After(w, lag, steps).Some? && Timetable(ts, steps)
    requires HashesAnswer(replies, w, lag, steps, ts, p, lo)
    ensures TornReplies(replies, MomentsAt(w, lag, steps, ts), w.Ttl(), p, lo)
  {
    hide HashOf, Visible, BucketLog, StoreAt, MomentAt, After, BucketKey;
    forall k | 0 <= k < |ts|
      ensures
        var m := MomentAt(w, lag, steps, ts[k]);
        replies[k] == HashOf(Visible(BucketLog(m.log, p, lo + k), m.now, w.Ttl()))
    {
      AnswersAt(w, lag, steps, ts[k], p, lo + k);
    }
  }

  lemma ListsInRun(lists: seq<seq<RawSample>>, w: Window, lag: real, steps: seq<Step>, ts: seq<nat>, p: string, lo: int)
    requires w.Positive() && After(w, lag, steps).Some? && Timetable(ts, steps)
    requires ListsAnswer(lists, w, lag, steps, ts, p, lo)
    ensures TornLists(lists, MomentsAt(w, lag, steps, ts), w.Ttl(), p, lo)
  {
    hide ListOf, Visible, BucketLog, StoreAt, MomentAt, After, LatencyKey;
    forall k | 0 <= k < |ts|
      ensures
        var m := MomentAt(w, lag, steps, ts[k]);
        lists[k] == ListOf(Visible(BucketLog(m.log, p, lo + k), m.now, w.Ttl()))
    {
      AnswersAt(w, lag, steps, ts[k], p, lo + k);
    }
  }

  lemma MomentsInOrder(w: Window, lag: real, steps: seq<Step>, ts: seq<nat>)
    requires w.Positive() && After(w, lag, steps).Some? && Timetable(ts, steps)
    ensures InOrder(MomentsAt(w, lag, steps, ts))
  {
    hide MomentAt, After, Later;
    forall j, k | 0 <= j <= k < |ts|
      ensures Later(MomentAt(w, lag, steps, ts[j]), MomentAt(w, lag, steps, ts[k]))
    {
      RunsMoveForward(w, lag, steps, ts[j], ts[k]);
    }
  }

  /** A torn read inside any run, with other processes starting, committing and losing records between its
      commands: for a reader still within one window of the least lead when its last command is answered, each
      count lies between the exact number of commits its window covered at the first command and at the last. */
  lemma TornReadInRun(w: Window, lag: real, steps: seq<Step>, p: string, reading: real, ts: seq<nat>,
                      replies: seq<map<string, Raw>>, o: Outcome)
    requires w.Valid() && After(w, lag, steps).Some? && Timetable(ts, steps) && |ts| == w.BucketCount()
    requires HashesAnswer(replies, w, lag, steps, ts, p, w.Oldest(reading))
    requires MomentAt(w, lag, steps, ts[|ts| - 1]).now - reading <= lag + w.Span()
    ensures
      var first, last := MomentAt(w, lag, steps, ts[0]), MomentAt(w, lag, steps, ts[|ts| - 1]);
      var lo, n := w.Oldest(reading), w.BucketCount();
      CountInRange(first.log, p, lo, n, o) <= Merged(replies, o) <= CountInRange(last.log, p, lo, n, o)
  {
    hide MomentAt, After, Later, WellFiled, WellTimed, Merged, CountInRange, RangeUnbroken, TornReplies;
    var ms, last := MomentsAt(w, lag, steps, ts), MomentAt(w, lag, steps, ts[|ts| - 1]);
    TornInRun(replies, w, lag, steps, ts, p, w.Oldest(reading));
    MomentsInOrder(w, lag, steps, ts);
    assert forall k :: 0 <= k < |ms| ==> Later(ms[0], ms[k]) && Later(ms[k], ms[|ms| - 1]);
    AnswersAt(w, lag, steps, ts[|ts| - 1], p, 0);
    RangeInStep(w, last, lag, reading, p);
    TornCountsExact(replies, ms, w.Ttl(), p, w.Oldest(reading), o, ms[0], last);
  }

  /** A torn snapshot inside any run, under the same condition at its last command: its counts are bounded as a
      read's; its samples are at least the capped totals it reports and at most the total plus the records
      that landed while it ran, and exactly the capped totals when none did. */
  lemma TornSnapshotInRun(w: Window, lag: real, steps: seq<Step>, p: string, reading: real, ts: seq<nat>, ts': seq<nat>,
                          replies: seq<map<string, Raw>>, lists: seq<seq<RawSample>>)
    requires w.Valid() && After(w, lag, steps).Some? && |ts| == |ts'| == w.BucketCount()
    requires Timetable(ts, steps) && Timetable(ts', steps) && Timetable(ts + ts', steps)
    requires HashesAnswer(replies, w, lag, steps, ts, p, w.Oldest(reading))
    requires ListsAnswer(lists, w, lag, steps, ts', p, w.Oldest(reading))
    requires MomentAt(w, lag, steps, ts'[|ts'| - 1]).now - reading <= lag + w.Span()
    ensures
      var first, last := MomentAt(w, lag, steps, ts[0]), MomentAt(w, lag, steps, ts'[|ts'| - 1]);
      var lo, n := w.Oldest(reading), w.BucketCount();
      && (forall o :: CountInRange(first.log, p, lo, n, o) <= Merged(replies, o) <= CountInRange(last.log, p, lo, n, o))
      && Sum(CappedTotals(replies)) <= Sum(Lengths(lists)) <= Sum(Totals(replies)) + |last.log| - |first.log|
      && (first.log == last.log ==> Sum(Lengths(lists)) == Sum(CappedTotals(replies)))
  {
    hide MomentAt, After, Later, WellFiled, WellTimed, Merged, CountInRange, RangeUnbroken, TornReplies, TornLists,
         NoLapse, Sum, CappedTotals, Lengths, Totals;
    var lo := w.Oldest(reading);
    var ms, ms', all := MomentsAt(w, lag, steps, ts), MomentsAt(w, lag, steps, ts'), MomentsAt(w, lag, steps, ts + ts');
    assert ms + ms' == all;
    var last := ms'[|ms'| - 1];
    TornInRun(replies, w, lag, steps, ts, p, lo);
    ListsInRun(lists, w, lag, steps, ts', p, lo);
    MomentsInOrder(w, lag, steps, ts + ts');
    SplitOrder(ms, ms');
    AnswersAt(w, lag, steps, ts'[|ts'| - 1], p, 0);
    RangeInStep(w, last, lag, reading, p);
    WholeNoLapse(ms, ms', last, w.Ttl(), p, lo);
    TornSampleCount(replies, lists, ms, ms', w.Ttl(), p, lo);
    forall o
      ensures CountInRange(ms[0].log, p, lo, |ms|, o) <= Merged(replies, o) <= CountInRange(last.log, p, lo, |ms|, o)
    {
      TornCountsExact(replies, ms, w.Ttl(), p, lo, o, ms[0], last);
    }
  }

  lemma SplitOrder(ms: seq<Moment>, ms': seq<Moment>)
    requires |ms| == |ms'| > 0 && InOrder(ms + ms')
    ensures
      var last := ms'[|ms'| - 1];
      && Later(ms[0], last)
      && (forall k :: 0 <= k < |ms| ==> Later(ms[0], ms[k]) && Later(ms[k], last) && Later(ms'[k], last))
  {
    hide Later;
    var all := ms + ms';
    assert all[0] == ms[0] && all[|all| - 1] == ms'[|ms'| - 1];
    forall k | 0 <= k < |ms|
      ensures Later(ms[0], ms[k]) && Later(ms[k], ms'[|ms'| - 1]) && Later(ms'[k], ms'[|ms'| - 1])
    {
      assert all[k] == ms[k] && all[|ms| + k] == ms'[k];
    }
  }
}
