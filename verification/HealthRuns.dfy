/** Whole runs of the health window: any number of writers, records in flight, clocks, expiry. */
module HealthRuns {
  import opened Common
  import opened Taxonomy
  import opened Geometry
  import opened Keys
  import opened Redis
  import opened WindowLog
  import opened WindowReads
  import opened HealthStore

  /** The server's side of a record's transaction: it may yet run, it ran, it never will. */
  datatype Server = InFlight | Executed | Vanished

  /** The writer's side: it waits, it heard success, it reported a drop, or it was cancelled. The two sides meet
      only in that success is heard of a transaction that ran. */
  datatype Writer = Waiting | Heard | Reported | Cancelled

  /** A record, from the reading that chose its bucket on. */
  datatype Record = Record(attempt: Attempt, index: int, reading: real, at: real, server: Server, writer: Writer)

  /** The store and every record ever started, in the order of their starts. */
  datatype System = System(held: Held, records: seq<Record>)

  const INIT := System(EMPTY, [])

  /** One step of some process or of the server. `k` names a record. A transaction may run after its writer has
      reported it dropped or was cancelled, and one that ran may still be reported or its writer cancelled. */
  datatype Step =
    | Start(attempt: Attempt, reading: real)
    | Land(k: nat)
    | Vanish(k: nat)
    | Hear(k: nat)
    | Report(k: nat)
    | Cancel(k: nat)
    | Pass(seconds: real)
    | Reclaim(key: string)

  /** Steps the environment can take; `lag` is the least lead of the server's clock over a writer's. */
  predicate Enabled(s: System, lag: real, step: Step) {
    match step
    case Start(_, reading) => s.held.db.now - reading >= lag
    case Land(k) => k < |s.records| && s.records[k].server == InFlight
    case Vanish(k) => k < |s.records| && s.records[k].server == InFlight
    case Hear(k) => k < |s.records| && s.records[k].writer == Waiting && s.records[k].server == Executed
    case Report(k) => k < |s.records| && s.records[k].writer == Waiting
    case Cancel(k) => k < |s.records| && s.records[k].writer == Waiting
    case Pass(seconds) => seconds >= 0.0
    case Reclaim(_) => true
  }

  /** The landing of a record, as the store sees it. */
  function LandingOf(r: Record): Event {
    Lands(r.attempt, r.index, r.reading)
  }

  function StepOf(s: System, w: Window, lag: real, step: Step): System
    requires w.Positive() && Enabled(s, lag, step)
  {
    match step
    case Start(a, reading) =>
      s.(records := s.records + [Record(a, w.BucketOf(reading), reading, s.held.db.now, InFlight, Waiting)])
    case Land(k) =>
      System(Next(s.held, w, LandingOf(s.records[k])), s.records[k := s.records[k].(server := Executed)])
    case Vanish(k) => s.(records := s.records[k := s.records[k].(server := Vanished)])
    case Hear(k) => s.(records := s.records[k := s.records[k].(writer := Heard)])
    case Report(k) => s.(records := s.records[k := s.records[k].(writer := Reported)])
    case Cancel(k) => s.(records := s.records[k := s.records[k].(writer := Cancelled)])
    case Pass(seconds) => s.(held := Next(s.held, w, Passes(seconds)))
    case Reclaim(key) => s.(held := Next(s.held, w, Reclaims(key)))
  }

  /** The state a run ends in, when every step of it is enabled. */
  function After(w: Window, lag: real, steps: seq<Step>): Option<System>
    requires w.Positive()
  {
    if steps == [] then Some(INIT)
    else
      match After(w, lag, steps[..|steps| - 1])
      case None => None
      case Some(s) =>
        var step := steps[|steps| - 1];
        if Enabled(s, lag, step) then Some(StepOf(s, w, lag, step)) else None
  }

  // ----- the invariant -------------------------------------------------------------

  function OfKind(a: Attempt, p: string, o: Outcome): nat {
    if a.provider == p && a.outcome == o then 1 else 0
  }

  function CountLog(log: seq<Commit>, p: string, o: Outcome): nat {
    if log == [] then 0 else CountLog(log[..|log| - 1], p, o) + OfKind(log[|log| - 1].attempt, p, o)
  }

  /** Records of one provider and outcome; those of them whose transaction ran. */
  function Started(p: string, o: Outcome): Record -> bool {
    (r: Record) => r.attempt.provider == p && r.attempt.outcome == o
  }

  function Committed(p: string, o: Outcome): Record -> bool {
    (r: Record) => r.server == Executed && r.attempt.provider == p && r.attempt.outcome == o
  }

  function Ran(): Record -> bool {
    (r: Record) => r.server == Executed
  }

  predicate FiledRight(w: Window, lag: real, now: real, records: seq<Record>)
    requires w.Positive()
  {
    forall k :: 0 <= k < |records| ==>
      && records[k].index == w.BucketOf(records[k].reading)
      && records[k].at <= now
      && records[k].at - records[k].reading >= lag
  }

  /** Success is heard only of what ran. */
  predicate TrueToTheServer(records: seq<Record>) {
    forall k :: 0 <= k < |records| && records[k].writer == Heard ==> records[k].server == Executed
  }

  ghost predicate Invariant(s: System, w: Window, lag: real)
    requires w.Positive()
  {
    && s.held.Consistent(w)
    && WellFiled(w, s.held.log, lag)
    && FiledRight(w, lag, s.held.db.now, s.records)
    && TrueToTheServer(s.records)
    && |s.held.log| == CountIf(s.records, Ran())
    && forall p, o :: CountLog(s.held.log, p, o) == CountIf(s.records, Committed(p, o))
  }

  lemma CountLogSnoc(log: seq<Commit>, e: Commit, p: string, o: Outcome)
    ensures CountLog(log + [e], p, o) == CountLog(log, p, o) + OfKind(e.attempt, p, o)
  {
    assert (log + [e])[..|log|] == log;
  }

  lemma InitInvariant(w: Window, lag: real)
    requires w.Positive()
    ensures Invariant(INIT, w, lag)
  {
    EmptyConsistent(w);
  }

  lemma StartKeeps(s: System, w: Window, lag: real, a: Attempt, reading: real)
    requires w.Positive() && Invariant(s, w, lag) && Enabled(s, lag, Start(a, reading))
    ensures Invariant(StepOf(s, w, lag, Start(a, reading)), w, lag)
  {
    hide CountIf, CountLog, Matches, KindsApart, WellTimed;
    var r := Record(a, w.BucketOf(reading), reading, s.held.db.now, InFlight, Waiting);
    CountIfSnoc(s.records, r, Ran());
    forall p, o ensures CountIf(s.records + [r], Committed(p, o)) == CountIf(s.records, Committed(p, o)) {
      CountIfSnoc(s.records, r, Committed(p, o));
    }
  }

  lemma LandKeeps(s: System, w: Window, lag: real, k: nat)
    requires w.Positive() && Invariant(s, w, lag) && Enabled(s, lag, Land(k))
    ensures Invariant(StepOf(s, w, lag, Land(k)), w, lag)
  {
    hide Matches, KindsApart, WellTimed, CountLog, CountIf, OfKind, ApplyAll, RecordCommands;
    var r := s.records[k];
    var e := Commit(r.attempt, r.index, r.reading, s.held.db.now);
    NextConsistent(s.held, w, LandingOf(r));
    var t := StepOf(s, w, lag, Land(k));
    assert t.held.log == s.held.log + [e];
    assert t.held.db.now == s.held.db.now by {
      LandKeepsMatch(s.held.db, s.held.log, w, e);
    }
    CountIfUpdate(s.records, k, r.(server := Executed), Ran());
    forall p, o ensures CountLog(t.held.log, p, o) == CountIf(t.records, Committed(p, o)) {
      CountLogSnoc(s.held.log, e, p, o);
      CountIfUpdate(s.records, k, r.(server := Executed), Committed(p, o));
      OfKindIs(r.attempt, p, o);
    }
  }

  lemma OfKindIs(a: Attempt, p: string, o: Outcome)
    ensures OfKind(a, p, o) == if a.provider == p && a.outcome == o then 1 else 0
  {
  }

  /** Steps of a writer, and a transaction that will never run, leave the store and the commits alone. */
  lemma RecordOnlyKeeps(s: System, w: Window, lag: real, step: Step)
    requires w.Positive() && Invariant(s, w, lag) && Enabled(s, lag, step)
    requires step.Vanish? || step.Hear? || step.Report? || step.Cancel?
    ensures Invariant(StepOf(s, w, lag, step), w, lag)
  {
    hide Matches, KindsApart, WellTimed, CountLog, CountIf, OfKind;
    var k := step.k;
    var r' := StepOf(s, w, lag, step).records[k];
    CountIfUpdate(s.records, k, r', Ran());
    forall p, o
      ensures CountIf(StepOf(s, w, lag, step).records, Committed(p, o)) == CountIf(s.records, Committed(p, o))
    {
      CountIfUpdate(s.records, k, r', Committed(p, o));
    }
  }

  lemma ElsewhereKeeps(s: System, w: Window, lag: real, e: Event)
    requires w.Positive() && Invariant(s, w, lag) && Possible(e) && !e.Lands?
    ensures Invariant(s.(held := Next(s.held, w, e)), w, lag)
  {
    NextConsistent(s.held, w, e);
    hide Matches, KindsApart, CountLog, CountIf, WellTimed;
  }

  /** Every enabled step keeps the invariant. */
  lemma StepKeeps(s: System, w: Window, lag: real, step: Step)
    requires w.Positive() && Invariant(s, w, lag) && Enabled(s, lag, step)
    ensures Invariant(StepOf(s, w, lag, step), w, lag)
  {
    match step {
      case Start(a, reading) => StartKeeps(s, w, lag, a, reading);
      case Land(k) => LandKeeps(s, w, lag, k);
      case Vanish(_) => RecordOnlyKeeps(s, w, lag, step);
      case Hear(_) => RecordOnlyKeeps(s, w, lag, step);
      case Report(_) => RecordOnlyKeeps(s, w, lag, step);
      case Cancel(_) => RecordOnlyKeeps(s, w, lag, step);
      case Pass(seconds) => ElsewhereKeeps(s, w, lag, Passes(seconds));
      case Reclaim(key) => ElsewhereKeeps(s, w, lag, Reclaims(key));
    }
    hide Invariant, Next;
  }

  lemma {:induction false} EveryRunKeeps(w: Window, lag: real, steps: seq<Step>)
    requires w.Positive() && After(w, lag, steps).Some?
    ensures Invariant(After(w, lag, steps).value, w, lag)
  {
    if steps == [] {
      InitInvariant(w, lag);
    } else {
      EveryRunKeeps(w, lag, steps[..|steps| - 1]);
      hide Invariant, StepOf, Enabled;
      StepKeeps(After(w, lag, steps[..|steps| - 1]).value, w, lag, steps[|steps| - 1]);
    }
  }

  // ----- what holds at every instant of every run --------------------------------------

  /** The replies of a window read issued while nothing else happens, straight from the keyspace. */
  ghost predicate Answers(replies: seq<map<string, Raw>>, db: Db, p: string, lo: int) {
    forall k :: 0 <= k < |replies| ==> replies[k] == db.HGetAll(BucketKey(p, lo + k))
  }

  function WholeRead(db: Db, p: string, lo: int, n: nat): (replies: seq<map<string, Raw>>)
    ensures |replies| == n && Answers(replies, db, p, lo)
  {
    seq(n, k requires 0 <= k < n => db.HGetAll(BucketKey(p, lo + k)))
  }

  lemma AnswersAreQuiet(replies: seq<map<string, Raw>>, h: Held, w: Window, p: string, lo: int)
    requires w.Positive() && h.Consistent(w) && Answers(replies, h.db, p, lo)
    ensures QuietReplies(replies, h.log, h.db.now, w.Ttl(), p, lo)
  {
    hide Matches, KindsApart, WellTimed, BucketKey, HashOf, Visible, BucketLog;
    forall k | 0 <= k < |replies|
      ensures replies[k] == HashOf(Visible(BucketLog(h.log, p, lo + k), h.db.now, w.Ttl()))
    {
      ReadsVisible(h.db, h.log, w.Ttl(), p, lo + k);
    }
  }

  /** Log refinement. In any interleaving of starts, commits, lost replies, drops, cancellations, late commits,
      clock advances and reclaims, by any number of writers, a reader whose clock is at most one window behind
      the fastest writer's reads the exact histogram of the committed attempts its window covers. */
  lemma LogRefinement(w: Window, lag: real, steps: seq<Step>, p: string, reading: real, o: Outcome)
    requires w.Valid() && After(w, lag, steps).Some?
    requires After(w, lag, steps).value.held.db.now - reading <= lag + w.Span()
    ensures
      var held, lo, n := After(w, lag, steps).value.held, w.Oldest(reading), w.BucketCount();
      Merged(WholeRead(held.db, p, lo, n), o) == CountInRange(held.log, p, lo, n, o)
  {
    var s := After(w, lag, steps).value;
    var lo, n := w.Oldest(reading), w.BucketCount();
    var replies := WholeRead(s.held.db, p, lo, n);
    EveryRunKeeps(w, lag, steps);
    AnswersAreQuiet(replies, s.held, w, p, lo);
    forall i | lo <= i < lo + n ensures Unbroken(BucketLog(s.held.log, p, i), s.held.db.now, w.Ttl()) {
      InRangeNeverExpires(w, s.held.log, s.held.db.now, lag, reading, p, i);
    }
    hide Merged, CountInRange, QuietReplies, Unbroken, BucketLog;
    ReadExactIff(replies, s.held.log, s.held.db.now, w.Ttl(), p, lo);
  }

  lemma {:induction false} InRangeAtMostAll(log: seq<Commit>, p: string, lo: int, n: nat, o: Outcome)
    ensures CountInRange(log, p, lo, n, o) <= CountLog(log, p, o)
  {
    if log != [] {
      InRangeAtMostAll(log[..|log| - 1], p, lo, n, o);
    }
  }

  /** At every instant of every run, for every window whatsoever and with no assumption on clocks, a read
      reports no more attempts of an outcome than were committed with it. */
  lemma NoReadInventsCommits(w: Window, lag: real, steps: seq<Step>, p: string, lo: int,
                             replies: seq<map<string, Raw>>, o: Outcome)
    requires w.Positive() && After(w, lag, steps).Some?
    requires Answers(replies, After(w, lag, steps).value.held.db, p, lo)
    ensures Merged(replies, o) <= CountLog(After(w, lag, steps).value.held.log, p, o)
  {
    var s := After(w, lag, steps).value;
    EveryRunKeeps(w, lag, steps);
    AnswersAreQuiet(replies, s.held, w, p, lo);
    ReadOutcome(replies, s.held.log, s.held.db.now, w.Ttl(), p, lo, o);
    InRangeAtMostAll(s.held.log, p, lo, |replies|, o);
  }

  /** ... and so no more than were ever started with it. */
  lemma NoReadInventsAttempts(w: Window, lag: real, steps: seq<Step>, p: string, lo: int,
                              replies: seq<map<string, Raw>>, o: Outcome)
    requires w.Positive() && After(w, lag, steps).Some?
    requires Answers(replies, After(w, lag, steps).value.held.db, p, lo)
    ensures Merged(replies, o) <= CountIf(After(w, lag, steps).value.records, Started(p, o))
  {
    NoReadInventsCommits(w, lag, steps, p, lo, replies, o);
    EveryRunKeeps(w, lag, steps);
    CountIfBounds(After(w, lag, steps).value.records, Committed(p, o), Started(p, o));
  }

  /** Decision D3 for a read. In any run, for a reader whose clock no writer has run past and which is at most one
      window behind the fastest, each count lies between two exact windows: every commit up to one bucket short
      of the window's age is counted, none of the window's age or older is. */
  lemma ReadSandwich(w: Window, lag: real, steps: seq<Step>, p: string, t: real, o: Outcome)
    requires w.Valid() && After(w, lag, steps).Some?
    requires After(w, lag, steps).value.held.db.now - t <= lag + w.Span()
    requires forall e :: e in After(w, lag, steps).value.held.log ==> e.reading <= t
    ensures
      var held := After(w, lag, steps).value.held;
      CountSince(held.log, p, o, t - (w.Span() - w.Width()), true)
      <= Merged(WholeRead(held.db, p, w.Oldest(t), w.BucketCount()), o)
      <= CountSince(held.log, p, o, t - w.Span(), false)
  {
    var held := After(w, lag, steps).value.held;
    EveryRunKeeps(w, lag, steps);
    LogRefinement(w, lag, steps, p, t, o);
    hide Merged, CountInRange, CountSince, After, WholeRead;
    BucketedCountSandwich(w, held.log, t, p, o);
  }

  /** Records whose writer reported a drop, waits, or was cancelled; and those of them that ran all the same. */
  function Fate(f: Writer): Record -> bool {
    (r: Record) => r.writer == f
  }

  function RanAs(f: Writer): Record -> bool {
    (r: Record) => r.writer == f && r.server == Executed
  }

  lemma {:induction false} WhereTheyAre(records: seq<Record>)
    requires TrueToTheServer(records)
    ensures CountIf(records, Ran()) + CountIf(records, Fate(Reported)) + CountIf(records, Fate(Waiting))
            + CountIf(records, Fate(Cancelled)) ==
            |records| + CountIf(records, RanAs(Reported)) + CountIf(records, RanAs(Waiting))
            + CountIf(records, RanAs(Cancelled))
  {
    if records != [] {
      WhereTheyAre(records[..|records| - 1]);
    }
  }

  /** Commits plus drop callbacks account for every record whose writer is done and was not cancelled, and exceed
      them exactly by the records that ran without their success being heard: reported dropped before or after,
      cancelled before or after, or still waiting. */
  lemma CommitsPlusDrops(w: Window, lag: real, steps: seq<Step>)
    requires w.Positive() && After(w, lag, steps).Some?
    ensures
      var s := After(w, lag, steps).value;
      var drops, waiting := CountIf(s.records, Fate(Reported)), CountIf(s.records, Fate(Waiting));
      var cancelled, late := CountIf(s.records, Fate(Cancelled)), CountIf(s.records, RanAs(Reported));
      var done := |s.records| - waiting - cancelled;
      && |s.held.log| + drops ==
         done + late + CountIf(s.records, RanAs(Waiting)) + CountIf(s.records, RanAs(Cancelled))
      && |s.held.log| + drops >= done
      && (waiting == 0 && cancelled == 0 ==> (|s.held.log| + drops == |s.records| <==> late == 0))
  {
    var s := After(w, lag, steps).value;
    EveryRunKeeps(w, lag, steps);
    WhereTheyAre(s.records);
    CountIfBounds(s.records, RanAs(Waiting), Fate(Waiting));
    CountIfBounds(s.records, RanAs(Cancelled), Fate(Cancelled));
  }
}
