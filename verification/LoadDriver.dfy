/** The load driver: an absolute firing schedule, requests gathered in any order, and a percentile. */
module LoadDriver {
  import opened Common
  import opened Percentiles

  /** What came back for one request: a transport failure by name, or a status and a round-trip time. */
  datatype Answer = Broke(failure: string) | Responded(status: string, seconds: real)

  type Delay = x: real | x >= 0.0 witness 0.0

  /** How the scheduler behaves at step `i`: `work(i)` passes between the previous spawn (or the start)
      and the clock reading, and a sleep ends `over(i)` later than asked. */
  datatype Delays = Delays(work: nat -> Delay, over: nat -> Delay)

  // ----- the schedule -----------------------------------------------------------

  function Interval(rps: real): real
    requires rps > 0.0
  {
    1.0 / rps
  }

  /** How many requests a run fires. */
  function Quota(rps: real, duration: real): int {
    Ceil(duration * rps)
  }

  function Target(begin: real, interval: real, i: nat): real {
    begin + i as real * interval
  }

  function SpawnedAt(begin: real, interval: real, delays: Delays, i: nat): real {
    var now := (if i == 0 then begin else SpawnedAt(begin, interval, delays, i - 1)) + delays.work(i);
    if Target(begin, interval, i) > now then Target(begin, interval, i) + delays.over(i) else now
  }

  function Late(begin: real, interval: real, delays: Delays, i: nat): real {
    SpawnedAt(begin, interval, delays, i) - Target(begin, interval, i)
  }

  lemma NeverEarly(begin: real, interval: real, delays: Delays, i: nat)
    ensures Late(begin, interval, delays, i) >= 0.0
  {
  }

  lemma OneMore(n: int, x: real)
    ensures (n + 1) as real * x == n as real * x + x
  {
  }

  /** A step either sleeps, and is late by its own overshoot alone, or passes on what it inherits. */
  lemma LateStep(begin: real, interval: real, delays: Delays, i: nat)
    requires i > 0
    ensures
      var inherited := Late(begin, interval, delays, i - 1) + delays.work(i) - interval;
      Late(begin, interval, delays, i) == if inherited < 0.0 then delays.over(i) else inherited
  {
    OneMore(i - 1, interval);
  }

  /** One slow step is worked off, not passed on: from any request `k`, lateness falls by the slack
      between the interval and the work of a step, until only one sleep's overshoot is left. */
  lemma {:induction false} SlowSpawnIsAbsorbed(begin: real, interval: real, delays: Delays,
                                               w: real, overshoot: real, k: nat, i: nat)
    requires k <= i && w <= interval && overshoot >= 0.0
    requires forall j: nat :: k < j <= i ==> delays.work(j) <= w && delays.over(j) <= overshoot
    ensures
      var left := Late(begin, interval, delays, k) - (i - k) as real * (interval - w);
      Late(begin, interval, delays, i) <= if left > overshoot then left else overshoot
  {
    hide Late;
    if k < i {
      SlowSpawnIsAbsorbed(begin, interval, delays, w, overshoot, k, i - 1);
      OneMore(i - 1 - k, interval - w);
      LateStep(begin, interval, delays, i);
      assert delays.work(i) <= w && delays.over(i) <= overshoot;
    }
  }

  /** Nothing accumulates: while no step's work outlasts the interval, then however long the run and however
      far sleeps overshoot, no request is later than the first one or than the worst single overshoot. */
  lemma NoDrift(begin: real, interval: real, delays: Delays, overshoot: real, i: nat)
    requires overshoot >= 0.0
    requires forall j: nat :: 0 < j <= i ==> delays.work(j) <= interval && delays.over(j) <= overshoot
    ensures 0.0 <= Late(begin, interval, delays, i)
            <= if delays.work(0) > overshoot then delays.work(0) else overshoot
  {
    NeverEarly(begin, interval, delays, i);
    FirstIsLateByItsWork(begin, interval, delays);
    hide Late;
    SlowSpawnIsAbsorbed(begin, interval, delays, interval, overshoot, 0, i);
    assert i as real * (interval - interval) == 0.0;
  }

  lemma FirstIsLateByItsWork(begin: real, interval: real, delays: Delays)
    ensures Late(begin, interval, delays, 0) == delays.work(0)
  {
    StartsAtOnce(begin, interval);
  }

  lemma StartsAtOnce(begin: real, interval: real)
    ensures Target(begin, interval, 0) == begin
  {
    assert 0 as real * interval == 0.0;
  }

  /** The deadline test admits exactly the requests numbered below duration * rps. */
  lemma DueIff(begin: real, rps: real, duration: real, i: nat)
    requires rps > 0.0
    ensures Target(begin, Interval(rps), i) < begin + duration <==> i < Quota(rps, duration)
  {
    var interval := Interval(rps);
    assert interval * rps == 1.0;
    var gap := duration - i as real * interval;
    assert gap * rps == duration * rps - i as real by {
      assert i as real * interval * rps == i as real;
    }
    assert gap > 0.0 <==> gap * rps > 0.0 by {
      PositiveScale(gap, rps);
    }
    BelowCeil(i, duration * rps);
  }

  /** The schedule in plain terms: request `i` is due `i / rps` seconds into the run, and as many are due as fit before
      its end. */
  lemma ScheduleIs(begin: real, rps: real, duration: real, i: nat)
    requires rps > 0.0
    ensures Target(begin, Interval(rps), i) == begin + i as real / rps
    ensures (Quota(rps, duration) - 1) as real < duration * rps <= Quota(rps, duration) as real
  {
    BelowCeil(Quota(rps, duration) - 1, duration * rps);
    BelowCeil(Quota(rps, duration), duration * rps);
  }

  lemma PositiveScale(x: real, scale: real)
    requires scale > 0.0
    ensures x > 0.0 <==> x * scale > 0.0
  {
  }

  lemma BelowCeil(i: int, x: real)
    ensures i < Ceil(x) <==> i as real < x
  {
    assert (-i) as real == -(i as real);
  }

  // ----- what a run records -----------------------------------------------------

  function StatusOf(answer: Answer): string {
    if answer.Broke? then answer.failure else answer.status
  }

  /** The statuses and the round trips of the requests `done`, in the order they finished. */
  function Told(answers: nat -> Answer, done: seq<nat>): (r: multiset<string>)
    ensures |r| == |done|
  {
    if done == [] then multiset{}
    else Told(answers, done[..|done| - 1]) + multiset{StatusOf(answers(done[|done| - 1]))}
  }

  function Timed(answers: nat -> Answer, done: seq<nat>): (r: seq<real>)
    ensures |r| <= |done|
  {
    if done == [] then []
    else
      var last := answers(done[|done| - 1]);
      Timed(answers, done[..|done| - 1]) + if last.Broke? then [] else [last.seconds * 1000.0]
  }

  function UpTo(n: nat): (r: seq<nat>)
    ensures |r| == n && forall i :: 0 <= i < n ==> r[i] == i
  {
    seq(n, i requires 0 <= i => i)
  }

  lemma Recorded(answers: nat -> Answer, done: seq<nat>, i: nat)
    ensures Told(answers, done + [i]) == Told(answers, done) + multiset{StatusOf(answers(i))}
    ensures Timed(answers, done + [i]) ==
            Timed(answers, done) + if answers(i).Broke? then [] else [answers(i).seconds * 1000.0]
  {
    assert (done + [i])[..|done + [i]| - 1] == done;
  }

  lemma {:induction false} TimedConcat(answers: nat -> Answer, a: seq<nat>, b: seq<nat>)
    ensures Timed(answers, a + b) == Timed(answers, a) + Timed(answers, b)
  {
    if b == [] {
      assert a + b == a;
    } else {
      assert (a + b)[..|a + b| - 1] == a + b[..|b| - 1];
      TimedConcat(answers, a, b[..|b| - 1]);
    }
  }

  lemma {:induction false} ToldConcat(answers: nat -> Answer, a: seq<nat>, b: seq<nat>)
    ensures Told(answers, a + b) == Told(answers, a) + Told(answers, b)
  {
    if b == [] {
      assert a + b == a;
    } else {
      assert (a + b)[..|a + b| - 1] == a + b[..|b| - 1];
      ToldConcat(answers, a, b[..|b| - 1]);
    }
  }

  /** A status is told as often as a request came back with it or failed under that name. */
  lemma {:induction false} StatusesAre(answers: nat -> Answer, done: seq<nat>, s: string)
    ensures Told(answers, done)[s] ==
            CountIf(done, (i: nat) => if answers(i).Broke? then answers(i).failure == s else answers(i).status == s)
  {
    if done != [] {
      StatusesAre(answers, done[..|done| - 1], s);
    }
  }

  /** A latency, in milliseconds, is there for every response and for no failure. */
  lemma {:induction false} LatenciesAre(answers: nat -> Answer, done: seq<nat>, ms: real)
    ensures |Timed(answers, done)| == CountIf(done, (i: nat) => answers(i).Responded?)
    ensures multiset(Timed(answers, done))[ms] == CountIf(done, (i: nat) => TookExactly(answers(i), ms))
  {
    if done != [] {
      var init, last := done[..|done| - 1], answers(done[|done| - 1]);
      LatenciesAre(answers, init, ms);
      if last.Responded? {
        OneLonger(Timed(answers, init), last.seconds * 1000.0, ms);
      }
    }
  }

  predicate TookExactly(answer: Answer, ms: real) {
    answer.Responded? && answer.seconds * 1000.0 == ms
  }

  lemma OneLonger(xs: seq<real>, x: real, y: real)
    ensures multiset(xs + [x])[y] == multiset(xs)[y] + if x == y then 1 else 0
  {
    assert multiset(xs + [x]) == multiset(xs) + multiset{x};
  }

  lemma TakenOut(answers: nat -> Answer, b: seq<nat>, k: nat)
    requires k < |b|
    ensures multiset(Timed(answers, b)) ==
            multiset(Timed(answers, [b[k]])) + multiset(Timed(answers, Without(b, k)))
    ensures Told(answers, b) == Told(answers, [b[k]]) + Told(answers, Without(b, k))
  {
    hide Timed, Told;
    SplitAt(b, k);
    MiddleFirst(answers, b[..k], [b[k]], b[k + 1..]);
  }

  lemma MiddleFirst(answers: nat -> Answer, a: seq<nat>, b: seq<nat>, c: seq<nat>)
    ensures multiset(Timed(answers, a + (b + c))) ==
            multiset(Timed(answers, b)) + multiset(Timed(answers, a + c))
    ensures Told(answers, a + (b + c)) == Told(answers, b) + Told(answers, a + c)
  {
    hide Timed, Told;
    TimedConcat(answers, a, b + c);
    TimedConcat(answers, b, c);
    TimedConcat(answers, a, c);
    ToldConcat(answers, a, b + c);
    ToldConcat(answers, b, c);
    ToldConcat(answers, a, c);
  }

  /** The summary does not depend on the order in which the requests finished. */
  lemma {:induction false} FinishOrderIsIrrelevant(answers: nat -> Answer, a: seq<nat>, b: seq<nat>)
    requires multiset(a) == multiset(b)
    ensures Told(answers, a) == Told(answers, b)
    ensures multiset(Timed(answers, a)) == multiset(Timed(answers, b))
  {
    SameLength(a, b);
    if a != [] {
      var k := SameElements(a, b);
      TakenOut(answers, a, 0);
      TakenOut(answers, b, k);
      FinishOrderIsIrrelevant(answers, Without(a, 0), Without(b, k));
    }
  }

  class Outcome {
    var statuses: multiset<string>
    var latenciesMs: seq<real>
    var started: real
    var finished: real

    constructor (begin: real)
      ensures statuses == multiset{} && latenciesMs == [] && started == begin == finished
    {
      statuses, latenciesMs, started, finished := multiset{}, [], begin, begin;
    }

    function Sent(): nat
      reads this
    {
      |statuses|
    }

    /** Exactly one status a request, and a latency only when a response came back. */
    method OneRequest(answer: Answer)
      modifies `statuses, `latenciesMs
      ensures statuses == old(statuses) + multiset{StatusOf(answer)}
      ensures latenciesMs == old(latenciesMs) + if answer.Broke? then [] else [answer.seconds * 1000.0]
    {
      match answer
      case Broke(failure) =>
        statuses := statuses + multiset{failure};
      case Responded(status, seconds) =>
        latenciesMs := latenciesMs + [seconds * 1000.0];
        statuses := statuses + multiset{status};
    }

    /** A latency some request saw; the gateway's percentile of the same latencies except when
        fraction * n is an odd integer short of n, where it is the next sample up. */
    method PercentileOf(fraction: real) returns (r: Option<real>)
      ensures r == None <==> latenciesMs == []
      ensures r.Some? ==> r.value in multiset(latenciesMs)
      ensures r.Some? && fraction <= 0.0 ==> forall x :: x in latenciesMs ==> r.value <= x
      ensures r.Some? && 0.0 < fraction <= 1.0 ==>
        var ordered := Ascending(latenciesMs);
        var rank := Rank(100.0 * fraction, |ordered|);
        && 1 <= rank <= |ordered| == |latenciesMs|
        && Percentile(ordered, 100.0 * fraction) == Some(ordered[rank - 1])
        && if Disputed(fraction, |ordered|) then rank < |ordered| && r == Some(ordered[rank])
           else r == Some(ordered[rank - 1])
    {
      if latenciesMs == [] {
        return None;
      }
      hide Ascending, Rank, Disputed, DriverIndex, Percentile;
      var ordered := Ascending(latenciesMs);
      LowestAtOrBelowZero(fraction, |ordered|);
      r := Some(ordered[DriverIndex(fraction, |ordered|)]);
      if fraction <= 0.0 {
        FirstIsLeast(ordered, latenciesMs);
      }
      if 0.0 < fraction <= 1.0 {
        DriverReads(ordered, fraction);
      }
    }
  }

  lemma FirstIsLeast(ordered: seq<real>, samples: seq<real>)
    requires ordered != [] && Sorted(ordered) && multiset(ordered) == multiset(samples)
    ensures forall x :: x in samples ==> ordered[0] <= x
  {
    forall x | x in samples
      ensures ordered[0] <= x
    {
      assert x in multiset(ordered);
    }
  }

  lemma DriverReads(ordered: seq<real>, fraction: real)
    requires ordered != [] && 0.0 < fraction <= 1.0
    ensures
      var rank, i := Rank(100.0 * fraction, |ordered|), DriverIndex(fraction, |ordered|);
      && 1 <= rank <= |ordered| && 0 <= i < |ordered|
      && Percentile(ordered, 100.0 * fraction) == Some(ordered[rank - 1])
      && i == if Disputed(fraction, |ordered|) then rank else rank - 1
  {
    hide Rank, Disputed, DriverIndex, Percentile, GatewayIndex;
    DriverMatchesGatewayIff(fraction, |ordered|);
    GatewayReads(ordered, 100.0 * fraction);
    LowestAtOrBelowZero(fraction, |ordered|);
  }

  lemma LowestAtOrBelowZero(fraction: real, n: nat)
    requires n > 0
    ensures 0 <= DriverIndex(fraction, n) < n
    ensures fraction <= 0.0 ==> DriverIndex(fraction, n) == 0
  {
    if fraction <= 0.0 {
      assert fraction * n as real <= 0.0;
    }
  }

  lemma GatewayReads(ordered: seq<real>, p: real)
    requires 0.0 < p <= 100.0 && ordered != []
    ensures 1 <= Rank(p, |ordered|) <= |ordered|
    ensures GatewayIndex(p, |ordered|) == Rank(p, |ordered|) - 1
    ensures Percentile(ordered, p) == Some(ordered[Rank(p, |ordered|) - 1])
  {
    RankInRange(p, |ordered|);
  }

  // ----- the pacing loop ---------------------------------------------------------

  /** Of the first `n` requests, each either has finished or is pending, once. */
  predicate Accounted(done: seq<nat>, pending: seq<nat>, n: nat) {
    multiset(done + pending) == multiset(UpTo(n))
  }

  ghost predicate Records(outcome: Outcome, answers: nat -> Answer, done: seq<nat>)
    reads outcome`statuses, outcome`latenciesMs
  {
    outcome.statuses == Told(answers, done) && outcome.latenciesMs == Timed(answers, done)
  }

  /** Control is given up to the event loop: some of the pending requests finish, in any order. */
  method LetRun(outcome: Outcome, answers: nat -> Answer, pending: seq<nat>, ghost done: seq<nat>,
                howMany: nat, ghost n: nat)
    returns (left: seq<nat>, ghost finished: seq<nat>)
    requires howMany <= |pending| && Accounted(done, pending, n) && Records(outcome, answers, done)
    modifies outcome`statuses, outcome`latenciesMs
    ensures |left| == |pending| - howMany && Accounted(finished, left, n) && Records(outcome, answers, finished)
  {
    hide Accounted, Told, Timed, StatusOf;
    left, finished := pending, done;
    for ran := 0 to howMany
      invariant |left| == |pending| - ran
      invariant Accounted(finished, left, n) && Records(outcome, answers, finished)
    {
      var k: nat :| k < |left|;
      outcome.OneRequest(answers(left[k]));
      Recorded(answers, finished, left[k]);
      MoveOver(finished, left, k, n);
      finished := finished + [left[k]];
      left := Without(left, k);
    }
  }

  /** Fires ceil(duration * rps) requests, each at its place in the absolute schedule, and returns when
      every one of them has been recorded once; `done` is the order in which they finished. */
  method Drive(rps: real, duration: real, begin: real, delays: Delays, answers: nat -> Answer,
               meanwhile: nat -> nat, gathering: Delay)
    returns (outcome: Outcome, spawned: seq<real>, ghost done: seq<nat>)
    requires rps > 0.0 && duration > 0.0
    ensures fresh(outcome)
    ensures |spawned| == Quota(rps, duration) >= 1
    ensures forall i :: 0 <= i < |spawned| ==>
              spawned[i] == SpawnedAt(begin, Interval(rps), delays, i) >= Target(begin, Interval(rps), i)
    ensures multiset(done) == multiset(UpTo(Quota(rps, duration))) && Records(outcome, answers, done)
    ensures outcome.Sent() == Quota(rps, duration) && |outcome.latenciesMs| <= outcome.Sent()
    ensures outcome.started == begin && outcome.finished == spawned[|spawned| - 1] + gathering
  {
    hide Quota, Interval, Target, SpawnedAt, Late, Told, Timed, UpTo, Accounted, Records;
    outcome := new Outcome(begin);
    var tasks: seq<nat> := [];
    spawned, done := [], [];
    var interval := Interval(rps);
    var deadline := outcome.started + duration;
    var index, clock := 0, begin;
    ghost var n := Quota(rps, duration);
    AtLeastOne(rps, duration);
    NothingYet(outcome, answers);

    while true
      invariant outcome.started == begin
      invariant 0 <= index <= n && n >= 1 && |spawned| == index
      invariant clock == if index == 0 then begin else spawned[index - 1]
      invariant forall i :: 0 <= i < index ==>
                  spawned[i] == SpawnedAt(begin, interval, delays, i) >= Target(begin, interval, i)
      invariant Accounted(done, tasks, index) && Records(outcome, answers, done)
      decreases n - index
    {
      var target := Target(outcome.started, interval, index);
      Schedule(begin, interval, delays, index);
      DueIff(begin, rps, duration, index);
      if target >= deadline {
        break;
      }
      clock := clock + delays.work(index);
      if target > clock {
        tasks, done := LetRun(outcome, answers, tasks, done, Min(meanwhile(index), |tasks|), index);
        clock := target + delays.over(index);
      }
      Extended(done, tasks, index);
      tasks := tasks + [index];
      spawned := spawned + [clock];
      index := index + 1;
    }

    tasks, done := LetRun(outcome, answers, tasks, done, |tasks|, n);
    outcome.finished := clock + gathering;
    Finished(outcome, answers, done, tasks, n);
  }

  lemma MoveOver(done: seq<nat>, pending: seq<nat>, k: nat, n: nat)
    requires k < |pending| && Accounted(done, pending, n)
    ensures Accounted(done + [pending[k]], Without(pending, k), n)
  {
    hide UpTo;
    WithoutOne(pending, k);
  }

  lemma NothingYet(outcome: Outcome, answers: nat -> Answer)
    requires outcome.statuses == multiset{} && outcome.latenciesMs == []
    ensures Records(outcome, answers, []) && Accounted([], [], 0)
  {
  }

  lemma Finished(outcome: Outcome, answers: nat -> Answer, done: seq<nat>, tasks: seq<nat>, n: nat)
    requires tasks == [] && Accounted(done, tasks, n) && Records(outcome, answers, done)
    ensures multiset(done) == multiset(UpTo(n))
    ensures outcome.Sent() == n && |outcome.latenciesMs| <= n
  {
    assert done + tasks == done;
    SameLength(done, UpTo(n));
  }

  lemma AtLeastOne(rps: real, duration: real)
    requires rps > 0.0 && duration > 0.0
    ensures Quota(rps, duration) >= 1
  {
    BelowCeil(0, duration * rps);
    PositiveScale(duration, rps);
  }

  lemma Schedule(begin: real, interval: real, delays: Delays, i: nat)
    ensures
      var target := Target(begin, interval, i);
      var now := (if i == 0 then begin else SpawnedAt(begin, interval, delays, i - 1)) + delays.work(i);
      && SpawnedAt(begin, interval, delays, i) >= target
      && SpawnedAt(begin, interval, delays, i) == if target > now then target + delays.over(i) else now
  {
  }

  lemma Extended(done: seq<nat>, tasks: seq<nat>, index: nat)
    requires Accounted(done, tasks, index)
    ensures Accounted(done, tasks + [index], index + 1)
  {
    assert UpTo(index + 1) == UpTo(index) + [index];
    assert done + (tasks + [index]) == (done + tasks) + [index];
  }

  /** What the run reports is fixed by the answers alone: the latencies are, as a multiset, those of
      requests 0 .. n-1, so any two runs of the same length report the same percentiles. */
  lemma ReportIgnoresScheduling(answers: nat -> Answer, done: seq<nat>, again: seq<nat>, n: nat,
                                p: real)
    requires multiset(done) == multiset(UpTo(n)) && multiset(again) == multiset(UpTo(n))
    requires 0.0 < p <= 100.0
    ensures Told(answers, done) == Told(answers, again)
    ensures Ascending(Timed(answers, done)) == Ascending(Timed(answers, again))
    ensures Percentile(Ascending(Timed(answers, done)), p) == Percentile(Ascending(Timed(answers, again)), p)
  {
    FinishOrderIsIrrelevant(answers, done, again);
    SortedUnique(Ascending(Timed(answers, done)), Ascending(Timed(answers, again)));
  }

  /** There is only one ascending arrangement. */
  lemma {:induction false} SortedUnique(a: seq<real>, b: seq<real>)
    requires Sorted(a) && Sorted(b) && multiset(a) == multiset(b)
    ensures a == b
  {
    SameLength(a, b);
    if a != [] {
      var k := SameElements(a, b);
      assert b[0] in multiset(a);
      assert a[0] == b[0];
      HeadAndTail(a);
      HeadAndTail(b);
      CancelOne(multiset(a[1..]), multiset(b[1..]), a[0]);
      SortedUnique(a[1..], b[1..]);
    }
  }
}
