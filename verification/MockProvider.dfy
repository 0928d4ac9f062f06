/** The in-process mock provider: three random streams, live retuning, and what decides a failure. */
module MockProvider {
  import opened Common
  import opened Taxonomy

  type Unit = x: real | 0.0 <= x < 1.0
  type NonNegative = x: real | x >= 0.0

  /** The error-class mix, in insertion order. */
  type Mix = seq<(ErrorClass, real)>

  /**
    The library's generators. `uniform(s, k)` is the k-th draw of a generator seeded with `s`;
    `lognormal(s, k, median, sigma)` the k-th lognormal draw; `choose` a weighted pick from one draw.
   */
  datatype Randomness = Randomness(
    uniform: (int, nat) -> Unit,
    lognormal: (int, nat, real, real) -> NonNegative,
    choose: (Mix, Unit) -> ErrorClass)

  function Weight(mix: Mix): real {
    if mix == [] then 0.0 else Weight(mix[..|mix| - 1]) + mix[|mix| - 1].1
  }

  datatype ChaosState = ChaosState(errorRate: real, latencyMs: real, latencySigma: real, errorClasses: Mix, seed: int) {
    predicate Valid() {
      && 0.0 <= errorRate <= 1.0 && latencyMs >= 0.0 && latencySigma >= 0.0
      && errorClasses != [] && Weight(errorClasses) > 0.0
    }
  }

  /** A generator: its seed and how many draws it has given. */
  datatype Stream = Stream(seed: int, drawn: nat) {
    function Advanced(): Stream {
      Stream(seed, drawn + 1)
    }
  }

  /** Everything the adapter's future depends on. */
  datatype Mock = Mock(state: ChaosState, failure: Stream, classes: Stream, latency: Stream, seededFrom: int)

  function Fresh(state: ChaosState): Mock {
    Mock(state, Stream(state.seed, 0), Stream(state.seed + 1, 0), Stream(state.seed + 2, 0), state.seed)
  }

  function Resynced(m: Mock): Mock {
    if m.state.seed != m.seededFrom then Fresh(m.state) else m
  }

  datatype Drawn<T> = Drawn(mock: Mock, value: T)

  function DrawLatency(r: Randomness, m: Mock): Drawn<real> {
    if m.state.latencySigma == 0.0 || m.state.latencyMs == 0.0 then
      Drawn(m, m.state.latencyMs)
    else
      Drawn(m.(latency := m.latency.Advanced()),
            r.lognormal(m.latency.seed, m.latency.drawn, m.state.latencyMs, m.state.latencySigma))
  }

  function DrawErrorClass(r: Randomness, m: Mock): Drawn<ErrorClass> {
    Drawn(m.(classes := m.classes.Advanced()),
          r.choose(m.state.errorClasses, r.uniform(m.classes.seed, m.classes.drawn)))
  }

  /** A call up to its sleep: resynchronize, draw the latency. */
  function Begin(r: Randomness, m: Mock): Drawn<real> {
    DrawLatency(r, Resynced(m))
  }

  /** A call after its sleep: one failure draw, and a class draw only on failure. */
  function Finish(r: Randomness, m: Mock): Drawn<Outcome> {
    var awake := m.(failure := m.failure.Advanced());
    if r.uniform(m.failure.seed, m.failure.drawn) < m.state.errorRate then
      var c := DrawErrorClass(r, awake);
      Drawn(c.mock, Failed(c.value))
    else
      Drawn(awake, Ok)
  }

  /** What the chaos endpoint may set; absent fields stay as they are. */
  datatype ChaosRequest = ChaosRequest(
    errorRate: Option<real>, latencyMs: Option<real>, latencySigma: Option<real>, seed: Option<int>)

  class ManualClock {
    var now: real

    constructor (start: real)
      ensures now == start
    {
      now := start;
    }

    /** Moves time by exactly the duration; a negative one is refused and moves nothing. */
    method Sleep(seconds: real) returns (accepted: bool)
      modifies this
      ensures accepted <==> seconds >= 0.0
      ensures now == old(now) + if accepted then seconds else 0.0
    {
      if seconds < 0.0 {
        return false;
      }
      now := now + seconds;
      return true;
    }
  }

  class MockAdapter {
    const random: Randomness
    var state: ChaosState
    var failure: Stream
    var classes: Stream
    var latency: Stream
    var seededFrom: int

    function Value(): Mock
      reads this
    {
      Mock(state, failure, classes, latency, seededFrom)
    }

    constructor (random: Randomness, state: ChaosState)
      ensures this.random == random && Value() == Fresh(state)
    {
      this.random := random;
      this.state := state;
      failure, classes, latency := Stream(state.seed, 0), Stream(state.seed + 1, 0), Stream(state.seed + 2, 0);
      seededFrom := state.seed;
    }

    method SeedStreams(seed: int)
      modifies this
      ensures Value() == Mock(old(state), Stream(seed, 0), Stream(seed + 1, 0), Stream(seed + 2, 0), seed)
    {
      failure, classes, latency := Stream(seed, 0), Stream(seed + 1, 0), Stream(seed + 2, 0);
      seededFrom := seed;
    }

    method ResyncStreams()
      modifies this
      ensures Value() == Resynced(old(Value()))
    {
      if state.seed != seededFrom {
        SeedStreams(state.seed);
      }
    }

    method Reseed()
      modifies this
      ensures Value() == Fresh(old(state))
    {
      SeedStreams(state.seed);
    }

    method BeginInvoke() returns (latencyMs: real)
      modifies this
      ensures Drawn(Value(), latencyMs) == Begin(random, old(Value()))
    {
      ResyncStreams();
      if state.latencySigma == 0.0 || state.latencyMs == 0.0 {
        return state.latencyMs;
      }
      latencyMs := random.lognormal(latency.seed, latency.drawn, state.latencyMs, state.latencySigma);
      latency := latency.Advanced();
    }

    method FinishInvoke() returns (outcome: Outcome)
      modifies this
      ensures Drawn(Value(), outcome) == Finish(random, old(Value()))
    {
      var u := random.uniform(failure.seed, failure.drawn);
      failure := failure.Advanced();
      if u < state.errorRate {
        var v := random.uniform(classes.seed, classes.drawn);
        classes := classes.Advanced();
        return Failed(random.choose(state.errorClasses, v));
      }
      return Ok;
    }

    /** One call with nothing else running: the clock moves by the drawn latency and no sleep is refused. */
    method Invoke(clock: ManualClock) returns (outcome: Outcome, latencyMs: real)
      requires state.Valid()
      modifies this, clock
      ensures
        var slept := Begin(random, old(Value()));
        && latencyMs == slept.value >= 0.0
        && clock.now == old(clock.now) + slept.value / 1000.0
        && Drawn(Value(), outcome) == Finish(random, slept.mock)
    {
      var drawn := BeginInvoke();
      var started := clock.now;
      var accepted := clock.Sleep(drawn / 1000.0);
      assert accepted;
      latencyMs := (clock.now - started) * 1000.0;
      outcome := FinishInvoke();
    }

    /** The chaos endpoint: assign the named fields one by one, stopping at the first value out of range;
        reseed only when every assignment held and a seed was named. */
    method Retune(request: ChaosRequest) returns (accepted: bool)
      modifies this
      ensures (accepted, Value()) == Chaos(old(Value()), request)
    {
      if request.errorRate.Some? {
        if !(0.0 <= request.errorRate.value <= 1.0) {
          return false;
        }
        state := state.(errorRate := request.errorRate.value);
      }
      if request.latencyMs.Some? {
        if request.latencyMs.value < 0.0 {
          return false;
        }
        state := state.(latencyMs := request.latencyMs.value);
      }
      if request.latencySigma.Some? {
        if request.latencySigma.value < 0.0 {
          return false;
        }
        state := state.(latencySigma := request.latencySigma.value);
      }
      if request.seed.Some? {
        state := state.(seed := request.seed.value);
        Reseed();
      }
      return true;
    }
  }

  // ----- retuning ------------------------------------------------------------------

  function OrElse<T>(o: Option<T>, current: T): T {
    match o
    case None => current
    case Some(v) => v
  }

  predicate RateRejected(q: ChaosRequest) {
    q.errorRate.Some? && !(0.0 <= q.errorRate.value <= 1.0)
  }

  predicate LatencyRejected(q: ChaosRequest) {
    q.latencyMs.Some? && q.latencyMs.value < 0.0
  }

  predicate SigmaRejected(q: ChaosRequest) {
    q.latencySigma.Some? && q.latencySigma.value < 0.0
  }

  /** The fields assigned before the first rejected one, if any. */
  function Assigned(s: ChaosState, q: ChaosRequest): ChaosState {
    if RateRejected(q) then s
    else
      var s1 := s.(errorRate := OrElse(q.errorRate, s.errorRate));
      if LatencyRejected(q) then s1
      else
        var s2 := s1.(latencyMs := OrElse(q.latencyMs, s.latencyMs));
        if SigmaRejected(q) then s2
        else s2.(latencySigma := OrElse(q.latencySigma, s.latencySigma), seed := OrElse(q.seed, s.seed))
  }

  function Chaos(m: Mock, q: ChaosRequest): (bool, Mock) {
    var accepted := !RateRejected(q) && !LatencyRejected(q) && !SigmaRejected(q);
    var retuned := m.(state := Assigned(m.state, q));
    (accepted, if accepted && q.seed.Some? then Fresh(retuned.state) else retuned)
  }

  /** A request is accepted exactly if every value it names is in range. Retuning keeps the state valid whether or
      not it is; an accepted request sets every named field and no other, and restarts the three streams, each at
      its first draw, exactly when it names a seed, even the seed already in force; a refused one never touches
      the seed or the streams, but it is undone in full only if the fields before the rejected one carried their
      current values. */
  lemma ChaosOutcome(m: Mock, q: ChaosRequest)
    requires m.state.Valid()
    ensures
      var (accepted, after) := Chaos(m, q);
      && (accepted <==> && (q.errorRate.Some? ==> 0.0 <= q.errorRate.value <= 1.0)
                        && (q.latencyMs.Some? ==> q.latencyMs.value >= 0.0)
                        && (q.latencySigma.Some? ==> q.latencySigma.value >= 0.0))
      && after.state.Valid()
      && (accepted ==>
            after.state == m.state.(
              errorRate := if q.errorRate.Some? then q.errorRate.value else m.state.errorRate,
              latencyMs := if q.latencyMs.Some? then q.latencyMs.value else m.state.latencyMs,
              latencySigma := if q.latencySigma.Some? then q.latencySigma.value else m.state.latencySigma,
              seed := if q.seed.Some? then q.seed.value else m.state.seed))
      && (accepted && q.seed.Some? ==>
            && after.seededFrom == q.seed.value && after.failure == Stream(q.seed.value, 0)
            && after.classes == Stream(q.seed.value + 1, 0) && after.latency == Stream(q.seed.value + 2, 0))
      && (q.seed == None || !accepted ==> after == m.(state := after.state) && after.state.seed == m.state.seed)
      && (!accepted ==>
            (after == m <==>
              || (q.errorRate.Some? && !(0.0 <= q.errorRate.value <= 1.0))
              || ((q.errorRate.Some? ==> q.errorRate.value == m.state.errorRate) &&
                  (q.latencyMs.Some? ==> q.latencyMs.value < 0.0 || q.latencyMs.value == m.state.latencyMs))))
  {
  }

  /** The smallest partial refusal: a valid error rate ahead of a negative latency is refused and stays set. */
  lemma RefusalKeepsTheRate(m: Mock)
    requires m.state.errorRate != 0.4
    ensures
      var q := ChaosRequest(Some(0.4), Some(-1.0), None, Some(7));
      var (accepted, after) := Chaos(m, q);
      !accepted && after != m && after == m.(state := m.state.(errorRate := 0.4))
  {
    var q := ChaosRequest(Some(0.4), Some(-1.0), None, Some(7));
    assert !RateRejected(q) && LatencyRejected(q);
    assert Chaos(m, q).1.state.errorRate == 0.4;
  }

  // ----- whole runs -------------------------------------------------------------------

  datatype Knob = Rate(rate: real) | Latency(ms: real) | Sigma(sigma: real) | ClassMix(mix: Mix) | Seed(seed: int)

  /** What can happen to the adapter. Calls overlap: `Sleeps(c)` takes call `c` up to its sleep, `Wakes(c)`
      finishes it, in any order. */
  datatype Event = Sleeps(call: nat) | Wakes(call: nat) | Sets(knob: Knob) | Reseeds

  function Set(s: ChaosState, k: Knob): ChaosState {
    match k
    case Rate(x) => s.(errorRate := x)
    case Latency(x) => s.(latencyMs := x)
    case Sigma(x) => s.(latencySigma := x)
    case ClassMix(x) => s.(errorClasses := x)
    case Seed(n) => s.(seed := n)
  }

  function After(r: Randomness, m: Mock, e: Event): Mock {
    match e
    case Sleeps(_) => Begin(r, m).mock
    case Wakes(_) => Finish(r, m).mock
    case Sets(k) => m.(state := Set(m.state, k))
    case Reseeds => Fresh(m.state)
  }

  function RunOf(r: Randomness, m: Mock, es: seq<Event>): Mock {
    if es == [] then m else After(r, RunOf(r, m, es[..|es| - 1]), es[|es| - 1])
  }

  /** Which calls finished, in waking order, and whether each failed. */
  function Verdicts(r: Randomness, m: Mock, es: seq<Event>): seq<(nat, bool)> {
    if es == [] then []
    else
      var init := es[..|es| - 1];
      var before := RunOf(r, m, init);
      match es[|es| - 1]
      case Wakes(c) => Verdicts(r, m, init) + [(c, Finish(r, before).value.Failed?)]
      case Sleeps(_) => Verdicts(r, m, init)
      case Sets(_) => Verdicts(r, m, init)
      case Reseeds => Verdicts(r, m, init)
  }

  /** Events that may bear on pass or fail. Latency, its spread and the class mix do not. */
  predicate Matters(e: Event) {
    e.Sets? ==> e.knob.Rate? || e.knob.Seed?
  }

  function Project(es: seq<Event>): seq<Event> {
    if es == [] then []
    else
      var init := Project(es[..|es| - 1]);
      if Matters(es[|es| - 1]) then init + [es[|es| - 1]] else init
  }

  /** The part of the adapter that decides pass or fail. */
  datatype Gate = Gate(errorRate: real, seed: int, failure: Stream, seededFrom: int)

  function GateOf(m: Mock): Gate {
    Gate(m.state.errorRate, m.state.seed, m.failure, m.seededFrom)
  }

  lemma GateStep(r: Randomness, m: Mock, m': Mock, e: Event)
    requires GateOf(m) == GateOf(m')
    ensures GateOf(After(r, m, e)) == GateOf(After(r, m', e))
    ensures e.Wakes? ==> Finish(r, m).value.Failed? == Finish(r, m').value.Failed?
    ensures !Matters(e) ==> GateOf(After(r, m, e)) == GateOf(m)
  {
  }

  lemma {:induction false} OnlyTheProjectionMatters(r: Randomness, m: Mock, es: seq<Event>)
    ensures GateOf(RunOf(r, m, es)) == GateOf(RunOf(r, m, Project(es)))
    ensures Verdicts(r, m, es) == Verdicts(r, m, Project(es))
  {
    if es != [] {
      var init, e := es[..|es| - 1], es[|es| - 1];
      OnlyTheProjectionMatters(r, m, init);
      GateStep(r, RunOf(r, m, init), RunOf(r, m, Project(init)), e);
      if Matters(e) {
        assert (Project(init) + [e])[..|Project(init)|] == Project(init);
      }
      hide Finish, Begin, After, GateOf, Matters;
    }
  }

  lemma {:induction false} SameGateSameVerdicts(r: Randomness, m: Mock, m': Mock, es: seq<Event>)
    requires GateOf(m) == GateOf(m')
    ensures GateOf(RunOf(r, m, es)) == GateOf(RunOf(r, m', es))
    ensures Verdicts(r, m, es) == Verdicts(r, m', es)
  {
    if es != [] {
      var init, e := es[..|es| - 1], es[|es| - 1];
      SameGateSameVerdicts(r, m, m', init);
      GateStep(r, RunOf(r, m, init), RunOf(r, m', init), e);
      hide Finish, Begin, After, GateOf;
    }
  }

  /** Non-interference: two runs that agree on seeds, error rates and the order in which calls start and
      wake give identical verdicts, whatever their latencies, spreads and class mixes, initially or later. */
  lemma VerdictsIgnoreLatencyAndMix(r: Randomness, m: Mock, m': Mock, es: seq<Event>, es': seq<Event>)
    requires GateOf(m) == GateOf(m') && Project(es) == Project(es')
    ensures Verdicts(r, m, es) == Verdicts(r, m', es')
  {
    OnlyTheProjectionMatters(r, m, es);
    OnlyTheProjectionMatters(r, m', es');
    SameGateSameVerdicts(r, m, m', Project(es));
  }

  // ----- which draw decides, read off the history alone ---------------------------------

  /** The seed knob, and the error rate, after a history. */
  function SeedKnob(s: ChaosState, es: seq<Event>): int {
    if es == [] then s.seed
    else if es[|es| - 1].Sets? && es[|es| - 1].knob.Seed? then es[|es| - 1].knob.seed
    else SeedKnob(s, es[..|es| - 1])
  }

  function RateKnob(s: ChaosState, es: seq<Event>): real {
    if es == [] then s.errorRate
    else if es[|es| - 1].Sets? && es[|es| - 1].knob.Rate? then es[|es| - 1].knob.rate
    else RateKnob(s, es[..|es| - 1])
  }

  /** The seed the streams run on: the knob's value when a call last went to sleep or a reseed was asked for. */
  function SeedInUse(m: Mock, es: seq<Event>): int {
    if es == [] then m.seededFrom
    else if es[|es| - 1].Sleeps? || es[|es| - 1].Reseeds? then SeedKnob(m.state, es[..|es| - 1])
    else SeedInUse(m, es[..|es| - 1])
  }

  /** Whether the event after a history (re)starts the streams. */
  predicate Restarts(m: Mock, es: seq<Event>, e: Event) {
    e.Reseeds? || (e.Sleeps? && SeedKnob(m.state, es) != SeedInUse(m, es))
  }

  /** How many calls woke since the streams were last (re)started. */
  function Since(m: Mock, es: seq<Event>): nat {
    if es == [] then m.failure.drawn
    else if Restarts(m, es[..|es| - 1], es[|es| - 1]) then 0
    else Since(m, es[..|es| - 1]) + if es[|es| - 1].Wakes? then 1 else 0
  }

  /** The calls that woke, in waking order. */
  function WakeOrder(es: seq<Event>): seq<nat> {
    if es == [] then []
    else if es[|es| - 1].Wakes? then WakeOrder(es[..|es| - 1]) + [es[|es| - 1].call]
    else WakeOrder(es[..|es| - 1])
  }

  /** Where the k-th call woke. */
  function WakeAt(es: seq<Event>, k: nat): (t: nat)
    requires k < |WakeOrder(es)|
    ensures t < |es| && es[t] == Wakes(WakeOrder(es)[k])
    ensures WakeOrder(es[..t]) == WakeOrder(es)[..k]
  {
    var init := es[..|es| - 1];
    if k < |WakeOrder(init)| then
      var t := WakeAt(init, k);
      assert init[..t] == es[..t];
      t
    else |es| - 1
  }

  lemma {:induction false} FailureStreamIs(r: Randomness, m: Mock, es: seq<Event>)
    requires m.failure.seed == m.seededFrom
    ensures GateOf(RunOf(r, m, es)) ==
            Gate(RateKnob(m.state, es), SeedKnob(m.state, es), Stream(SeedInUse(m, es), Since(m, es)), SeedInUse(m, es))
  {
    if es != [] {
      FailureStreamIs(r, m, es[..|es| - 1]);
    }
  }

  /** Whether a call that wakes after this history fails. */
  predicate Fails(r: Randomness, m: Mock, es: seq<Event>) {
    r.uniform(SeedInUse(m, es), Since(m, es)) < RateKnob(m.state, es)
  }

  /** Over any history of calls, rate changes, seed changes and reseeds, in any interleaving: the k-th call to
      wake fails exactly when the draw numbered by the wakes since the last (re)seeding, from the seed then in
      use, is below the error rate at that moment. */
  lemma {:induction false} KthToWake(r: Randomness, m: Mock, es: seq<Event>, k: nat)
    requires m.failure.seed == m.seededFrom && k < |WakeOrder(es)|
    ensures |Verdicts(r, m, es)| == |WakeOrder(es)|
    ensures Verdicts(r, m, es)[k] == (WakeOrder(es)[k], Fails(r, m, es[..WakeAt(es, k)]))
  {
    var init, e := es[..|es| - 1], es[|es| - 1];
    FailureStreamIs(r, m, init);
    if WakeOrder(init) == [] {
      NobodyWoke(r, m, init);
    } else {
      KthToWake(r, m, init, if k < |WakeOrder(init)| then k else 0);
    }
    if k < |WakeOrder(init)| {
      assert init[..WakeAt(init, k)] == es[..WakeAt(es, k)];
    }
    hide SeedInUse, Since, RateKnob, SeedKnob, RunOf, After;
  }

  lemma {:induction false} NobodyWoke(r: Randomness, m: Mock, es: seq<Event>)
    requires WakeOrder(es) == []
    ensures Verdicts(r, m, es) == []
  {
    if es != [] {
      NobodyWoke(r, m, es[..|es| - 1]);
    }
  }

  /** The seed is left alone; the error rate need not be. */
  predicate SeedUntouched(es: seq<Event>) {
    forall k :: 0 <= k < |es| ==> !es[k].Reseeds? && (es[k].Sets? ==> !es[k].knob.Seed?)
  }

  lemma {:induction false} OneSeeding(state: ChaosState, es: seq<Event>)
    requires SeedUntouched(es)
    ensures SeedKnob(state, es) == SeedInUse(Fresh(state), es) == state.seed
    ensures Since(Fresh(state), es) == |WakeOrder(es)|
  {
    if es != [] {
      OneSeeding(state, es[..|es| - 1]);
    }
  }

  /** Within one seeding, the k-th call to wake takes draw k. */
  lemma WithinOneSeeding(r: Randomness, state: ChaosState, es: seq<Event>, k: nat)
    requires SeedUntouched(es) && k < |WakeOrder(es)|
    ensures |Verdicts(r, Fresh(state), es)| == |WakeOrder(es)|
    ensures Verdicts(r, Fresh(state), es)[k] ==
            (WakeOrder(es)[k], r.uniform(state.seed, k) < RateKnob(state, es[..WakeAt(es, k)]))
  {
    KthToWake(r, Fresh(state), es, k);
    OneSeeding(state, es[..WakeAt(es, k)]);
  }

  // ----- one call after another ------------------------------------------------------------

  /** How many calls are over and whether one is under way, if calls 0, 1, 2, ... run one after another with
      anything else in between; `None` if they do not. */
  function Turn(es: seq<Event>): Option<(nat, bool)> {
    if es == [] then Some((0, false))
    else
      match Turn(es[..|es| - 1])
      case None => None
      case Some((n, busy)) =>
        match es[|es| - 1]
        case Sleeps(c) => if !busy && c == n then Some((n, true)) else None
        case Wakes(c) => if busy && c == n then Some((n + 1, false)) else None
        case Sets(_) => Some((n, busy))
        case Reseeds => Some((n, busy))
  }

  lemma {:induction false} TurnsWakeInOrder(es: seq<Event>)
    requires Turn(es).Some?
    ensures |WakeOrder(es)| == Turn(es).value.0
    ensures forall k :: 0 <= k < |WakeOrder(es)| ==> WakeOrder(es)[k] == k
  {
    if es != [] {
      TurnsWakeInOrder(es[..|es| - 1]);
    }
  }

  /** One at a time, with any retuning and reseeding between and during calls, the k-th to wake is call k;
      while the seed is left alone it takes draw k. */
  lemma SequentialCalls(r: Randomness, state: ChaosState, es: seq<Event>, k: nat)
    requires Turn(es).Some? && k < Turn(es).value.0
    ensures |Verdicts(r, Fresh(state), es)| == Turn(es).value.0 == |WakeOrder(es)|
    ensures
      var before := es[..WakeAt(es, k)];
      && Verdicts(r, Fresh(state), es)[k] == (k, Fails(r, Fresh(state), before))
      && (SeedUntouched(es) ==> Fails(r, Fresh(state), before) == (r.uniform(state.seed, k) < RateKnob(state, before)))
  {
    TurnsWakeInOrder(es);
    KthToWake(r, Fresh(state), es, k);
    if SeedUntouched(es) {
      OneSeeding(state, es[..WakeAt(es, k)]);
    }
  }

  /** Overlapping calls: with the same seed and rate, which call fails is decided by who wakes first. */
  lemma WakingOrderDecides(r: Randomness, state: ChaosState)
    requires r.uniform(state.seed, 0) < state.errorRate <= r.uniform(state.seed, 1)
    ensures Verdicts(r, Fresh(state), [Sleeps(0), Sleeps(1), Wakes(0), Wakes(1)]) == [(0, true), (1, false)]
    ensures Verdicts(r, Fresh(state), [Sleeps(0), Sleeps(1), Wakes(1), Wakes(0)]) == [(1, true), (0, false)]
  {
    TwoWake(r, state, [Sleeps(0), Sleeps(1)], 0, 1);
    TwoWake(r, state, [Sleeps(0), Sleeps(1)], 1, 0);
    assert [Sleeps(0), Sleeps(1)] + [Wakes(0), Wakes(1)] == [Sleeps(0), Sleeps(1), Wakes(0), Wakes(1)];
    assert [Sleeps(0), Sleeps(1)] + [Wakes(1), Wakes(0)] == [Sleeps(0), Sleeps(1), Wakes(1), Wakes(0)];
  }

  /** After any calls going to sleep, the first two to wake take the first two draws. */
  lemma TwoWake(r: Randomness, state: ChaosState, asleep: seq<Event>, a: nat, b: nat)
    requires forall k :: 0 <= k < |asleep| ==> asleep[k].Sleeps?
    ensures Verdicts(r, Fresh(state), asleep + [Wakes(a), Wakes(b)]) ==
            [(a, r.uniform(state.seed, 0) < state.errorRate), (b, r.uniform(state.seed, 1) < state.errorRate)]
  {
    hide Wakings, WakeOrder, Verdicts, Fresh, SeedUntouched, Tally, RateKnob;
    var es := asleep + [Wakes(a), Wakes(b)];
    TwoWakings(state, asleep, a, b);
    TallyIs(r, state, es);
    TallyOfTwo(r, state, (a, state.errorRate), (b, state.errorRate));
  }

  lemma TwoWakings(state: ChaosState, asleep: seq<Event>, a: nat, b: nat)
    requires forall k :: 0 <= k < |asleep| ==> asleep[k].Sleeps?
    ensures SeedUntouched(asleep + [Wakes(a), Wakes(b)])
    ensures Wakings(state, asleep + [Wakes(a), Wakes(b)]) == [(a, state.errorRate), (b, state.errorRate)]
  {
    SleepersOnly(asleep);
    RatesUntouched(state, asleep);
    hide Wakings, WakeOrder, RateKnob;
    WakingsSnoc(state, asleep, Wakes(a));
    WakingsSnoc(state, asleep + [Wakes(a)], Wakes(b));
    assert asleep + [Wakes(a), Wakes(b)] == asleep + [Wakes(a)] + [Wakes(b)];
  }

  lemma TallyOfTwo(r: Randomness, state: ChaosState, first: (nat, real), second: (nat, real))
    ensures Tally(r, state, [first, second]) ==
            [(first.0, r.uniform(state.seed, 0) < first.1), (second.0, r.uniform(state.seed, 1) < second.1)]
  {
  }

  lemma {:induction false} RatesUntouched(state: ChaosState, es: seq<Event>)
    requires forall k :: 0 <= k < |es| ==> !es[k].Sets?
    ensures RateKnob(state, es) == state.errorRate
  {
    if es != [] {
      RatesUntouched(state, es[..|es| - 1]);
    }
  }

  lemma {:induction false} SleepersOnly(asleep: seq<Event>)
    requires forall k :: 0 <= k < |asleep| ==> asleep[k].Sleeps?
    ensures WakeOrder(asleep) == []
  {
    if asleep != [] {
      SleepersOnly(asleep[..|asleep| - 1]);
    }
  }

  // ----- reseeding ------------------------------------------------------------------------------

  lemma {:induction false} RunAppend(r: Randomness, m: Mock, a: seq<Event>, b: seq<Event>)
    ensures RunOf(r, m, a + b) == RunOf(r, RunOf(r, m, a), b)
    ensures Verdicts(r, m, a + b) == Verdicts(r, m, a) + Verdicts(r, RunOf(r, m, a), b)
  {
    if b == [] {
      assert a + b == a;
    } else {
      var init, e := b[..|b| - 1], b[|b| - 1];
      assert (a + b)[..|a + b| - 1] == a + init;
      RunAppend(r, m, a, init);
      hide After, Finish;
    }
  }

  /** The next call starts from a fresh adapter's streams exactly when the seed value differs from the one
      the streams were built from, or nothing was drawn since; setting the same value restarts nothing. */
  lemma NextCallIsFreshIff(m: Mock)
    requires m.failure.seed == m.seededFrom && m.classes.seed == m.seededFrom + 1
    requires m.latency.seed == m.seededFrom + 2
    ensures Resynced(m) == Fresh(m.state) <==>
            m.state.seed != m.seededFrom || (m.failure.drawn == 0 && m.classes.drawn == 0 && m.latency.drawn == 0)
  {
  }

  /** Whatever ran before a reseed and whatever is in flight, everything after it, waking calls included, goes
      as on a fresh adapter with the same knobs. */
  lemma ReseedReplays(r: Randomness, m: Mock, es0: seq<Event>, es: seq<Event>)
    ensures
      var state := RunOf(r, m, es0).state;
      && RunOf(r, m, es0 + ([Reseeds] + es)) == RunOf(r, Fresh(state), es)
      && Verdicts(r, m, es0 + ([Reseeds] + es)) == Verdicts(r, m, es0) + Verdicts(r, Fresh(state), es)
  {
    hide RunOf, Verdicts, Fresh;
    var now := RunOf(r, m, es0);
    RunAppend(r, m, es0, [Reseeds] + es);
    RunAppend(r, now, [Reseeds], es);
    RestartOnly(r, now);
    var after := Verdicts(r, Fresh(now.state), es);
    assert [] + after == after;
  }

  lemma RestartOnly(r: Randomness, m: Mock)
    ensures RunOf(r, m, [Reseeds]) == Fresh(m.state) && Verdicts(r, m, [Reseeds]) == []
  {
    assert [Reseeds][..0] == [];
  }

  /** Knob changes other than the seed, and calls waking. */
  predicate NoCallStarts(es: seq<Event>) {
    forall k :: 0 <= k < |es| ==> es[k].Wakes? || (es[k].Sets? && !es[k].knob.Seed?)
  }

  lemma {:induction false} SeedWaits(m: Mock, a: seq<Event>, quiet: seq<Event>)
    requires NoCallStarts(quiet)
    ensures SeedKnob(m.state, a + quiet) == SeedKnob(m.state, a) && SeedInUse(m, a + quiet) == SeedInUse(m, a)
  {
    if quiet == [] {
      assert a + quiet == a;
    } else {
      assert (a + quiet)[..|a + quiet| - 1] == a + quiet[..|quiet| - 1];
      SeedWaits(m, a, quiet[..|quiet| - 1]);
    }
  }

  /** A new seed value takes effect at the next call to start, however much retuning and waking lies between;
      from that call on, everything goes as on a fresh adapter with the knobs of that moment. */
  lemma NewSeedReplays(r: Randomness, m: Mock, es0: seq<Event>, seed: int, quiet: seq<Event>, call: nat, es: seq<Event>)
    requires m.failure.seed == m.seededFrom && seed != SeedInUse(m, es0) && NoCallStarts(quiet)
    ensures
      var a := es0 + [Sets(Seed(seed))] + quiet;
      var state := RunOf(r, m, a).state;
      && state.seed == seed
      && RunOf(r, m, a + ([Sleeps(call)] + es)) == RunOf(r, Fresh(state), [Sleeps(call)] + es)
      && Verdicts(r, m, a + ([Sleeps(call)] + es)) ==
         Verdicts(r, m, a) + Verdicts(r, Fresh(state), [Sleeps(call)] + es)
  {
    var turned := es0 + [Sets(Seed(seed))];
    var a := turned + quiet;
    assert turned[..|es0|] == es0;
    SeedWaits(m, turned, quiet);
    FailureStreamIs(r, m, a);
    var now := RunOf(r, m, a);
    assert now.state.seed == seed && now.seededFrom == SeedInUse(m, es0);
    RunAppend(r, m, a, [Sleeps(call)] + es);
    RunAppend(r, now, [Sleeps(call)], es);
    RunAppend(r, Fresh(now.state), [Sleeps(call)], es);
    StartsFresh(r, now, call);
  }

  lemma StartsFresh(r: Randomness, m: Mock, call: nat)
    requires m.state.seed != m.seededFrom
    ensures RunOf(r, m, [Sleeps(call)]) == RunOf(r, Fresh(m.state), [Sleeps(call)])
    ensures Verdicts(r, m, [Sleeps(call)]) == Verdicts(r, Fresh(m.state), [Sleeps(call)]) == []
  {
    assert [Sleeps(call)][..0] == [];
    assert Resynced(m) == Resynced(Fresh(m.state));
  }

  // ----- replaying a scenario --------------------------------------------------------------------

  /** The calls that woke, in waking order, each with the error rate at that moment. */
  function Wakings(s: ChaosState, es: seq<Event>): (w: seq<(nat, real)>)
    ensures |w| == |WakeOrder(es)|
    ensures forall k :: 0 <= k < |w| ==> w[k] == (WakeOrder(es)[k], RateKnob(s, es[..WakeAt(es, k)]))
  {
    if es == [] then []
    else
      var init, e := es[..|es| - 1], es[|es| - 1];
      assert forall k :: 0 <= k < |WakeOrder(init)| ==> init[..WakeAt(init, k)] == es[..WakeAt(es, k)];
      if e.Wakes? then Wakings(s, init) + [(e.call, RateKnob(s, init))] else Wakings(s, init)
  }

  /** Verdicts for calls waking in this order, one draw each. */
  function Tally(r: Randomness, state: ChaosState, order: seq<(nat, real)>): (v: seq<(nat, bool)>)
    ensures |v| == |order|
    ensures forall k :: 0 <= k < |v| ==> v[k] == (order[k].0, r.uniform(state.seed, k) < order[k].1)
  {
    seq(|order|, k requires 0 <= k < |order| => (order[k].0, r.uniform(state.seed, k) < order[k].1))
  }

  lemma TallyIs(r: Randomness, state: ChaosState, es: seq<Event>)
    requires SeedUntouched(es)
    ensures Verdicts(r, Fresh(state), es) == Tally(r, state, Wakings(state, es))
  {
    if WakeOrder(es) == [] {
      NobodyWoke(r, Fresh(state), es);
    } else {
      WithinOneSeeding(r, state, es, 0);
      forall k | 0 <= k < |WakeOrder(es)|
        ensures Verdicts(r, Fresh(state), es)[k] == Tally(r, state, Wakings(state, es))[k]
      {
        WithinOneSeeding(r, state, es, k);
      }
    }
  }

  /** A run without the waking of the calls in `late`. */
  function WithoutLate(es: seq<Event>, late: set<nat>): seq<Event> {
    if es == [] then []
    else
      var init, e := WithoutLate(es[..|es| - 1], late), es[|es| - 1];
      if e.Wakes? && e.call in late then init else init + [e]
  }

  function Others(order: seq<(nat, real)>, late: set<nat>): seq<(nat, real)> {
    if order == [] then []
    else
      var init, c := Others(order[..|order| - 1], late), order[|order| - 1];
      if c.0 in late then init else init + [c]
  }

  /** The verdicts of the other calls. */
  function VerdictsOfOthers(v: seq<(nat, bool)>, late: set<nat>): seq<(nat, bool)> {
    if v == [] then []
    else
      var init, c := VerdictsOfOthers(v[..|v| - 1], late), v[|v| - 1];
      if c.0 in late then init else init + [c]
  }

  lemma {:induction false} OthersWakeInOrder(s: ChaosState, es: seq<Event>, late: set<nat>)
    ensures RateKnob(s, WithoutLate(es, late)) == RateKnob(s, es)
    ensures Wakings(s, WithoutLate(es, late)) == Others(Wakings(s, es), late)
  {
    if es != [] {
      OthersWakeInOrder(s, es[..|es| - 1], late);
      WakingsSnoc(s, WithoutLate(es[..|es| - 1], late), es[|es| - 1]);
    }
  }

  lemma WakingsSnoc(s: ChaosState, es: seq<Event>, e: Event)
    ensures Wakings(s, es + [e]) == Wakings(s, es) + if e.Wakes? then [(e.call, RateKnob(s, es))] else []
    ensures RateKnob(s, es + [e]) == if e.Sets? && e.knob.Rate? then e.knob.rate else RateKnob(s, es)
  {
    assert (es + [e])[..|es|] == es;
  }

  lemma {:induction false} LateCallsOnlyWake(es: seq<Event>, late: set<nat>)
    requires SeedUntouched(WithoutLate(es, late))
    ensures SeedUntouched(es)
  {
    if es != [] {
      var w, e := WithoutLate(es[..|es| - 1], late), es[|es| - 1];
      assert forall k :: 0 <= k < |w| ==> (w + [e])[k] == w[k];
      assert (w + [e])[|w|] == e;
      LateCallsOnlyWake(es[..|es| - 1], late);
    }
  }

  /** Whether a draw decides anything at this error rate. */
  predicate DrawDecides(rate: real) {
    0.0 < rate < 1.0
  }

  /** No late call wakes before one of the others whose rate leaves its verdict to the draw. */
  predicate NoneCutsIn(order: seq<(nat, real)>, late: set<nat>) {
    forall j, k :: 0 <= j < k < |order| && order[j].0 in late && order[k].0 !in late ==> !DrawDecides(order[k].1)
  }

  lemma {:induction false} NoneLate(order: seq<(nat, real)>, late: set<nat>)
    ensures |Others(order, late)| <= |order|
    ensures |Others(order, late)| == |order| <==> forall c :: c in order ==> c.0 !in late
    ensures |Others(order, late)| == |order| ==> Others(order, late) == order
  {
    if order != [] {
      NoneLate(order[..|order| - 1], late);
    }
  }

  lemma CutsInit(order: seq<(nat, real)>, late: set<nat>)
    requires NoneCutsIn(order, late) && order != []
    ensures NoneCutsIn(order[..|order| - 1], late)
    ensures
      var init, c := order[..|order| - 1], order[|order| - 1];
      c.0 !in late && DrawDecides(c.1) ==> forall d :: d in init ==> d.0 !in late
  {
    var init, c := order[..|order| - 1], order[|order| - 1];
    if c.0 !in late && DrawDecides(c.1) {
      forall d | d in init ensures d.0 !in late {
        var j :| 0 <= j < |init| && init[j] == d;
        assert order[j] == d;
      }
    }
  }

  lemma VerdictsSnoc(v: seq<(nat, bool)>, late: set<nat>)
    requires v != []
    ensures VerdictsOfOthers(v, late) ==
            VerdictsOfOthers(v[..|v| - 1], late) + if v[|v| - 1].0 in late then [] else [v[|v| - 1]]
  {
  }

  lemma OthersSnoc(order: seq<(nat, real)>, late: set<nat>)
    requires order != []
    ensures Others(order, late) ==
            Others(order[..|order| - 1], late) + if order[|order| - 1].0 in late then [] else [order[|order| - 1]]
  {
  }

  lemma TallyInit(r: Randomness, state: ChaosState, order: seq<(nat, real)>)
    requires order != []
    ensures Tally(r, state, order)[..|order| - 1] == Tally(r, state, order[..|order| - 1])
  {
  }

  lemma TallySnoc(r: Randomness, state: ChaosState, order: seq<(nat, real)>, c: (nat, real))
    ensures Tally(r, state, order + [c]) ==
            Tally(r, state, order) + [(c.0, r.uniform(state.seed, |order|) < c.1)]
  {
  }

  lemma {:induction false} OrderlyTally(r: Randomness, state: ChaosState, order: seq<(nat, real)>, late: set<nat>)
    requires NoneCutsIn(order, late)
    ensures VerdictsOfOthers(Tally(r, state, order), late) == Tally(r, state, Others(order, late))
  {
    hide NoneCutsIn, Tally, Others, VerdictsOfOthers;
    if order != [] {
      var init, c := order[..|order| - 1], order[|order| - 1];
      assert order == init + [c];
      CutsInit(order, late);
      OrderlyTally(r, state, init, late);
      TallySnoc(r, state, init, c);
      VerdictsSnoc(Tally(r, state, order), late);
      OthersSnoc(order, late);
      if c.0 !in late {
        NoneLate(init, late);
        TallySnoc(r, state, Others(init, late), c);
      }
    } else {
      NobodyLate(late);
      assert Tally(r, state, order) == [];
    }
  }

  lemma NobodyLate(late: set<nat>)
    ensures Others([], late) == [] && VerdictsOfOthers([], late) == []
  {
  }

  /** Where the verdict of a call that is not late ends up. */
  lemma {:induction false} VerdictFound(r: Randomness, state: ChaosState, order: seq<(nat, real)>, late: set<nat>,
                                        k: nat)
    requires k < |order| && order[k].0 !in late
    ensures
      var v, q := VerdictsOfOthers(Tally(r, state, order), late), |Others(order[..k], late)|;
      q < |v| == |Others(order, late)| && v[q] == Tally(r, state, order)[k]
  {
    var init := order[..|order| - 1];
    TallyInit(r, state, order);
    OthersCount(r, state, init, late);
    if k < |init| {
      assert init[..k] == order[..k];
      VerdictFound(r, state, init, late, k);
    }
  }

  lemma {:induction false} OthersCount(r: Randomness, state: ChaosState, order: seq<(nat, real)>, late: set<nat>)
    ensures |VerdictsOfOthers(Tally(r, state, order), late)| == |Others(order, late)|
  {
    if order != [] {
      TallyInit(r, state, order);
      OthersCount(r, state, order[..|order| - 1], late);
    }
  }

  /** A generator whose first `n` failure draws are low and whose later ones are not. */
  function FirstLow(n: nat, high: Unit): Randomness {
    Randomness((seed: int, k: nat) => if k < n then 0.0 else high,
               (seed: int, k: nat, median: real, sigma: real) => 0.0,
               (mix: Mix, u: Unit) => Timeout)
  }

  /** Reseeding replays a scenario of calls, retuned as it goes, verdict for verdict and whatever the generator, if
      and only if no call that was asleep at the reseed wakes before a call of the scenario that is left to the
      draw: one whose rate at its waking is neither zero nor one. */
  lemma ReplayIsFaithfulIff(state: ChaosState, scenario: seq<Event>, again: seq<Event>, late: set<nat>)
    requires SeedUntouched(scenario) && WithoutLate(again, late) == scenario
    ensures Replays(state, scenario, again, late) <==> NoneCutsIn(Wakings(state, again), late)
  {
    var order := Wakings(state, again);
    OthersWakeInOrder(state, again, late);
    LateCallsOnlyWake(again, late);
    forall r: Randomness
      ensures Verdicts(r, Fresh(state), again) == Tally(r, state, order)
      ensures Verdicts(r, Fresh(state), scenario) == Tally(r, state, Others(order, late))
    {
      TallyIs(r, state, again);
      TallyIs(r, state, scenario);
    }
    if NoneCutsIn(order, late) {
      forall r: Randomness
        ensures VerdictsOfOthers(Verdicts(r, Fresh(state), again), late) == Verdicts(r, Fresh(state), scenario)
      {
        OrderlyTally(r, state, order, late);
      }
    } else {
      var r := ShiftedReplayDiffers(state, order, late);
    }
  }

  ghost predicate Replays(state: ChaosState, scenario: seq<Event>, again: seq<Event>, late: set<nat>) {
    forall r: Randomness ::
      VerdictsOfOthers(Verdicts(r, Fresh(state), again), late) == Verdicts(r, Fresh(state), scenario)
  }

  lemma ShiftedReplayDiffers(state: ChaosState, order: seq<(nat, real)>, late: set<nat>) returns (r: Randomness)
    requires !NoneCutsIn(order, late)
    ensures VerdictsOfOthers(Tally(r, state, order), late) != Tally(r, state, Others(order, late))
  {
    var j, k :| 0 <= j < k < |order| && order[j].0 in late && order[k].0 !in late && DrawDecides(order[k].1);
    NoneLate(order[..k], late);
    assert order[..k][j] == order[j];
    var q := |Others(order[..k], late)|;
    OtherFound(order, late, k);
    r := FirstLow(k, order[k].1);
    VerdictFound(r, state, order, late, k);
    assert Tally(r, state, order)[k].1 != Tally(r, state, Others(order, late))[q].1;
  }

  lemma {:induction false} OtherFound(order: seq<(nat, real)>, late: set<nat>, k: nat)
    requires k < |order| && order[k].0 !in late
    ensures |Others(order[..k], late)| < |Others(order, late)|
    ensures Others(order, late)[|Others(order[..k], late)|] == order[k]
  {
    var init := order[..|order| - 1];
    if k < |init| {
      assert init[..k] == order[..k];
      OtherFound(init, late, k);
    }
  }

  // ----- two runs, call by call --------------------------------------------------------------------

  /** The same verdict for every call on both lists. */
  predicate Agree(v: seq<(nat, bool)>, v': seq<(nat, bool)>) {
    forall k, k' :: 0 <= k < |v| && 0 <= k' < |v'| && v[k].0 == v'[k'].0 ==> v[k].1 == v'[k'].1
  }

  ghost predicate SameVerdicts(state: ChaosState, es: seq<Event>, state': ChaosState, es': seq<Event>) {
    forall r: Randomness :: Agree(Verdicts(r, Fresh(state), es), Verdicts(r, Fresh(state'), es'))
  }

  /** Waking k-th at rate `x` and waking k'-th at rate `x'` come to the same: either no draw can decide it, or the
      same draw does at the same rate. */
  predicate Interchangeable(k: nat, x: real, k': nat, x': real) {
    (x <= 0.0 && x' <= 0.0) || (x >= 1.0 && x' >= 1.0) || (k == k' && x == x')
  }

  predicate CallsInterchangeable(order: seq<(nat, real)>, order': seq<(nat, real)>) {
    forall k, k' :: 0 <= k < |order| && 0 <= k' < |order'| && order[k].0 == order'[k'].0 ==>
      Interchangeable(k, order[k].1, k', order'[k'].1)
  }

  /** A generator whose failure draw number `k` is `a` and whose others are `b`. */
  function OneDraw(k: nat, a: Unit, b: Unit): Randomness {
    Randomness((seed: int, n: nat) => if n == k then a else b,
               (seed: int, n: nat, median: real, sigma: real) => 0.0,
               (mix: Mix, u: Unit) => Timeout)
  }

  /** Two draws that tell two wakings apart, unless they are interchangeable. */
  lemma TellingDraws(k: nat, x: real, k': nat, x': real) returns (a: Unit, b: Unit)
    requires !Interchangeable(k, x, k', x')
    ensures (a < x) != ((if k' == k then a else b) < x')
  {
    a, b := 0.0, 0.0;
    if k == k' {
      var low := if x < x' then x else x';
      a := if low < 0.0 then 0.0 else low;
    } else if x > 0.0 && x' < 1.0 {
      b := if x' < 0.0 then 0.0 else x';
    } else {
      a := if x < 0.0 then 0.0 else x;
    }
  }

  lemma InterchangeableAgree(r: Randomness, state: ChaosState, order: seq<(nat, real)>,
                             state': ChaosState, order': seq<(nat, real)>)
    requires state.seed == state'.seed && CallsInterchangeable(order, order')
    ensures Agree(Tally(r, state, order), Tally(r, state', order'))
  {
    var v, v' := Tally(r, state, order), Tally(r, state', order');
    forall k, k' | 0 <= k < |v| && 0 <= k' < |v'| && v[k].0 == v'[k'].0 ensures v[k].1 == v'[k'].1 {
      assert Interchangeable(k, order[k].1, k', order'[k'].1);
    }
  }

  lemma OthersDisagree(state: ChaosState, order: seq<(nat, real)>, state': ChaosState, order': seq<(nat, real)>)
    returns (r: Randomness)
    requires state.seed == state'.seed && !CallsInterchangeable(order, order')
    ensures !Agree(Tally(r, state, order), Tally(r, state', order'))
  {
    var k, k' :| 0 <= k < |order| && 0 <= k' < |order'| && order[k].0 == order'[k'].0 &&
                 !Interchangeable(k, order[k].1, k', order'[k'].1);
    var a, b := TellingDraws(k, order[k].1, k', order'[k'].1);
    r := OneDraw(k, a, b);
    hide CallsInterchangeable, Interchangeable;
    assert Tally(r, state, order)[k] == (order[k].0, a < order[k].1);
    assert Tally(r, state', order')[k'] == (order'[k'].0, (if k' == k then a else b) < order'[k'].1);
  }

  /** How far pass and fail are a function of the seed and the error rate: for two runs from one seed, with any
      rate changes, every call they share gets the same verdict under every generator if and only if, wherever
      it wakes, it wakes at the same rank and rate in both, or at rates of zero or less in both, or of one or
      more in both. */
  lemma SameVerdictsIff(state: ChaosState, es: seq<Event>, state': ChaosState, es': seq<Event>)
    requires state.seed == state'.seed && SeedUntouched(es) && SeedUntouched(es')
    ensures SameVerdicts(state, es, state', es') <==> CallsInterchangeable(Wakings(state, es), Wakings(state', es'))
  {
    hide Verdicts, Wakings, Tally, Fresh, CallsInterchangeable, Agree;
    var order, order' := Wakings(state, es), Wakings(state', es');
    forall r: Randomness
      ensures Verdicts(r, Fresh(state), es) == Tally(r, state, order)
      ensures Verdicts(r, Fresh(state'), es') == Tally(r, state', order')
    {
      TallyIs(r, state, es);
      TallyIs(r, state', es');
    }
    if CallsInterchangeable(order, order') {
      forall r: Randomness ensures Agree(Verdicts(r, Fresh(state), es), Verdicts(r, Fresh(state'), es')) {
        InterchangeableAgree(r, state, order, state', order');
      }
    } else {
      var r := OthersDisagree(state, order, state', order');
      assert !Agree(Verdicts(r, Fresh(state), es), Verdicts(r, Fresh(state'), es'));
    }
  }

  /** The smallest failing case: one call asleep at the reseed, one call in the scenario. */
  lemma StragglerTakesTheDraw(r: Randomness, state: ChaosState)
    requires r.uniform(state.seed, 0) < state.errorRate <= r.uniform(state.seed, 1)
    ensures Verdicts(r, Fresh(state), [Sleeps(1), Wakes(1)]) == [(1, true)]
    ensures Verdicts(r, Fresh(state), [Sleeps(1), Wakes(0), Wakes(1)]) == [(0, true), (1, false)]
  {
    var asleep := [Sleeps(1)];
    TwoWake(r, state, asleep, 0, 1);
    assert asleep + [Wakes(0), Wakes(1)] == [Sleeps(1), Wakes(0), Wakes(1)];
    SleepersOnly(asleep);
    assert asleep + [Wakes(1)] == [Sleeps(1), Wakes(1)];
    RatesUntouched(state, asleep);
    WakingsSnoc(state, asleep, Wakes(1));
    hide Wakings, WakeOrder, Verdicts, Fresh;
    TallyIs(r, state, [Sleeps(1), Wakes(1)]);
  }
}
