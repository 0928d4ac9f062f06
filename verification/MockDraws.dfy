/** Which draw gives a call its latency or a failure its class, and a chaos request as what it does to a run. */
module MockDraws {
  import opened Common
  import opened Taxonomy
  import opened MockProvider

  // ----- the knobs after a history -------------------------------------------------------

  function LatencyKnob(s: ChaosState, es: seq<Event>): real {
    if es == [] then s.latencyMs
    else if es[|es| - 1].Sets? && es[|es| - 1].knob.Latency? then es[|es| - 1].knob.ms
    else LatencyKnob(s, es[..|es| - 1])
  }

  function SigmaKnob(s: ChaosState, es: seq<Event>): real {
    if es == [] then s.latencySigma
    else if es[|es| - 1].Sets? && es[|es| - 1].knob.Sigma? then es[|es| - 1].knob.sigma
    else SigmaKnob(s, es[..|es| - 1])
  }

  function MixKnob(s: ChaosState, es: seq<Event>): Mix {
    if es == [] then s.errorClasses
    else if es[|es| - 1].Sets? && es[|es| - 1].knob.ClassMix? then es[|es| - 1].knob.mix
    else MixKnob(s, es[..|es| - 1])
  }

  function Knobs(s: ChaosState, es: seq<Event>): ChaosState {
    ChaosState(RateKnob(s, es), LatencyKnob(s, es), SigmaKnob(s, es), MixKnob(s, es), SeedKnob(s, es))
  }

  /** Whether a call that goes to sleep after this history takes a latency draw. */
  predicate Jittered(s: ChaosState, es: seq<Event>) {
    LatencyKnob(s, es) != 0.0 && SigmaKnob(s, es) != 0.0
  }

  // ----- where the streams stand -----------------------------------------------------------

  /** How many calls failed since the streams were last (re)started. */
  function FailedSince(r: Randomness, m: Mock, es: seq<Event>): nat {
    if es == [] then m.classes.drawn
    else
      var init, e := es[..|es| - 1], es[|es| - 1];
      if Restarts(m, init, e) then 0
      else FailedSince(r, m, init) + if e.Wakes? && Fails(r, m, init) then 1 else 0
  }

  /** How many calls went to sleep for a drawn latency since the streams were last (re)started; the call that
      restarts them is the first. */
  function JitteredSince(m: Mock, es: seq<Event>): nat {
    if es == [] then m.latency.drawn
    else
      var init, e := es[..|es| - 1], es[|es| - 1];
      (if Restarts(m, init, e) then 0 else JitteredSince(m, init))
      + if e.Sleeps? && Jittered(m.state, init) then 1 else 0
  }

  /** Streams derived from one seed, as every (re)start leaves them. */
  predicate WellSeeded(m: Mock) {
    m.failure.seed == m.seededFrom && m.classes.seed == m.seededFrom + 1 && m.latency.seed == m.seededFrom + 2
  }

  /** The whole adapter after any history: the knobs are those last set, the three streams run on the seed in use,
      the next one and the one after, and stand at the wakings, the failures and the jittered sleeps since the
      last (re)start. */
  lemma {:induction false} AdapterIs(r: Randomness, m: Mock, es: seq<Event>)
    requires WellSeeded(m)
    ensures
      var seed := SeedInUse(m, es);
      RunOf(r, m, es) == Mock(Knobs(m.state, es), Stream(seed, Since(m, es)), Stream(seed + 1, FailedSince(r, m, es)),
                              Stream(seed + 2, JitteredSince(m, es)), seed)
  {
    if es != [] {
      AdapterIs(r, m, es[..|es| - 1]);
    }
  }

  /** The call that wakes next fails on the draw numbered by the wakings, and with the class its own stream picks
      on the draw numbered by the failures, both since the last (re)start; the call that goes to sleep next
      sleeps the knob's latency, or where both latency and spread are above zero the draw numbered by the
      jittered sleeps, from the seed in force at that moment. */
  lemma NextCallDraws(r: Randomness, m: Mock, es: seq<Event>)
    requires WellSeeded(m)
    ensures
      var seed, mock := SeedInUse(m, es), RunOf(r, m, es);
      && Finish(r, mock).value ==
         (if r.uniform(seed, Since(m, es)) < RateKnob(m.state, es) then
            Failed(r.choose(MixKnob(m.state, es), r.uniform(seed + 1, FailedSince(r, m, es))))
          else Ok)
      && Begin(r, mock).value ==
         if LatencyKnob(m.state, es) == 0.0 || SigmaKnob(m.state, es) == 0.0 then LatencyKnob(m.state, es)
         else r.lognormal(SeedKnob(m.state, es) + 2,
                          if SeedKnob(m.state, es) == seed then JitteredSince(m, es) else 0,
                          LatencyKnob(m.state, es), SigmaKnob(m.state, es))
  {
    AdapterIs(r, m, es);
    hide RunOf, SeedInUse, Since, FailedSince, JitteredSince, LatencyKnob, SigmaKnob, MixKnob, SeedKnob, RateKnob;
  }

  /** Within one seeding the class draws are the failures so far, in waking order, and the latency draws the calls
      that have gone to sleep, while latency and spread stay above zero. */
  lemma {:induction false} DrawsWithinOneSeeding(r: Randomness, state: ChaosState, es: seq<Event>)
    requires SeedUntouched(es)
    ensures FailedSince(r, Fresh(state), es) == CountIf(Verdicts(r, Fresh(state), es), (v: (nat, bool)) => v.1)
    ensures (forall k :: 0 <= k < |es| ==> Jittered(state, es[..k])) ==>
              JitteredSince(Fresh(state), es) == CountIf(es, (e: Event) => e.Sleeps?)
  {
    var failing := (v: (nat, bool)) => v.1;
    if es != [] {
      var init, e := es[..|es| - 1], es[|es| - 1];
      DrawsWithinOneSeeding(r, state, init);
      OneSeeding(state, init);
      FailureStreamIs(r, Fresh(state), init);
      assert forall k :: 0 <= k < |init| ==> init[..k] == es[..k];
      if e.Wakes? {
        CountIfSnoc(Verdicts(r, Fresh(state), init), (e.call, Fails(r, Fresh(state), init)), failing);
      }
      hide RunOf, SeedInUse, Since, RateKnob, SeedKnob, Jittered;
    }
  }

  // ----- a chaos request in a run -----------------------------------------------------------------

  function Named<T>(o: Option<T>, knob: T -> Knob): seq<Event> {
    if o.Some? then [Sets(knob(o.value))] else []
  }

  predicate OutOfRange(o: Option<real>, most: Option<real>) {
    o.Some? && (o.value < 0.0 || (most.Some? && o.value > most.value))
  }

  /** What a chaos request does to a run: its fields are set in order, up to the first that is out of range; if none
      is, the seed, and the streams restart exactly if one is named. */
  function AsEvents(q: ChaosRequest): seq<Event> {
    if OutOfRange(q.errorRate, Some(1.0)) then [] else Named(q.errorRate, x => Rate(x)) + FromLatency(q)
  }

  function FromLatency(q: ChaosRequest): seq<Event> {
    if OutOfRange(q.latencyMs, None) then [] else Named(q.latencyMs, x => Latency(x)) + FromSigma(q)
  }

  function FromSigma(q: ChaosRequest): seq<Event> {
    if OutOfRange(q.latencySigma, None) then [] else Named(q.latencySigma, x => Sigma(x)) + FromSeed(q)
  }

  function FromSeed(q: ChaosRequest): seq<Event> {
    if q.seed.Some? then [Sets(Seed(q.seed.value)), Reseeds] else []
  }

  lemma OneKnob<T>(r: Randomness, m: Mock, o: Option<T>, knob: T -> Knob, rest: seq<Event>)
    ensures
      var m' := if o.Some? then m.(state := Set(m.state, knob(o.value))) else m;
      && RunOf(r, m, Named(o, knob) + rest) == RunOf(r, m', rest)
      && Verdicts(r, m, Named(o, knob) + rest) == Verdicts(r, m', rest)
  {
    RunAppend(r, m, Named(o, knob), rest);
    if o.Some? {
      assert [Sets(knob(o.value))][..0] == [];
    }
  }

  lemma SeedRuns(r: Randomness, m: Mock, q: ChaosRequest)
    ensures Verdicts(r, m, FromSeed(q)) == []
    ensures RunOf(r, m, FromSeed(q)) == if q.seed.Some? then Fresh(m.state.(seed := q.seed.value)) else m
  {
    if q.seed.Some? {
      var first := Sets(Seed(q.seed.value));
      assert [first, Reseeds][..1] == [first] && [first][..0] == [];
      assert RunOf(r, m, [first]) == m.(state := m.state.(seed := q.seed.value));
      assert Verdicts(r, m, [first]) == [];
    }
  }

  /** The endpoint acts on a run as those events do, so every theorem about runs speaks of retuned ones too. */
  lemma ChaosIsEvents(r: Randomness, m: Mock, q: ChaosRequest)
    ensures RunOf(r, m, AsEvents(q)) == Chaos(m, q).1 && Verdicts(r, m, AsEvents(q)) == []
    ensures forall e :: e in AsEvents(q) ==> e.Sets? || e.Reseeds?
    ensures Reseeds in AsEvents(q) <==> Chaos(m, q).0 && q.seed.Some?
  {
    hide RunOf, Verdicts, Fresh;
    var m1 := m.(state := m.state.(errorRate := if q.errorRate.Some? then q.errorRate.value else m.state.errorRate));
    var m2 := m1.(state := m1.state.(latencyMs := if q.latencyMs.Some? then q.latencyMs.value else m.state.latencyMs));
    var m3 := m2.(state := m2.state.(
      latencySigma := if q.latencySigma.Some? then q.latencySigma.value else m.state.latencySigma));
    OneKnob(r, m, q.errorRate, x => Rate(x), FromLatency(q));
    OneKnob(r, m1, q.latencyMs, x => Latency(x), FromSigma(q));
    OneKnob(r, m2, q.latencySigma, x => Sigma(x), FromSeed(q));
    SeedRuns(r, m3, q);
    NothingRuns(r, m);
    NothingRuns(r, m1);
    NothingRuns(r, m2);
  }

  lemma NothingRuns(r: Randomness, m: Mock)
    ensures RunOf(r, m, []) == m && Verdicts(r, m, []) == []
  {
  }
}
