/** Whole-run accounting: what the series, the store and the requests of a run agree on at every instant. */
module Accounting {
  import opened Common
  import opened Taxonomy
  import opened Geometry
  import opened Labels
  import opened Metrics
  import opened Redis
  import opened WindowReads
  import opened GatewayRuns
  import HealthRuns

  // ----- the series, by any selection ----------------------------------------------------------

  /** How many observations each histogram of a family has taken. */
  function Counts<K>(m: map<K, Observed>): map<K, nat> {
    map k | k in m :: m[k].count
  }

  lemma ObserveCounts<K>(m: map<K, Observed>, k: K, value: real)
    ensures Counts(Observe(m, k, value)) == Inc(Counts(m), k)
  {
  }

  /** Counted requests whose class and provider, or provider and error class, are selected; closed ones whose
      class is; reported ones whose provider is; and counted ones by all they are served under, or by class,
      provider and success. */
  function Timed(selects: ((string, string)) -> bool): Request -> bool {
    (r: Request) => Past(r) && r.attempt.Some? && selects((r.requestClass, r.attempt.value.provider))
  }

  function Failing(selects: ((string, ErrorClass)) -> bool): Request -> bool {
    (r: Request) => Past(r) && r.attempt.Some? && r.attempt.value.outcome.Failed? &&
                    selects((r.attempt.value.provider, r.attempt.value.outcome.error))
  }

  function Measured(selects: string -> bool): Request -> bool {
    (r: Request) => r.phase == Closed && selects(r.requestClass)
  }

  function DropReported(selects: string -> bool): Request -> bool {
    (r: Request) => r.writer == HealthRuns.Reported && r.attempt.Some? && selects(r.attempt.value.provider)
  }

  function ServedLike(g: Served -> bool): Request -> bool {
    (r: Request) => Past(r) && r.attempt.Some? &&
                    g(Served(r.tenant, r.feature, r.requestClass, r.attempt.value.provider,
                             r.attempt.value.outcome == Ok))
  }

  function Served3(g: (string, string, bool) -> bool): Request -> bool {
    ServedLike(ByKind(g))
  }

  function ByKind(g: (string, string, bool) -> bool): Served -> bool {
    (s: Served) => g(s.requestClass, s.provider, s.ok)
  }

  /** A request is counted by exactly one step, and what it is counted under does not change. */
  lemma CountedOnce(next: nat, r: Request, s: Step)
    requires Target(s).Some? && Ready(r, s)
    ensures
      var r' := Moved(next, r, s);
      && (Past(r') <==> Past(r) || s.Count?) && (s.Count? ==> !Past(r))
      && (Past(r) || s.Count? ==>
            && r.(phase := r'.phase, server := r'.server, elapsed := r'.elapsed) == r'
            && (s.Count? ==> r.attempt.Some?) && (!s.Close? ==> r'.elapsed == r.elapsed))
  {
  }

  lemma DurationStep(b: Books, w: Window, lag: real, cap: nat, s: Step, selects: ((string, string)) -> bool)
    requires w.Positive() && Enabled(b, lag, s)
    ensures Total(Counts(Next(b, w, lag, cap, s).requestDuration), selects) ==
            Total(Counts(b.requestDuration), selects) + Gain(b, lag, s, Timed(selects))
  {
    hide Total, Counts, Inc, Observe, SeriesAt, HealthRuns.StepOf, HealthRuns.Enabled;
    if s.Count? {
      var r := b.requests[s.k];
      var key := (r.requestClass, r.attempt.value.provider);
      ObserveCounts(b.requestDuration, key, r.attempt.value.latencyMs / 1000.0);
      TotalInc(Counts(b.requestDuration), selects, key);
    }
    if Target(s).Some? {
      CountedOnce(|b.system.records|, b.requests[Target(s).value], s);
    }
  }

  lemma ErrorStep(b: Books, w: Window, lag: real, cap: nat, s: Step, selects: ((string, ErrorClass)) -> bool)
    requires w.Positive() && Enabled(b, lag, s)
    ensures Total(Next(b, w, lag, cap, s).providerErrors, selects) ==
            Total(b.providerErrors, selects) + Gain(b, lag, s, Failing(selects))
  {
    hide Total, Inc, Observe, SeriesAt, HealthRuns.StepOf, HealthRuns.Enabled;
    if s.Count? && b.requests[s.k].attempt.value.outcome.Failed? {
      var a := b.requests[s.k].attempt.value;
      TotalInc(b.providerErrors, selects, (a.provider, a.outcome.error));
    }
    if Target(s).Some? {
      CountedOnce(|b.system.records|, b.requests[Target(s).value], s);
    }
  }

  lemma OverheadStep(b: Books, w: Window, lag: real, cap: nat, s: Step, selects: string -> bool)
    requires w.Positive() && Enabled(b, lag, s)
    ensures Total(Counts(Next(b, w, lag, cap, s).gatewayOverhead), selects) ==
            Total(Counts(b.gatewayOverhead), selects) + Gain(b, lag, s, Measured(selects))
  {
    hide Total, Counts, Inc, Observe, SeriesAt, HealthRuns.StepOf, HealthRuns.Enabled;
    if s.Close? {
      var requestClass := b.requests[s.k].requestClass;
      var overhead := s.elapsed - b.requests[s.k].attempt.value.latencyMs / 1000.0;
      ObserveCounts(b.gatewayOverhead, requestClass, if overhead < 0.0 then 0.0 else overhead);
      TotalInc(Counts(b.gatewayOverhead), selects, requestClass);
    }
  }

  lemma DropStep(b: Books, w: Window, lag: real, cap: nat, s: Step, selects: string -> bool)
    requires w.Positive() && Enabled(b, lag, s) && AllSound(b.requests) && Linked(b)
    ensures Total(Next(b, w, lag, cap, s).healthWritesDropped, selects) ==
            Total(b.healthWritesDropped, selects) + Gain(b, lag, s, DropReported(selects))
  {
    hide Total, Inc, Observe, SeriesAt, HealthRuns.StepOf, HealthRuns.Enabled;
    if Target(s).Some? {
      LinkedMirrors(b, Target(s).value);
      assert Sound(b.requests[Target(s).value]);
    }
    if s.Report? {
      TotalInc(b.healthWritesDropped, selects, b.system.records[s.i].attempt.provider);
    }
  }

  /** At every instant of every run and for every selection of series: durations and errors are the requests
      counted, overheads the requests closed, dropped writes the requests whose record was reported lost. */
  lemma {:induction false} EverySeriesBalances(w: Window, lag: real, cap: nat, steps: seq<Step>,
                                               timed: ((string, string)) -> bool,
                                               failing: ((string, ErrorClass)) -> bool,
                                               measured: string -> bool, reported: string -> bool)
    requires w.Positive() && After(w, lag, cap, steps).Some?
    ensures
      var b := After(w, lag, cap, steps).value;
      && Total(Counts(b.requestDuration), timed) == CountIf(b.requests, Timed(timed))
      && Total(b.providerErrors, failing) == CountIf(b.requests, Failing(failing))
      && Total(Counts(b.gatewayOverhead), measured) == CountIf(b.requests, Measured(measured))
      && Total(b.healthWritesDropped, reported) == CountIf(b.requests, DropReported(reported))
  {
    if steps != [] {
      hide After, CountIf, Next, Gain, Timed, Failing, Measured, DropReported, AllSound, Linked, Enabled, Total, Counts;
      var init, s := steps[..|steps| - 1], steps[|steps| - 1];
      StepOfRun(w, lag, cap, steps);
      EverySeriesBalances(w, lag, cap, init, timed, failing, measured, reported);
      EveryRequestSound(w, lag, cap, init);
      var b := After(w, lag, cap, init).value;
      DurationStep(b, w, lag, cap, s, timed);
      CountNext(b, w, lag, cap, s, Timed(timed));
      ErrorStep(b, w, lag, cap, s, failing);
      CountNext(b, w, lag, cap, s, Failing(failing));
      OverheadStep(b, w, lag, cap, s, measured);
      CountNext(b, w, lag, cap, s, Measured(measured));
      DropStep(b, w, lag, cap, s, reported);
      CountNext(b, w, lag, cap, s, DropReported(reported));
    }
  }

  // ----- the sums of the histograms --------------------------------------------------------------

  function SumAt<K>(m: map<K, Observed>, k: K): real {
    if k in m then m[k].sum else 0.0
  }

  lemma ObserveSum<K>(m: map<K, Observed>, k: K, value: real, j: K)
    ensures SumAt(Observe(m, k, value), j) == SumAt(m, j) + if j == k then value else 0.0
  {
  }

  /** What a request adds to the durations of a class and provider, and to the overheads of a class. */
  function ProviderSeconds(key: (string, string)): Request -> real {
    (r: Request) =>
      if Past(r) && r.attempt.Some? && (r.requestClass, r.attempt.value.provider) == key then
        r.attempt.value.latencyMs / 1000.0
      else 0.0
  }

  function GatewaySeconds(requestClass: string): Request -> real {
    (r: Request) =>
      if r.phase == Closed && r.attempt.Some? && r.requestClass == requestClass
         && r.elapsed > r.attempt.value.latencyMs / 1000.0
      then r.elapsed - r.attempt.value.latencyMs / 1000.0
      else 0.0
  }

  /** By how much a step changes a sum over the requests. */
  function Added(b: Books, lag: real, s: Step, f: Request -> real): real
    requires Enabled(b, lag, s)
  {
    if s.Call? then f(Fresh(s.tenant, s.feature, s.requestClass))
    else if Target(s).Some? then
      f(Moved(|b.system.records|, b.requests[Target(s).value], s)) - f(b.requests[Target(s).value])
    else 0.0
  }

  lemma SumNext(b: Books, w: Window, lag: real, cap: nat, s: Step, f: Request -> real)
    requires w.Positive() && Enabled(b, lag, s)
    ensures RealSum(Next(b, w, lag, cap, s).requests, f) == RealSum(b.requests, f) + Added(b, lag, s, f)
  {
    NextSystem(b, w, lag, cap, s);
    hide RealSum, Next, Moved, Ready, HealthRuns.Enabled;
    if s.Call? {
      RealSumSnoc(b.requests, Fresh(s.tenant, s.feature, s.requestClass), f);
    } else if Target(s).Some? {
      var k := Target(s).value;
      RealSumUpdate(b.requests, k, Moved(|b.system.records|, b.requests[k], s), f);
    }
  }

  lemma DurationSumStep(b: Books, w: Window, lag: real, cap: nat, s: Step, key: (string, string))
    requires w.Positive() && Enabled(b, lag, s)
    ensures SumAt(Next(b, w, lag, cap, s).requestDuration, key) ==
            SumAt(b.requestDuration, key) + Added(b, lag, s, ProviderSeconds(key))
  {
    hide SumAt, Inc, Observe, SeriesAt, HealthRuns.StepOf, HealthRuns.Enabled;
    if s.Count? {
      var r := b.requests[s.k];
      var a := r.attempt.value;
      ObserveSum(b.requestDuration, (r.requestClass, a.provider), a.latencyMs / 1000.0, key);
    }
    if Target(s).Some? {
      CountedOnce(|b.system.records|, b.requests[Target(s).value], s);
    }
  }

  lemma OverheadSumStep(b: Books, w: Window, lag: real, cap: nat, s: Step, requestClass: string)
    requires w.Positive() && Enabled(b, lag, s) && AllSound(b.requests)
    ensures SumAt(Next(b, w, lag, cap, s).gatewayOverhead, requestClass) ==
            SumAt(b.gatewayOverhead, requestClass) + Added(b, lag, s, GatewaySeconds(requestClass))
  {
    hide SumAt, Inc, Observe, SeriesAt, HealthRuns.StepOf, HealthRuns.Enabled;
    if s.Close? {
      var r := b.requests[s.k];
      var overhead := s.elapsed - r.attempt.value.latencyMs / 1000.0;
      ObserveSum(b.gatewayOverhead, r.requestClass, if overhead < 0.0 then 0.0 else overhead, requestClass);
    }
    if Target(s).Some? {
      assert Sound(b.requests[Target(s).value]);
      CountedOnce(|b.system.records|, b.requests[Target(s).value], s);
    }
  }

  /** At every instant of every run, per class and provider, the durations observed sum to the time the provider took
      over the requests counted, in seconds; and per class the overheads sum to what was left of the wall clock of
      the requests closed, nothing where the provider's time exceeds it. */
  lemma {:induction false} SumsBalance(w: Window, lag: real, cap: nat, steps: seq<Step>, key: (string, string))
    requires w.Positive() && After(w, lag, cap, steps).Some?
    ensures
      var b := After(w, lag, cap, steps).value;
      && SumAt(b.requestDuration, key) == RealSum(b.requests, ProviderSeconds(key))
      && SumAt(b.gatewayOverhead, key.0) == RealSum(b.requests, GatewaySeconds(key.0))
  {
    if steps != [] {
      hide After, RealSum, Next, Added, ProviderSeconds, GatewaySeconds, AllSound, Enabled, SumAt;
      var init, s := steps[..|steps| - 1], steps[|steps| - 1];
      StepOfRun(w, lag, cap, steps);
      SumsBalance(w, lag, cap, init, key);
      EveryRequestSound(w, lag, cap, init);
      var b := After(w, lag, cap, init).value;
      DurationSumStep(b, w, lag, cap, s, key);
      SumNext(b, w, lag, cap, s, ProviderSeconds(key));
      OverheadSumStep(b, w, lag, cap, s, key.0);
      SumNext(b, w, lag, cap, s, GatewaySeconds(key.0));
    }
  }

  // ----- the request series ------------------------------------------------------------------------

  /** Series selected by what is not client-supplied. */
  function SeriesBy(g: (string, string, bool) -> bool): Series -> bool {
    (s: Series) => g(s.requestClass, s.provider, s.ok)
  }

  lemma {:induction false} SelectedIsServed(history: seq<Served>, cap: nat, n: nat, g: (string, string, bool) -> bool)
    requires n <= |history|
    ensures CountSelected(history, cap, n, SeriesBy(g)) == CountIf(history[..n], ByKind(g))
  {
    hide LabelAt;
    if n > 0 {
      SelectedIsServed(history, cap, n - 1, g);
      assert history[..n][..n - 1] == history[..n - 1];
    }
  }

  lemma HistoryStep(b: Books, w: Window, lag: real, cap: nat, s: Step, g: Served -> bool)
    requires w.Positive() && Enabled(b, lag, s) && b.requestsTotal == TableOf(b.history, cap, |b.history|)
    ensures
      var b' := Next(b, w, lag, cap, s);
      && b'.requestsTotal == TableOf(b'.history, cap, |b'.history|)
      && CountIf(b'.history, g) == CountIf(b.history, g) + Gain(b, lag, s, ServedLike(g))
  {
    hide TableOf, Inc, Observe, SeriesAt, SeenAfter, Admit, CountIf, HealthRuns.StepOf, HealthRuns.Enabled;
    if s.Count? {
      var served := ServedOf(b.requests[s.k]);
      NextRequest(b.history, served, cap);
      CountIfSnoc(b.history, served, g);
    }
    if Target(s).Some? {
      CountedOnce(|b.system.records|, b.requests[Target(s).value], s);
    }
  }

  lemma {:induction false} HistoryIsCounted(w: Window, lag: real, cap: nat, steps: seq<Step>, g: Served -> bool)
    requires w.Positive() && After(w, lag, cap, steps).Some?
    ensures
      var b := After(w, lag, cap, steps).value;
      && b.requestsTotal == TableOf(b.history, cap, |b.history|)
      && CountIf(b.history, g) == CountIf(b.requests, ServedLike(g))
  {
    if steps != [] {
      hide After, CountIf, Next, Gain, ServedLike, Enabled, TableOf;
      var init, s := steps[..|steps| - 1], steps[|steps| - 1];
      StepOfRun(w, lag, cap, steps);
      HistoryIsCounted(w, lag, cap, init, g);
      var b := After(w, lag, cap, init).value;
      HistoryStep(b, w, lag, cap, s, g);
      CountNext(b, w, lag, cap, s, ServedLike(g));
    }
  }

  /** ... and the request series, by any selection of class, provider and outcome, are the requests counted,
      whatever became of the tenant and feature labels. */
  lemma RequestSeriesBalance(w: Window, lag: real, cap: nat, steps: seq<Step>, g: (string, string, bool) -> bool)
    requires w.Positive() && After(w, lag, cap, steps).Some?
    ensures
      var b := After(w, lag, cap, steps).value;
      Total(b.requestsTotal, SeriesBy(g)) == CountIf(b.requests, Served3(g))
  {
    var b := After(w, lag, cap, steps).value;
    HistoryIsCounted(w, lag, cap, steps, ByKind(g));
    TotalIsCount(b.history, cap, |b.history|, SeriesBy(g));
    SelectedIsServed(b.history, cap, |b.history|, g);
    assert b.history[..|b.history|] == b.history;
    hide After, CountIf, Total, TableOf, CountSelected, ServedLike, ByKind, SeriesBy;
  }

  function Same(tag: string): string -> bool {
    (v: string) => v == tag
  }

  function Outside(kept: set<string>): string -> bool {
    (v: string) => v !in kept
  }

  function ByTenant(f: string -> bool): Served -> bool {
    (s: Served) => f(s.tenant)
  }

  function ByFeature(f: string -> bool): Served -> bool {
    (s: Served) => f(s.feature)
  }

  /** Requests counted, by a property of their tenant, or of their feature. */
  function WithTenant(f: string -> bool): Request -> bool {
    (r: Request) => Past(r) && f(r.tenant)
  }

  function WithFeature(f: string -> bool): Request -> bool {
    (r: Request) => Past(r) && f(r.feature)
  }

  lemma CarriedBy(w: Window, lag: real, cap: nat, steps: seq<Step>, f: string -> bool)
    requires w.Positive() && After(w, lag, cap, steps).Some?
    ensures
      var b := After(w, lag, cap, steps).value;
      && b.requestsTotal == TableOf(b.history, cap, |b.history|)
      && CountIf(b.history, ByTenant(f)) == CountIf(b.requests, WithTenant(f))
      && CountIf(b.history, ByFeature(f)) == CountIf(b.requests, WithFeature(f))
  {
    var b := After(w, lag, cap, steps).value;
    EveryRequestSound(w, lag, cap, steps);
    HistoryIsCounted(w, lag, cap, steps, ByTenant(f));
    HistoryIsCounted(w, lag, cap, steps, ByFeature(f));
    hide After, TableOf, CountIf, ServedLike, WithTenant, WithFeature, AllSound;
    PastIsServed(b.requests, f);
  }

  lemma PastIsServed(rs: seq<Request>, f: string -> bool)
    requires AllSound(rs)
    ensures CountIf(rs, ServedLike(ByTenant(f))) == CountIf(rs, WithTenant(f))
    ensures CountIf(rs, ServedLike(ByFeature(f))) == CountIf(rs, WithFeature(f))
  {
    hide CountIf;
    forall r | r in rs
      ensures ServedLike(ByTenant(f))(r) <==> WithTenant(f)(r)
      ensures ServedLike(ByFeature(f))(r) <==> WithFeature(f)(r)
    {
      assert Sound(r);
      SoundlyServed(r, f);
    }
    SameKind(rs, ServedLike(ByTenant(f)), WithTenant(f));
    SameKind(rs, ServedLike(ByFeature(f)), WithFeature(f));
  }

  lemma SoundlyServed(r: Request, f: string -> bool)
    requires Sound(r)
    ensures ServedLike(ByTenant(f))(r) <==> WithTenant(f)(r)
    ensures ServedLike(ByFeature(f))(r) <==> WithFeature(f)(r)
  {
    assert Past(r) ==> r.attempt.Some?;
  }

  lemma {:induction false} ValuesAreHistory(history: seq<Served>, n: nat, tag: string, kept: set<string>)
    requires n <= |history|
    ensures CountValue(Tenants(history), n, tag) == CountIf(history[..n], ByTenant(Same(tag)))
    ensures CountOutside(Tenants(history), n, kept) == CountIf(history[..n], ByTenant(Outside(kept)))
    ensures CountValue(Features(history), n, tag) == CountIf(history[..n], ByFeature(Same(tag)))
    ensures CountOutside(Features(history), n, kept) == CountIf(history[..n], ByFeature(Outside(kept)))
  {
    if n > 0 {
      ValuesAreHistory(history, n - 1, tag, kept);
      assert history[..n][..n - 1] == history[..n - 1];
    }
  }

  /** ... and by tenant and by feature: a label the run has admitted has, over everything else, exactly the requests
      counted that carried it, and the overflow label exactly the requests that carried any other. */
  lemma LabelSeriesBalance(w: Window, lag: real, cap: nat, steps: seq<Step>, tag: string)
    requires w.Positive() && After(w, lag, cap, steps).Some?
    ensures
      var b := After(w, lag, cap, steps).value;
      var tenants, features := SeenAfter(Tenants(b.history), cap), SeenAfter(Features(b.history), cap);
      && (tag in tenants && tag != "other" ==>
            Total(b.requestsTotal, (s: Series) => s.tenant == tag) == CountIf(b.requests, WithTenant(Same(tag))))
      && Total(b.requestsTotal, (s: Series) => s.tenant == "other") ==
         CountIf(b.requests, WithTenant(Outside(tenants - {"other"})))
      && (tag in features && tag != "other" ==>
            Total(b.requestsTotal, (s: Series) => s.feature == tag) == CountIf(b.requests, WithFeature(Same(tag))))
      && Total(b.requestsTotal, (s: Series) => s.feature == "other") ==
         CountIf(b.requests, WithFeature(Outside(features - {"other"})))
  {
    var b := After(w, lag, cap, steps).value;
    var n := |b.history|;
    var tenants, features := SeenAfter(Tenants(b.history), cap), SeenAfter(Features(b.history), cap);
    SeriesAreLossless(b.history, cap, tag);
    assert b.history[..n] == b.history;
    hide After, Total, TableOf, SeenAfter, CountIf, CountValue, CountOutside, WithTenant, WithFeature, ByTenant,
         ByFeature, Same, Outside;
    CarriedBy(w, lag, cap, steps, Same(tag));
    CarriedBy(w, lag, cap, steps, Outside(tenants - {"other"}));
    CarriedBy(w, lag, cap, steps, Outside(features - {"other"}));
    ValuesAreHistory(b.history, n, tag, tenants - {"other"});
    ValuesAreHistory(b.history, n, tag, features - {"other"});
  }

  // ----- conservation ----------------------------------------------------------------------------------

  function ErrorsOf(p: string, c: ErrorClass): ((string, ErrorClass)) -> bool {
    (key: (string, ErrorClass)) => key == (p, c)
  }

  function TimedAt(p: string): ((string, string)) -> bool {
    (key: (string, string)) => key.1 == p
  }

  function OkOf(p: string): (string, string, bool) -> bool {
    (requestClass: string, provider: string, ok: bool) => provider == p && ok
  }

  function Only(p: string): string -> bool {
    (provider: string) => provider == p
  }

  /** Window and counters, per provider and outcome, at every instant of any interleaving, transactions that run
      after their writer gave up included: the commits, and the requests past recording whose record is not in
      the store, or not yet, make up the requests counted, those whose record ran or was reported and which are
      about to be, and those cancelled although their record ran; and none exceeds the calls. Counted means
      counted by the error series of that provider and class, or by the request series of its successes. */
  lemma CommitsMatchCounters(w: Window, lag: real, cap: nat, steps: seq<Step>, p: string, o: Outcome)
    requires w.Positive() && After(w, lag, cap, steps).Some?
    ensures
      var b := After(w, lag, cap, steps).value;
      var commits, missing := HealthRuns.CountLog(b.system.held.log, p, o), CountIf(b.requests, Missing(p, o));
      var counted := match o
                     case Ok => Total(b.requestsTotal, SeriesBy(OkOf(p)))
                     case Failed(c) => Total(b.providerErrors, ErrorsOf(p, c));
      && commits + missing == counted + CountIf(b.requests, Awaiting(p, o)) + CountIf(b.requests, Orphaned(p, o))
      && counted <= commits + missing <= CountIf(b.requests, Tried(p, o)) <= |b.requests|
      && missing <= Total(b.healthWritesDropped, Only(p))
  {
    var b := After(w, lag, cap, steps).value;
    LogIsLanded(w, lag, cap, steps, p, o);
    EveryRequestSound(w, lag, cap, steps);
    Whereabouts(b.requests, p, o);
    match o
    case Ok =>
      RequestSeriesBalance(w, lag, cap, steps, OkOf(p));
      SameKind(b.requests, Served3(OkOf(p)), CountedAs(p, o));
      EverySeriesBalances(w, lag, cap, steps, TimedAt(p), ErrorsOf(p, Timeout), Only(p), Only(p));
    case Failed(c) =>
      EverySeriesBalances(w, lag, cap, steps, TimedAt(p), ErrorsOf(p, c), Only(p), Only(p));
      SameKind(b.requests, Failing(ErrorsOf(p, c)), CountedAs(p, o));
  }

  /** Where the records of one provider and outcome are. */
  lemma Whereabouts(rs: seq<Request>, p: string, o: Outcome)
    requires AllSound(rs)
    ensures CountIf(rs, InStore(p, o)) + CountIf(rs, Missing(p, o)) ==
            CountIf(rs, CountedAs(p, o)) + CountIf(rs, Awaiting(p, o)) + CountIf(rs, Orphaned(p, o))
    ensures CountIf(rs, InStore(p, o)) + CountIf(rs, Missing(p, o)) <= CountIf(rs, Tried(p, o)) <= |rs|
    ensures CountIf(rs, Missing(p, o)) <= CountIf(rs, DropReported(Only(p)))
  {
    var none := (r: Request) => false;
    hide CountIf, InStore, Missing, CountedAs, Awaiting, Orphaned, Tried, Kept, DropReported, Sound;
    forall r | r in rs
      ensures
        && Unit(InStore(p, o)(r)) + Unit(Missing(p, o)(r)) ==
           Unit(CountedAs(p, o)(r)) + Unit(Awaiting(p, o)(r)) + Unit(Orphaned(p, o)(r))
        && Unit(InStore(p, o)(r)) + Unit(Missing(p, o)(r)) == Unit(Kept(p, o)(r))
        && (Kept(p, o)(r) ==> Tried(p, o)(r)) && (Missing(p, o)(r) ==> DropReported(Only(p))(r))
    {
      assert Sound(r);
      Whereabout(r, p, o);
    }
    CountIfSplit(rs, InStore(p, o), Missing(p, o), CountedAs(p, o), Awaiting(p, o), Orphaned(p, o));
    CountIfSplit(rs, InStore(p, o), Missing(p, o), Kept(p, o), none, none);
    CountIfNone(rs, none);
    CountIfBounds(rs, Kept(p, o), Tried(p, o));
    CountIfBounds(rs, Missing(p, o), DropReported(Only(p)));
  }

  function Unit(b: bool): nat {
    if b then 1 else 0
  }

  function Kept(p: string, o: Outcome): Request -> bool {
    (r: Request) => InStore(p, o)(r) || Missing(p, o)(r)
  }

  /** Where the record of one request is. */
  lemma Whereabout(r: Request, p: string, o: Outcome)
    requires Sound(r)
    ensures Unit(InStore(p, o)(r)) + Unit(Missing(p, o)(r)) ==
            Unit(CountedAs(p, o)(r)) + Unit(Awaiting(p, o)(r)) + Unit(Orphaned(p, o)(r))
    ensures Unit(InStore(p, o)(r)) + Unit(Missing(p, o)(r)) == Unit(Kept(p, o)(r))
    ensures Kept(p, o)(r) ==> Tried(p, o)(r)
    ensures Missing(p, o)(r) ==> DropReported(Only(p))(r)
  {
  }

  /** Once every request is closed and no write was dropped, the commits of the window are the counters, provider
      by provider and class by class. */
  lemma QuiescentBooksAgree(w: Window, lag: real, cap: nat, steps: seq<Step>, p: string)
    requires w.Positive() && After(w, lag, cap, steps).Some?
    requires forall r :: r in After(w, lag, cap, steps).value.requests ==> r.phase == Closed
    requires Total(After(w, lag, cap, steps).value.healthWritesDropped, Only(p)) == 0
    ensures
      var b := After(w, lag, cap, steps).value;
      && HealthRuns.CountLog(b.system.held.log, p, Ok) == Total(b.requestsTotal, SeriesBy(OkOf(p)))
      && forall c :: HealthRuns.CountLog(b.system.held.log, p, Failed(c)) == Total(b.providerErrors, ErrorsOf(p, c))
  {
    var b := After(w, lag, cap, steps).value;
    NoneUnderWay(b.requests, p, Ok);
    CommitsMatchCounters(w, lag, cap, steps, p, Ok);
    forall c ensures HealthRuns.CountLog(b.system.held.log, p, Failed(c)) == Total(b.providerErrors, ErrorsOf(p, c)) {
      NoneUnderWay(b.requests, p, Failed(c));
      CommitsMatchCounters(w, lag, cap, steps, p, Failed(c));
    }
  }

  lemma NoneUnderWay(rs: seq<Request>, p: string, o: Outcome)
    requires forall r :: r in rs ==> r.phase == Closed
    ensures CountIf(rs, Awaiting(p, o)) == 0 && CountIf(rs, Orphaned(p, o)) == 0
  {
    var none := (r: Request) => false;
    CountIfNone(rs, none);
    SameKind(rs, Awaiting(p, o), none);
    SameKind(rs, Orphaned(p, o), none);
  }

  /** The window never reports more failures of a class than the error series will show: at every instant, for
      every window, a read exceeds the series by no more than the requests between record and count, or
      abandoned there. */
  lemma ReadAgainstErrorSeries(w: Window, lag: real, cap: nat, steps: seq<Step>, p: string, c: ErrorClass, lo: int,
                               replies: seq<map<string, Raw>>)
    requires w.Positive() && After(w, lag, cap, steps).Some?
    requires HealthRuns.Answers(replies, After(w, lag, cap, steps).value.system.held.db, p, lo)
    ensures
      var b := After(w, lag, cap, steps).value;
      Merged(replies, Failed(c)) <=
      Total(b.providerErrors, ErrorsOf(p, c)) + CountIf(b.requests, Awaiting(p, Failed(c)))
      + CountIf(b.requests, Orphaned(p, Failed(c)))
  {
    var b := After(w, lag, cap, steps).value;
    RecordsAreARun(w, lag, cap, steps);
    HealthRuns.NoReadInventsCommits(w, lag, StoreSteps(steps), p, lo, replies, Failed(c));
    CommitsMatchCounters(w, lag, cap, steps, p, Failed(c));
  }

  /** Conservation of the totals. At every instant of any interleaving, requests counted equal durations
      observed, neither overheads nor provider errors exceed them, and none exceeds the executor calls; once
      every request is closed, requests, durations, overheads and calls are all the same number. */
  lemma CountersAgree(w: Window, lag: real, cap: nat, steps: seq<Step>)
    requires w.Positive() && After(w, lag, cap, steps).Some?
    ensures
      var b := After(w, lag, cap, steps).value;
      var requests := Total(b.requestsTotal, s => true);
      var durations := Total(Counts(b.requestDuration), k => true);
      var overheads := Total(Counts(b.gatewayOverhead), k => true);
      && Total(b.providerErrors, k => true) <= requests && overheads <= requests == durations <= |b.requests|
      && ((forall r :: r in b.requests ==> r.phase == Closed) <==> overheads == |b.requests|)
      && (overheads == |b.requests| ==> overheads == requests == durations == |b.requests|)
  {
    var b := After(w, lag, cap, steps).value;
    EverySeriesBalances(w, lag, cap, steps, k => true, k => true, k => true, k => true);
    EveryRequestSound(w, lag, cap, steps);
    HistoryIsCounted(w, lag, cap, steps, ByKind((c, p, ok) => true));
    hide After, Total, TableOf, CountIf, Counts, CountSelected, Timed, Failing, Measured, ServedLike, ByKind;
    TotalIsCount(b.history, cap, |b.history|, s => true);
    CountEverything(b.history, cap, |b.history|);
    EveryoneServed(b.history);
    TotalsNest(b.requests);
  }

  lemma {:induction false} EveryoneServed(history: seq<Served>)
    ensures CountIf(history, ByKind((c, p, ok) => true)) == |history|
  {
    if history != [] {
      EveryoneServed(history[..|history| - 1]);
    }
  }

  lemma TotalsNest(rs: seq<Request>)
    requires AllSound(rs)
    ensures
      var timed, closed := CountIf(rs, Timed(k => true)), CountIf(rs, Measured(k => true));
      && CountIf(rs, Failing(k => true)) <= timed && closed <= timed <= |rs|
      && CountIf(rs, Served3((c, p, ok) => true)) == timed
      && ((forall r :: r in rs ==> r.phase == Closed) <==> closed == |rs|)
  {
    hide CountIf;
    forall r: Request | r in rs
      ensures Measured(k => true)(r) <==> r.phase == Closed
      ensures Timed(k => true)(r) <==> Past(r)
    {
      assert Sound(r);
    }
    CountIfBounds(rs, Measured(k => true), Timed(k => true));
    CountIfBounds(rs, Failing(k => true), Timed(k => true));
    SameKind(rs, Served3((c, p, ok) => true), Timed(k => true));
  }
}
