/** One request through the gateway: route, execute, record, count. */
module Gateway {
  import opened Common
  import opened Taxonomy
  import opened Geometry
  import opened Keys
  import opened Redis
  import opened WindowLog
  import opened HealthStore
  import opened HealthWindow
  import opened Labels
  import opened Metrics
  import opened Envelope
  import opened Startup

  /** How the provider behaves on one call: what it would answer, and whether it overruns a deadline. */
  datatype Call = Call(outcome: Outcome, latencyMs: Latency, overran: bool)

  /** The readings and the store link one call meets. */
  datatype Surroundings = Surroundings(started: real, now: real, reading: real, link: Link)

  /** Wall-clock milliseconds, never negative even if the clock stepped back. */
  function ElapsedMs(started: real, now: real): Latency {
    var ms := (now - started) * 1000.0;
    if ms < 0.0 then 0.0 else ms
  }

  /** The one result of an attempt: the adapter's own, or the timeout it never got to report. */
  function ResultOf(c: KeelConfig, adapter: Adapter, name: string, call: Call, at: Surroundings): Attempt
    requires name in c.Providers()
  {
    if c.Providers()[name].timeoutMs.Some? && call.overran then
      Attempt(name, Failed(Timeout), ElapsedMs(at.started, at.now))
    else
      Attempt(adapter.name, call.outcome, call.latencyMs)
  }

  function ErrorOf(o: Outcome): Option<ErrorClass> {
    match o
    case Ok => None
    case Failed(c) => Some(c)
  }

  function AttemptedAs(requestClass: string, a: Attempt): Attempted {
    Attempted(requestClass, a.provider, a.latencyMs / 1000.0, ErrorOf(a.outcome))
  }

  class Executor {
    const config: KeelConfig
    const registry: map<string, Adapter>
    const tracker: HealthTracker
    const metrics: MetricsCatalogue

    ghost predicate Wired() {
      && tracker.window == config.breaker && config.breaker.Valid()
      && forall n :: n in registry ==> n in config.Providers()
    }

    constructor (config: KeelConfig, registry: map<string, Adapter>, tracker: HealthTracker, metrics: MetricsCatalogue)
      ensures this.config == config && this.registry == registry && this.tracker == tracker && this.metrics == metrics
    {
      this.config, this.registry, this.tracker, this.metrics := config, registry, tracker, metrics;
    }

    /** The attempt a request of this class leads to, or the guard that stops it. */
    function Plan(requestClass: string, call: Call, at: Surroundings): Result<Attempt, Fault>
      requires forall n :: n in registry ==> n in config.Providers()
    {
      match FirstCandidate(config, requestClass)
      case Failure(f) => Failure(f)
      case Success(name) =>
        match AdapterFor(registry, name)
        case Failure(f) => Failure(f)
        case Success(adapter) => Success(ResultOf(config, adapter, name, call, at))
    }

    /** Run one attempt: recorded once and observed once, whatever its outcome; a guard leaves no trace. */
    method Execute(requestClass: string, call: Call, at: Surroundings) returns (r: Result<Attempt, Fault>)
      requires Wired()
      modifies tracker`dropped, tracker.store, metrics`requestDuration, metrics`providerErrors
      ensures r == Plan(requestClass, call, at)
      ensures r.Failure? ==>
                && tracker.store.State() == old(tracker.store.State()) && tracker.dropped == old(tracker.dropped)
                && metrics.requestDuration == old(metrics.requestDuration)
                && metrics.providerErrors == old(metrics.providerErrors)
      ensures r.Success? ==>
                && tracker.store.State() ==
                   (if at.link.Unsent? then old(tracker.store.State())
                    else Next(old(tracker.store.State()), config.breaker,
                              Lands(r.value, config.breaker.BucketOf(at.reading), at.reading)))
                && metrics.requestDuration ==
                   Observe(old(metrics.requestDuration), (requestClass, r.value.provider), r.value.latencyMs / 1000.0)
                && metrics.providerErrors == match r.value.outcome
                                             case Ok => old(metrics.providerErrors)
                                             case Failed(c) => Inc(old(metrics.providerErrors), (r.value.provider, c))
      ensures old(tracker.store.State()).Consistent(config.breaker) ==>
                && tracker.store.State().Consistent(config.breaker)
                && (r.Success? ==>
                      tracker.dropped == old(tracker.dropped) + if at.link.Delivered? then [] else [r.value.provider])
    {
      hide Next;
      var names := Candidates(config, requestClass);
      if names.Failure? {
        return Failure(names.error);
      }
      if names.value == [] {
        return Failure(NoCandidates);
      }
      var name := names.value[0];
      var adapter := AdapterFor(registry, name);
      if adapter.Failure? {
        return Failure(adapter.error);
      }
      var attempt := ResultOf(config, adapter.value, name, call, at);
      tracker.Record(attempt, at.reading, at.link);
      metrics.ObserveAttempt(AttemptedAs(requestClass, attempt));
      return Success(attempt);
    }
  }

  datatype Response =
    | Rejected(rejection: Rejection)
    | Completed(provider: string, requestId: string, error: Option<ErrorClass>)
    | Broken(fault: Fault)

  const STREAM_KEY := "stream"

  predicate Streaming(payload: Fields) {
    Get(payload, STREAM_KEY) == Some(Bool(true))
  }

  /** The ingress route and the overhead middleware around it. */
  class Ingress {
    const executor: Executor

    constructor (executor: Executor)
      ensures this.executor == executor
    {
      this.executor := executor;
    }

    /**
      Serve one request. A rejected request leaves every series and the health window alone. A served one,
      failed or not, is counted once under its own tenant, feature, class, provider and outcome, and its
      overhead is the wall clock less the provider's time, never below zero.
     */
    method ChatCompletions(headers: Headers, body: Fields, now: real, call: Call, at: Surroundings, elapsed: real)
      returns (response: Response)
      requires executor.Wired() && executor.metrics.Valid()
      modifies executor.tracker`dropped, executor.tracker.store
      modifies executor.metrics, executor.metrics.tenants, executor.metrics.features
      ensures executor.metrics.Valid()
      ensures
        var m, classes := executor.metrics, executor.config.Classes();
        if Expected(headers, body, classes) != [] || Get(body, "stream") == Some(Bool(true)) then
          && response.Rejected?
          && response.rejection.problems ==
             (if Expected(headers, body, classes) != [] then Expected(headers, body, classes)
              else [Problem("stream", None, Invalid)])
          && (response.rejection.kind == MalformedRequest <==>
              exists p :: p in response.rejection.problems && (p.code == Invalid || p.code == UnknownField))
          && response.rejection.requestId == Resolved(Lowered(headers), ExtensionOf(body), RequestId)
          && m.history == old(m.history) && m.requestsTotal == old(m.requestsTotal)
          && m.requestDuration == old(m.requestDuration) && m.gatewayOverhead == old(m.gatewayOverhead)
          && m.providerErrors == old(m.providerErrors)
          && executor.tracker.store.State() == old(executor.tracker.store.State())
        else
          var e := EnvelopeFor(headers, body, classes, now);
          match executor.Plan(e.requestClass, call, at)
          case Failure(f) =>
            && response == Broken(f)
            && m.history == old(m.history) && m.requestDuration == old(m.requestDuration)
            && m.gatewayOverhead == old(m.gatewayOverhead) && m.providerErrors == old(m.providerErrors)
            && m.requestsTotal == old(m.requestsTotal)
            && executor.tracker.store.State() == old(executor.tracker.store.State())
          case Success(a) =>
            && response == Completed(a.provider, e.requestId, ErrorOf(a.outcome))
            && m.history == old(m.history) + [Served(e.tenant, e.feature, e.requestClass, a.provider, a.outcome == Ok)]
            && m.requestDuration == Observe(old(m.requestDuration), (e.requestClass, a.provider), a.latencyMs / 1000.0)
            && m.providerErrors == (match a.outcome
                                    case Ok => old(m.providerErrors)
                                    case Failed(c) => Inc(old(m.providerErrors), (a.provider, c)))
            && executor.tracker.store.State() ==
               (if at.link.Unsent? then old(executor.tracker.store.State())
                else Next(old(executor.tracker.store.State()), executor.config.breaker,
                          Lands(a, executor.config.breaker.BucketOf(at.reading), at.reading)))
            && m.gatewayOverhead == Observe(old(m.gatewayOverhead), e.requestClass,
                                            if elapsed - a.latencyMs / 1000.0 < 0.0 then 0.0
                                            else elapsed - a.latencyMs / 1000.0)
    {
      hide SeenAfter, TableOf, Expected, EnvelopeFor, Candidates, FirstCandidate, AdapterFor, ResultOf, Next,
           PayloadOf, ExtensionOf, Resolved, Lowered, Get, Streaming, Observe, Inc, SeriesAt, Matches, KindsApart,
           WellTimed;
      var built := BuildEnvelope(headers, body, executor.config.Classes(), now);
      if built.Failure? {
        return Rejected(built.error);
      }
      var envelope := built.value;
      PayloadCarried(headers, body, executor.config.Classes(), now);
      StreamingIs(body);
      if Streaming(envelope.payload) {
        var rejection := RaiseFor([Problem(STREAM_KEY, None, Invalid)], Some(envelope.requestId));
        assert rejection.Some?;
        return Rejected(rejection.value);
      }
      var r := executor.Execute(envelope.requestClass, call, at);
      if r.Failure? {
        return Broken(r.error);
      }
      var a := r.value;
      var served := Served(envelope.tenant, envelope.feature, envelope.requestClass, a.provider, a.outcome == Ok);
      executor.metrics.ObserveRequest(served);
      executor.metrics.ObserveOverhead(envelope.requestClass, elapsed - a.latencyMs / 1000.0);
      return Completed(a.provider, envelope.requestId, ErrorOf(a.outcome));
    }
  }

  lemma StreamingIs(body: Fields)
    ensures Streaming(PayloadOf(body)) <==> Get(body, "stream") == Some(Bool(true))
  {
    PayloadIsBodyMinusExtension(body, STREAM_KEY);
  }

  lemma PayloadCarried(headers: Headers, body: Fields, classes: map<string, ClassConfig>, now: real)
    requires Expected(headers, body, classes) == []
    ensures EnvelopeFor(headers, body, classes, now).payload == PayloadOf(body)
    ensures Some(EnvelopeFor(headers, body, classes, now).requestId) ==
            Resolved(Lowered(headers), ExtensionOf(body), RequestId)
  {
    NoProblems(headers, body, classes);
    hide Resolved, Expected, Tags, Lowered, ExtensionOf;
  }

  /** Which guard stops a request, whatever the configuration and the registry: its class is not configured, has no
      preference, or prefers a provider without an adapter. */
  lemma GuardsFireIff(x: Executor, requestClass: string, call: Call, at: Surroundings)
    requires forall n :: n in x.registry ==> n in x.config.Providers()
    ensures
      var plan, classes := x.Plan(requestClass, call, at), x.config.Classes();
      && (plan == Failure(ClassNotConfigured) <==> requestClass !in classes)
      && (plan == Failure(NoCandidates) <==> requestClass in classes && classes[requestClass].preference == [])
      && (plan == Failure(AdapterAbsent) <==>
            && requestClass in classes && classes[requestClass].preference != []
            && classes[requestClass].preference[0] !in x.registry)
  {
  }

  /** Behind a valid configuration and its own registry, no accepted request can meet a guard; the result
      names the first preference of its class. Where the provider overran the deadline configured for it, whatever it
      would have answered, the attempt is a timeout and took the time that passed on the gateway's clock, or none
      if the clock stepped back; otherwise its outcome and its latency are the provider's own. */
  lemma NoGuardFires(x: Executor, apiKey: Option<string>, headers: Headers, body: Fields, now: real, call: Call,
                     at: Surroundings)
    requires ValidConfig(x.config) && RegistryProblems(x.config.providers, apiKey) == []
    requires x.registry == RegistryOf(x.config.providers, apiKey)
    requires Expected(headers, body, x.config.Classes()) == []
    ensures forall n :: n in x.registry ==> n in x.config.Providers()
    ensures
      var requestClass := EnvelopeFor(headers, body, x.config.Classes(), now).requestClass;
      && requestClass in x.config.Classes()
      && x.config.Classes()[requestClass].preference != []
      && x.Plan(requestClass, call, at).Success?
      && var name, attempt := x.config.Classes()[requestClass].preference[0], x.Plan(requestClass, call, at).value;
         && attempt.provider == name && name in x.config.Providers()
         && attempt.outcome ==
            (if x.config.Providers()[name].timeoutMs.Some? && call.overran then Failed(Timeout) else call.outcome)
         && attempt.latencyMs ==
            if x.config.Providers()[name].timeoutMs.Some? && call.overran then
              if (at.now - at.started) * 1000.0 > 0.0 then (at.now - at.started) * 1000.0 else 0.0
            else call.latencyMs
  {
    RegistryComplete(x.config.providers, apiKey);
    hide Expected, Mapping, RegistryOf, EnvelopeFor, ResultOf;
    RoutingIsTotal(x.config, apiKey, headers, body, now);
    var name := x.config.Classes()[EnvelopeFor(headers, body, x.config.Classes(), now).requestClass].preference[0];
    ResultIs(x.config, x.registry[name], name, call, at);
  }

  lemma ResultIs(c: KeelConfig, adapter: Adapter, name: string, call: Call, at: Surroundings)
    requires name in c.Providers() && adapter.name == name
    ensures
      var attempt, late := ResultOf(c, adapter, name, call, at), c.Providers()[name].timeoutMs.Some? && call.overran;
      && attempt.provider == name && attempt.outcome == (if late then Failed(Timeout) else call.outcome)
      && attempt.latencyMs ==
         if !late then call.latencyMs
         else if (at.now - at.started) * 1000.0 > 0.0 then (at.now - at.started) * 1000.0 else 0.0
  {
  }

  /** ... and that outcome and that latency are what the window and the series get: one attempt counted under the
      outcome, the latency as newest sample of the bucket of the moment, and one more duration of the class and
      provider, in seconds. */
  lemma AttemptIsCarried(x: Executor, apiKey: Option<string>, headers: Headers, body: Fields, now: real, call: Call,
                         at: Surroundings, attempt: Attempt, held: Held, durations: map<(string, string), Observed>)
    requires ValidConfig(x.config) && RegistryProblems(x.config.providers, apiKey) == []
    requires x.registry == RegistryOf(x.config.providers, apiKey)
    requires forall n :: n in x.registry ==> n in x.config.Providers()
    requires Expected(headers, body, x.config.Classes()) == []
    requires x.Plan(EnvelopeFor(headers, body, x.config.Classes(), now).requestClass, call, at) == Success(attempt)
    requires held.Consistent(x.config.breaker)
    ensures attempt.provider in x.config.Providers()
    ensures
      var requestClass := EnvelopeFor(headers, body, x.config.Classes(), now).requestClass;
      var name, i := attempt.provider, x.config.breaker.BucketOf(at.reading);
      var late := x.config.Providers()[name].timeoutMs.Some? && call.overran;
      var outcome := if late then Failed(Timeout) else call.outcome;
      var waited := if at.now > at.started then (at.now - at.started) * 1000.0 else 0.0;
      var ms := if late then waited else call.latencyMs;
      var after := Next(held, x.config.breaker, Lands(attempt, i, at.reading));
      var samples := after.db.LRange(LatencyKey(name, i));
      && samples != [] && samples[0] == Number(ms)
      && FieldCount(after.db.HGetAll(BucketKey(name, i)), FieldFor(outcome)) ==
         FieldCount(held.db.HGetAll(BucketKey(name, i)), FieldFor(outcome)) + 1
      && OneMore(durations, Observe(durations, (requestClass, name), attempt.latencyMs / 1000.0),
                 (requestClass, name), ms / 1000.0)
  {
    hide Expected, Mapping, RegistryOf, EnvelopeFor, Next, Observe, OneMore, ValidConfig, BucketKey, LatencyKey,
         FieldFor, FieldCount, RegistryProblems, Executor.Plan;
    NoGuardFires(x, apiKey, headers, body, now, call, at);
    var requestClass := EnvelopeFor(headers, body, x.config.Classes(), now).requestClass;
    ValidBreaker(x.config);
    LandingReadsBack(held, x.config.breaker, attempt, x.config.breaker.BucketOf(at.reading), at.reading);
    ObserveAddsOne(durations, (requestClass, attempt.provider), attempt.latencyMs / 1000.0);
  }

  lemma ValidBreaker(c: KeelConfig)
    requires ValidConfig(c)
    ensures c.breaker.Positive()
  {
  }
}
