/** Whole runs of a gateway: overlapping requests, their records in the shared store, and the counters. */
module GatewayRuns {
  import opened Common
  import opened Taxonomy
  import opened Geometry
  import opened WindowLog
  import opened Metrics
  import opened Redis
  import Gateway
  import HealthRuns

  /** How far a served request has come. Between two awaits nothing else runs, so counting the attempt and
      counting the request are one step. */
  datatype Phase = Called | Recording | Recorded | Counted | Closed | Cancelled

  /** One request from the call of the executor to the end of the middleware: its attempt and the number of its
      record once there are such, what has become of that record at the server and at the writer, and once it is
      closed how long it took on the wall clock, in seconds. */
  datatype Request = Request(
    tenant: string, feature: string, requestClass: string,
    attempt: Option<Attempt>, record: Option<nat>, phase: Phase,
    server: HealthRuns.Server, writer: HealthRuns.Writer, elapsed: real)

  datatype Books = Books(
    system: HealthRuns.System,
    requests: seq<Request>,
    history: seq<Served>,
    requestsTotal: map<Series, nat>,
    requestDuration: map<(string, string), Observed>,
    providerErrors: map<(string, ErrorClass), nat>,
    gatewayOverhead: map<string, Observed>,
    healthWritesDropped: map<string, nat>)

  const OPENING := Books(HealthRuns.INIT, [], [], map[], map[], map[], map[], map[])

  /** One step of some request, of its transaction at the server, of the server's clock, or a rejected request.
      `k` names a request, `i` its record. The transaction runs or vanishes at any time after its start, whatever
      the request has done meanwhile. */
  datatype Step =
    | Call(tenant: string, feature: string, requestClass: string)
    | Record(k: nat, attempt: Attempt, reading: real)
    | Land(k: nat, i: nat)
    | Vanish(k: nat, i: nat)
    | Hear(k: nat, i: nat)
    | Report(k: nat, i: nat)
    | CancelCall(k: nat)
    | CancelRecord(k: nat, i: nat)
    | Count(k: nat)
    | Close(k: nat, elapsed: real)
    | Pass(seconds: real)
    | Reclaim(key: string)
    | Reject

  /** The same step as the store and its records see it. */
  function StoreStep(s: Step): Option<HealthRuns.Step> {
    match s
    case Record(_, a, reading) => Some(HealthRuns.Start(a, reading))
    case Land(_, i) => Some(HealthRuns.Land(i))
    case Vanish(_, i) => Some(HealthRuns.Vanish(i))
    case Hear(_, i) => Some(HealthRuns.Hear(i))
    case Report(_, i) => Some(HealthRuns.Report(i))
    case CancelRecord(_, i) => Some(HealthRuns.Cancel(i))
    case Pass(seconds) => Some(HealthRuns.Pass(seconds))
    case Reclaim(key) => Some(HealthRuns.Reclaim(key))
    case Call(_, _, _) => None
    case CancelCall(_) => None
    case Count(_) => None
    case Close(_, _) => None
    case Reject => None
  }

  /** The request a step moves. */
  function Target(s: Step): Option<nat> {
    match s
    case Record(k, _, _) => Some(k)
    case Land(k, _) => Some(k)
    case Vanish(k, _) => Some(k)
    case Hear(k, _) => Some(k)
    case Report(k, _) => Some(k)
    case CancelCall(k) => Some(k)
    case CancelRecord(k, _) => Some(k)
    case Count(k) => Some(k)
    case Close(k, _) => Some(k)
    case Call(_, _, _) => None
    case Pass(_) => None
    case Reclaim(_) => None
    case Reject => None
  }

  /** What a request must have come to for a step of its own; the rest is up to its record. */
  predicate Ready(r: Request, s: Step) {
    match s
    case Record(_, _, _) => r.phase == Called
    case Land(_, i) => r.record == Some(i)
    case Vanish(_, i) => r.record == Some(i)
    case Hear(_, i) => r.phase == Recording && r.record == Some(i)
    case Report(_, i) => r.phase == Recording && r.record == Some(i)
    case CancelCall(_) => r.phase == Called
    case CancelRecord(_, i) => r.phase == Recording && r.record == Some(i)
    case Count(_) => r.phase == Recorded && r.attempt.Some?
    case Close(_, _) => r.phase == Counted && r.attempt.Some?
    case Call(_, _, _) => true
    case Pass(_) => true
    case Reclaim(_) => true
    case Reject => true
  }

  predicate Enabled(b: Books, lag: real, s: Step) {
    && (StoreStep(s).Some? ==> HealthRuns.Enabled(b.system, lag, StoreStep(s).value))
    && (Target(s).Some? ==> Target(s).value < |b.requests| && Ready(b.requests[Target(s).value], s))
  }

  /** The request after a step of its own; `next` is the number its record gets if it starts one. */
  function Moved(next: nat, r: Request, s: Step): Request
    requires Ready(r, s)
  {
    match s
    case Record(_, a, _) => r.(attempt := Some(a), record := Some(next), phase := Recording)
    case Land(_, _) => r.(server := HealthRuns.Executed)
    case Vanish(_, _) => r.(server := HealthRuns.Vanished)
    case Hear(_, _) => r.(phase := Recorded, writer := HealthRuns.Heard)
    case Report(_, _) => r.(phase := Recorded, writer := HealthRuns.Reported)
    case CancelCall(_) => r.(phase := Cancelled)
    case CancelRecord(_, _) => r.(phase := Cancelled, writer := HealthRuns.Cancelled)
    case Count(_) => r.(phase := Counted)
    case Close(_, elapsed) => r.(phase := Closed, elapsed := elapsed)
    case Call(_, _, _) => r
    case Pass(_) => r
    case Reclaim(_) => r
    case Reject => r
  }

  function Fresh(tenant: string, feature: string, requestClass: string): Request {
    Request(tenant, feature, requestClass, None, None, Called, HealthRuns.InFlight, HealthRuns.Waiting, 0.0)
  }

  function ServedOf(r: Request): Served
    requires r.attempt.Some?
  {
    Served(r.tenant, r.feature, r.requestClass, r.attempt.value.provider, r.attempt.value.outcome == Ok)
  }

  function RequestsAfter(b: Books, lag: real, s: Step): seq<Request>
    requires Enabled(b, lag, s)
  {
    if s.Call? then b.requests + [Fresh(s.tenant, s.feature, s.requestClass)]
    else if Target(s).Some? then
      b.requests[Target(s).value := Moved(|b.system.records|, b.requests[Target(s).value], s)]
    else b.requests
  }

  /** Each step changes the store and the series as the tracker's and the catalogue's methods do. */
  function Next(b: Books, w: Window, lag: real, cap: nat, s: Step): Books
    requires w.Positive() && Enabled(b, lag, s)
  {
    var moved := b.(
      requests := RequestsAfter(b, lag, s),
      system := match StoreStep(s) case None => b.system case Some(h) => HealthRuns.StepOf(b.system, w, lag, h));
    match s
    case Report(k, i) =>
      moved.(healthWritesDropped := Inc(b.healthWritesDropped, b.system.records[i].attempt.provider))
    case Count(k) =>
      var r := b.requests[k];
      var history := b.history + [ServedOf(r)];
      var tried := Gateway.AttemptedAs(r.requestClass, r.attempt.value);
      moved.(
        history := history,
        requestsTotal := Inc(b.requestsTotal, SeriesAt(history, cap, |b.history|)),
        requestDuration := Observe(b.requestDuration, (tried.requestClass, tried.provider), tried.seconds),
        providerErrors := match tried.error
                          case None => b.providerErrors
                          case Some(c) => Inc(b.providerErrors, (tried.provider, c)))
    case Close(k, elapsed) =>
      var overhead := elapsed - b.requests[k].attempt.value.latencyMs / 1000.0;
      moved.(gatewayOverhead := Observe(b.gatewayOverhead, b.requests[k].requestClass,
                                        if overhead < 0.0 then 0.0 else overhead))
    case Call(_, _, _) => moved
    case Record(_, _, _) => moved
    case Land(_, _) => moved
    case Vanish(_, _) => moved
    case Hear(_, _) => moved
    case CancelCall(_) => moved
    case CancelRecord(_, _) => moved
    case Pass(_) => moved
    case Reclaim(_) => moved
    case Reject => moved
  }

  function After(w: Window, lag: real, cap: nat, steps: seq<Step>): Option<Books>
    requires w.Positive()
  {
    if steps == [] then Some(OPENING)
    else
      match After(w, lag, cap, steps[..|steps| - 1])
      case None => None
      case Some(b) =>
        var s := steps[|steps| - 1];
        if Enabled(b, lag, s) then Some(Next(b, w, lag, cap, s)) else None
  }

  // ----- the run as the store sees it ------------------------------------------------

  function StoreSteps(steps: seq<Step>): seq<HealthRuns.Step> {
    if steps == [] then []
    else
      var init := StoreSteps(steps[..|steps| - 1]);
      match StoreStep(steps[|steps| - 1])
      case None => init
      case Some(h) => init + [h]
  }

  lemma NextSystem(b: Books, w: Window, lag: real, cap: nat, s: Step)
    requires w.Positive() && Enabled(b, lag, s)
    ensures Next(b, w, lag, cap, s).requests == RequestsAfter(b, lag, s)
    ensures Next(b, w, lag, cap, s).system ==
            match StoreStep(s) case None => b.system case Some(h) => HealthRuns.StepOf(b.system, w, lag, h)
  {
    hide HealthRuns.StepOf, RequestsAfter;
  }

  /** The records of a gateway's requests are a run of the shared store: everything proved of such runs holds. */
  lemma {:induction false} RecordsAreARun(w: Window, lag: real, cap: nat, steps: seq<Step>)
    requires w.Positive() && After(w, lag, cap, steps).Some?
    ensures HealthRuns.After(w, lag, StoreSteps(steps)) == Some(After(w, lag, cap, steps).value.system)
  {
    if steps != [] {
      var init, s := steps[..|steps| - 1], steps[|steps| - 1];
      RecordsAreARun(w, lag, cap, init);
      var b := After(w, lag, cap, init).value;
      hide Next, Enabled, HealthRuns.StepOf, HealthRuns.Enabled;
      assert Enabled(b, lag, s);
      EnabledInStore(b, lag, s);
      NextSystem(b, w, lag, cap, s);
      if StoreStep(s).Some? {
        var stored := StoreSteps(init);
        assert (stored + [StoreStep(s).value])[..|stored|] == stored;
      }
    }
  }

  lemma EnabledInStore(b: Books, lag: real, s: Step)
    requires Enabled(b, lag, s)
    ensures StoreStep(s).Some? ==> HealthRuns.Enabled(b.system, lag, StoreStep(s).value)
  {
  }

  /** The executor calls of a run, in order, each as the envelope labels it. */
  function Calls(steps: seq<Step>): seq<(string, string, string)> {
    if steps == [] then []
    else
      var init, s := Calls(steps[..|steps| - 1]), steps[|steps| - 1];
      if s.Call? then init + [(s.tenant, s.feature, s.requestClass)] else init
  }

  /** A request is one call, and keeps the labels it was called with. */
  lemma {:induction false} RequestsAreTheCalls(w: Window, lag: real, cap: nat, steps: seq<Step>)
    requires w.Positive() && After(w, lag, cap, steps).Some?
    ensures
      var rs := After(w, lag, cap, steps).value.requests;
      && |rs| == |Calls(steps)|
      && forall k :: 0 <= k < |rs| ==> (rs[k].tenant, rs[k].feature, rs[k].requestClass) == Calls(steps)[k]
  {
    if steps != [] {
      var init, s := steps[..|steps| - 1], steps[|steps| - 1];
      RequestsAreTheCalls(w, lag, cap, init);
      NextSystem(After(w, lag, cap, init).value, w, lag, cap, s);
      hide Next, HealthRuns.StepOf, HealthRuns.Enabled;
    }
  }

  // ----- counting requests -------------------------------------------------------------

  /** By how much a step changes the number of requests of some kind. */
  function Gain(b: Books, lag: real, s: Step, p: Request -> bool): int
    requires Enabled(b, lag, s)
  {
    if s.Call? then if p(Fresh(s.tenant, s.feature, s.requestClass)) then 1 else 0
    else if Target(s).Some? then
      var r := b.requests[Target(s).value];
      (if p(Moved(|b.system.records|, r, s)) then 1 else 0) - if p(r) then 1 else 0
    else 0
  }

  lemma CountNext(b: Books, w: Window, lag: real, cap: nat, s: Step, p: Request -> bool)
    requires w.Positive() && Enabled(b, lag, s)
    ensures CountIf(Next(b, w, lag, cap, s).requests, p) == CountIf(b.requests, p) + Gain(b, lag, s, p)
  {
    NextSystem(b, w, lag, cap, s);
    hide CountIf, Next, Moved, Ready, HealthRuns.Enabled;
    if s.Call? {
      CountIfSnoc(b.requests, Fresh(s.tenant, s.feature, s.requestClass), p);
    } else if Target(s).Some? {
      var k := Target(s).value;
      CountIfUpdate(b.requests, k, Moved(|b.system.records|, b.requests[k], s), p);
    }
  }

  // ----- what each request owes the store --------------------------------------------------

  predicate Sound(r: Request) {
    && (r.attempt.Some? <==> r.record.Some?)
    && (r.record == None ==> r.server == HealthRuns.InFlight)
    && (r.writer == HealthRuns.Heard ==> r.server == HealthRuns.Executed)
    && match r.phase
       case Called => r.record == None && r.writer == HealthRuns.Waiting
       case Recording => r.record.Some? && r.writer == HealthRuns.Waiting
       case Cancelled => r.writer == if r.record.Some? then HealthRuns.Cancelled else HealthRuns.Waiting
       case Recorded => r.record.Some? && (r.writer == HealthRuns.Heard || r.writer == HealthRuns.Reported)
       case Counted => r.record.Some? && (r.writer == HealthRuns.Heard || r.writer == HealthRuns.Reported)
       case Closed => r.record.Some? && (r.writer == HealthRuns.Heard || r.writer == HealthRuns.Reported)
  }

  predicate AllSound(rs: seq<Request>) {
    forall k :: 0 <= k < |rs| ==> Sound(rs[k])
  }

  /** A request's record, as the request knows it. */
  predicate Mirrors(records: seq<HealthRuns.Record>, r: Request) {
    r.record.Some? ==>
      && r.record.value < |records|
      && r.attempt == Some(records[r.record.value].attempt)
      && r.server == records[r.record.value].server
      && r.writer == records[r.record.value].writer
  }

  /** Every request knows its record, and no two share one. */
  predicate Linked(b: Books) {
    && (forall k :: 0 <= k < |b.requests| ==> Mirrors(b.system.records, b.requests[k]))
    && (forall j, k :: 0 <= j < k < |b.requests| && b.requests[j].record.Some? ==>
          b.requests[j].record != b.requests[k].record)
  }

  lemma MovedSound(b: Books, lag: real, s: Step)
    requires Enabled(b, lag, s) && Target(s).Some?
    requires Sound(b.requests[Target(s).value]) && Mirrors(b.system.records, b.requests[Target(s).value])
    ensures Sound(Moved(|b.system.records|, b.requests[Target(s).value], s))
  {
  }

  /** What a step does to the records: one more, one changed, or none. */
  lemma RecordsAfter(b: Books, w: Window, lag: real, cap: nat, s: Step)
    requires w.Positive() && Enabled(b, lag, s)
    ensures
      var records, records' := b.system.records, Next(b, w, lag, cap, s).system.records;
      && |records'| == |records| + (if s.Record? then 1 else 0)
      && (forall i :: 0 <= i < |records| && !(StoreStep(s).Some? && OnRecord(StoreStep(s).value) == Some(i)) ==>
            records'[i] == records[i])
  {
    NextSystem(b, w, lag, cap, s);
    hide Next, RequestsAfter, RecordCommands, ApplyAll;
  }

  function OnRecord(s: HealthRuns.Step): Option<nat> {
    match s
    case Land(i) => Some(i)
    case Vanish(i) => Some(i)
    case Hear(i) => Some(i)
    case Report(i) => Some(i)
    case Cancel(i) => Some(i)
    case Start(_, _) => None
    case Pass(_) => None
    case Reclaim(_) => None
  }

  lemma MovedMirrors(b: Books, w: Window, lag: real, cap: nat, s: Step)
    requires w.Positive() && Enabled(b, lag, s) && Target(s).Some?
    requires Sound(b.requests[Target(s).value]) && Mirrors(b.system.records, b.requests[Target(s).value])
    ensures Mirrors(Next(b, w, lag, cap, s).system.records,
                    Moved(|b.system.records|, b.requests[Target(s).value], s))
  {
    NextSystem(b, w, lag, cap, s);
    hide Next, RequestsAfter, RecordCommands, ApplyAll;
  }

  lemma LinkStep(b: Books, w: Window, lag: real, cap: nat, s: Step)
    requires w.Positive() && Enabled(b, lag, s) && Linked(b) && AllSound(b.requests)
    ensures Linked(Next(b, w, lag, cap, s))
  {
    NextSystem(b, w, lag, cap, s);
    RecordsAfter(b, w, lag, cap, s);
    var b' := Next(b, w, lag, cap, s);
    if Target(s).Some? {
      assert Sound(b.requests[Target(s).value]) && Mirrors(b.system.records, b.requests[Target(s).value]);
      MovedMirrors(b, w, lag, cap, s);
      RecordOfMoved(|b.system.records|, b.requests[Target(s).value], s);
    }
    hide Next, Moved, Sound, HealthRuns.StepOf, HealthRuns.Enabled;
    forall k | 0 <= k < |b'.requests| ensures Mirrors(b'.system.records, b'.requests[k]) {
      if k < |b.requests| && Target(s) != Some(k) {
        assert Mirrors(b.system.records, b.requests[k]);
        OthersRecord(b, s, k);
      }
    }
  }

  /** A step on a record is a step of the request whose record it is. */
  lemma OthersRecord(b: Books, s: Step, k: nat)
    requires Linked(b) && k < |b.requests| && Target(s) != Some(k)
    requires Target(s).Some? ==> Target(s).value < |b.requests| && Ready(b.requests[Target(s).value], s)
    ensures StoreStep(s).Some? && OnRecord(StoreStep(s).value).Some? ==>
              b.requests[k].record != OnRecord(StoreStep(s).value)
  {
    if StoreStep(s).Some? && OnRecord(StoreStep(s).value).Some? {
      var t := Target(s).value;
      assert b.requests[t].record == OnRecord(StoreStep(s).value);
      assert t < k || k < t;
    }
  }

  lemma RecordOfMoved(next: nat, r: Request, s: Step)
    requires Ready(r, s)
    ensures Moved(next, r, s).record == if s.Record? then Some(next) else r.record
  {
  }

  /** In every run each request is in a state its phase allows and knows its own record. */
  lemma {:induction false} EveryRequestSound(w: Window, lag: real, cap: nat, steps: seq<Step>)
    requires w.Positive() && After(w, lag, cap, steps).Some?
    ensures AllSound(After(w, lag, cap, steps).value.requests) && Linked(After(w, lag, cap, steps).value)
  {
    if steps != [] {
      hide Next, Moved, HealthRuns.StepOf, HealthRuns.Enabled, Linked, Sound;
      var init, s := steps[..|steps| - 1], steps[|steps| - 1];
      EveryRequestSound(w, lag, cap, init);
      var b := After(w, lag, cap, init).value;
      NextSystem(b, w, lag, cap, s);
      LinkStep(b, w, lag, cap, s);
      if Target(s).Some? {
        LinkedMirrors(b, Target(s).value);
        MovedSound(b, lag, s);
      } else if s.Call? {
        FreshIsSound(s.tenant, s.feature, s.requestClass);
      }
    }
  }

  lemma FreshIsSound(tenant: string, feature: string, requestClass: string)
    ensures Sound(Fresh(tenant, feature, requestClass))
  {
  }

  lemma LinkedMirrors(b: Books, k: nat)
    requires Linked(b) && k < |b.requests|
    ensures Mirrors(b.system.records, b.requests[k])
  {
  }

  predicate IsOf(r: Request, p: string, o: Outcome) {
    r.attempt.Some? && r.attempt.value.provider == p && r.attempt.value.outcome == o
  }

  predicate Past(r: Request) {
    r.phase == Counted || r.phase == Closed
  }

  /** Requests of one provider and outcome: whose record is in the store; which are past recording with their
      record not there, or not yet; which have been counted; whose record is there or past and which are not yet
      counted; which were cancelled though their record is there. */
  function InStore(p: string, o: Outcome): Request -> bool {
    (r: Request) => r.server == HealthRuns.Executed && IsOf(r, p, o)
  }

  function Missing(p: string, o: Outcome): Request -> bool {
    (r: Request) => (r.phase == Recorded || Past(r)) && r.server != HealthRuns.Executed && IsOf(r, p, o)
  }

  function CountedAs(p: string, o: Outcome): Request -> bool {
    (r: Request) => Past(r) && IsOf(r, p, o)
  }

  function Awaiting(p: string, o: Outcome): Request -> bool {
    (r: Request) => (r.phase == Recorded || (r.phase == Recording && r.server == HealthRuns.Executed)) && IsOf(r, p, o)
  }

  function Orphaned(p: string, o: Outcome): Request -> bool {
    (r: Request) => r.phase == Cancelled && r.server == HealthRuns.Executed && IsOf(r, p, o)
  }

  function Tried(p: string, o: Outcome): Request -> bool {
    (r: Request) => IsOf(r, p, o)
  }

  lemma LogGrows(b: Books, w: Window, lag: real, s: HealthRuns.Step, p: string, o: Outcome)
    requires w.Positive() && HealthRuns.Enabled(b.system, lag, s)
    ensures HealthRuns.CountLog(HealthRuns.StepOf(b.system, w, lag, s).held.log, p, o) ==
            HealthRuns.CountLog(b.system.held.log, p, o) +
            if s.Land? then HealthRuns.OfKind(b.system.records[s.k].attempt, p, o) else 0
  {
    hide HealthRuns.CountLog, HealthRuns.OfKind, RecordCommands, ApplyAll;
    if s.Land? {
      var r := b.system.records[s.k];
      HealthRuns.CountLogSnoc(b.system.held.log, Commit(r.attempt, r.index, r.reading, b.system.held.db.now), p, o);
    }
  }

  /** What a step adds to the requests whose record landed. */
  lemma GainInStore(b: Books, lag: real, s: Step, p: string, o: Outcome)
    requires Enabled(b, lag, s) && AllSound(b.requests) && Linked(b)
    ensures Gain(b, lag, s, InStore(p, o)) ==
            if s.Land? then HealthRuns.OfKind(b.system.records[s.i].attempt, p, o) else 0
  {
    if Target(s).Some? {
      LinkedMirrors(b, Target(s).value);
      assert Sound(b.requests[Target(s).value]);
    }
    hide Linked;
  }

  /** The commits of a provider and outcome are the requests whose record landed. */
  lemma {:induction false} LogIsLanded(w: Window, lag: real, cap: nat, steps: seq<Step>, p: string, o: Outcome)
    requires w.Positive() && After(w, lag, cap, steps).Some?
    ensures
      var b := After(w, lag, cap, steps).value;
      HealthRuns.CountLog(b.system.held.log, p, o) == CountIf(b.requests, InStore(p, o))
  {
    if steps != [] {
      hide After, CountIf, Next, Gain, InStore, AllSound, Linked, HealthRuns.StepOf, HealthRuns.CountLog,
           HealthRuns.Enabled, HealthRuns.OfKind, Enabled, RequestsAfter;
      var init, s := steps[..|steps| - 1], steps[|steps| - 1];
      StepOfRun(w, lag, cap, steps);
      LogIsLanded(w, lag, cap, init, p, o);
      EveryRequestSound(w, lag, cap, init);
      var b := After(w, lag, cap, init).value;
      NextSystem(b, w, lag, cap, s);
      CountNext(b, w, lag, cap, s, InStore(p, o));
      GainInStore(b, lag, s, p, o);
      EnabledInStore(b, lag, s);
      if StoreStep(s).Some? {
        LogGrows(b, w, lag, StoreStep(s).value, p, o);
      }
    } else {
      NothingYet(w, lag, cap, InStore(p, o));
    }
  }

  lemma NothingYet(w: Window, lag: real, cap: nat, p: Request -> bool)
    requires w.Positive()
    ensures After(w, lag, cap, []) == Some(OPENING) && OPENING.requests == [] && OPENING.system.held.log == []
    ensures CountIf([], p) == 0
    ensures forall p, o :: HealthRuns.CountLog([], p, o) == 0
  {
  }

  lemma StepOfRun(w: Window, lag: real, cap: nat, steps: seq<Step>)
    requires w.Positive() && steps != [] && After(w, lag, cap, steps).Some?
    ensures After(w, lag, cap, steps[..|steps| - 1]).Some?
    ensures
      var b := After(w, lag, cap, steps[..|steps| - 1]).value;
      Enabled(b, lag, steps[|steps| - 1]) &&
      After(w, lag, cap, steps) == Some(Next(b, w, lag, cap, steps[|steps| - 1]))
  {
    hide Enabled, Next;
  }

  /** No request is stuck: while it is recording its writer can give up, its transaction can run or vanish as long
      as it has done neither, and success can be heard once it ran. */
  lemma NoRecordIsStuck(w: Window, lag: real, cap: nat, steps: seq<Step>, k: nat)
    requires w.Positive() && After(w, lag, cap, steps).Some?
    requires k < |After(w, lag, cap, steps).value.requests|
    requires After(w, lag, cap, steps).value.requests[k].phase == Recording
    ensures
      var b := After(w, lag, cap, steps).value;
      && b.requests[k].record.Some?
      && var i, server := b.requests[k].record.value, b.requests[k].server;
         && Enabled(b, lag, Report(k, i)) && Enabled(b, lag, CancelRecord(k, i))
         && (server == HealthRuns.InFlight ==> Enabled(b, lag, Land(k, i)) && Enabled(b, lag, Vanish(k, i)))
         && (server == HealthRuns.Executed ==> Enabled(b, lag, Hear(k, i)))
  {
    hide After, Linked, Enabled, Sound, Mirrors;
    var b := After(w, lag, cap, steps).value;
    EveryRequestSound(w, lag, cap, steps);
    LinkedMirrors(b, k);
    RecordingCan(b, lag, k);
  }

  lemma RecordingCan(b: Books, lag: real, k: nat)
    requires k < |b.requests| && b.requests[k].phase == Recording
    requires Sound(b.requests[k]) && Mirrors(b.system.records, b.requests[k])
    ensures b.requests[k].record.Some?
    ensures
      var i, server := b.requests[k].record.value, b.requests[k].server;
      && Enabled(b, lag, Report(k, i)) && Enabled(b, lag, CancelRecord(k, i))
      && (server == HealthRuns.InFlight ==> Enabled(b, lag, Land(k, i)) && Enabled(b, lag, Vanish(k, i)))
      && (server == HealthRuns.Executed ==> Enabled(b, lag, Hear(k, i)))
  {
  }

  /** A transaction still in flight can run whatever became of its request: reported, counted, closed, cancelled. */
  lemma LateCommitIsPossible(w: Window, lag: real, cap: nat, steps: seq<Step>, k: nat)
    requires w.Positive() && After(w, lag, cap, steps).Some?
    requires k < |After(w, lag, cap, steps).value.requests|
    requires After(w, lag, cap, steps).value.requests[k].record.Some?
    ensures
      var b := After(w, lag, cap, steps).value;
      Enabled(b, lag, Land(k, b.requests[k].record.value)) <==> b.requests[k].server == HealthRuns.InFlight
  {
    hide After, Linked;
    EveryRequestSound(w, lag, cap, steps);
    LinkedMirrors(After(w, lag, cap, steps).value, k);
  }
}
