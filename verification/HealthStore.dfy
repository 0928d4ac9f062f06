/** The store shared by every process, its history, and what can happen to it between two commands. */
module HealthStore {
  import opened Taxonomy
  import opened Geometry
  import opened Keys
  import opened Redis
  import opened WindowLog
  import opened TornReads

  /** The store together with the log of every record committed to it. */
  datatype Held = Held(db: Db, log: seq<Commit>) {
    function Now(): Moment {
      Moment(log, db.now)
    }

    /** The store is the index of its log, at every bucket, with its deadlines. */
    ghost predicate Consistent(w: Window) {
      && Matches(db, log, w.Ttl())
      && KindsApart(db)
      && WellTimed(log, db.now)
    }
  }

  const EMPTY := Held(EMPTY_DB, [])

  /** What other processes and the server itself do: a record lands, time passes, a dead key is reclaimed. */
  datatype Event =
    | Lands(attempt: Attempt, index: int, reading: real)
    | Passes(seconds: real)
    | Reclaims(key: string)

  predicate Possible(e: Event) {
    match e
    case Lands(_, _, _) => true
    case Passes(seconds) => seconds >= 0.0
    case Reclaims(_) => true
  }

  function Next(h: Held, w: Window, e: Event): Held {
    match e
    case Lands(a, index, reading) =>
      Held(ApplyAll(h.db, RecordCommands(w, a, index)).db, h.log + [Commit(a, index, reading, h.db.now)])
    case Passes(seconds) =>
      Held(h.db.(now := h.db.now + seconds), h.log)
    case Reclaims(key) =>
      Held(Evict(h.db, key), h.log)
  }

  function Run(h: Held, w: Window, es: seq<Event>): Held {
    if es == [] then h else Next(Run(h, w, es[..|es| - 1]), w, es[|es| - 1])
  }

  predicate AllPossible(es: seq<Event>) {
    forall k :: 0 <= k < |es| ==> Possible(es[k])
  }

  lemma EmptyConsistent(w: Window)
    ensures EMPTY.Consistent(w)
  {
    hide BucketKey, LatencyKey;
  }

  lemma NextConsistent(h: Held, w: Window, e: Event)
    requires w.Positive() && h.Consistent(w) && Possible(e)
    ensures Next(h, w, e).Consistent(w)
    ensures Later(h.Now(), Next(h, w, e).Now())
  {
    hide BucketKey, LatencyKey, Matches, KindsApart, RecordCommands, Evict;
    match e
    case Lands(a, index, reading) =>
      LandKeepsMatch(h.db, h.log, w, Commit(a, index, reading, h.db.now));
    case Passes(seconds) =>
      AdvanceKeepsMatch(h.db, h.log, w.Ttl(), seconds);
      KindsApartAtAnyTime(h.db, h.db.now + seconds);
    case Reclaims(key) =>
      EvictKeepsMatch(h.db, h.log, w.Ttl(), key);
      EvictKeepsKinds(h.db, key);
      EvictKeepsTime(h.db, key);
  }

  /** What a landing record is to a reader of its bucket: its latency is the newest sample, ahead of the others under
      the cap, and one more attempt counts under its outcome and no other. */
  lemma LandingReadsBack(h: Held, w: Window, a: Attempt, index: int, reading: real)
    requires w.Positive() && h.Consistent(w)
    ensures
      var hk, lk := BucketKey(a.provider, index), LatencyKey(a.provider, index);
      var after := Next(h, w, Lands(a, index, reading));
      var before, list := h.db.LRange(lk), after.db.LRange(lk);
      && |list| == (if |before| < 200 then |before| + 1 else 200) && list[0] == Number(a.latencyMs)
      && (forall k :: 0 < k < |list| ==> list[k] == before[k - 1])
      && (forall o :: FieldCount(after.db.HGetAll(hk), FieldFor(o)) ==
                      FieldCount(h.db.HGetAll(hk), FieldFor(o)) + if o == a.outcome then 1 else 0)
  {
    hide BucketKey, LatencyKey, Matches, KindsApart, RecordCommands, ApplyAll, WellTimed, FieldFor;
    LandsAs(h.db, h.log, w, Commit(a, index, reading, h.db.now));
    var hk, lk := BucketKey(a.provider, index), LatencyKey(a.provider, index);
    var v := Visible(BucketLog(h.log, a.provider, index), h.db.now, w.Ttl());
    ReadsVisible(h.db, h.log, w.Ttl(), a.provider, index);
    ListIsNewest(v);
    IntegersOnly(v);
    hide Visible, BucketLog, ListOf, HashOf;
    forall o ensures FieldCount(Bump(h.db.HGetAll(hk), FieldFor(a.outcome)), FieldFor(o)) ==
                     FieldCount(h.db.HGetAll(hk), FieldFor(o)) + if o == a.outcome then 1 else 0 {
      if FieldFor(o) == FieldFor(a.outcome) {
        FieldsDistinct(o, a.outcome);
      }
    }
  }

  lemma KindsApartAtAnyTime(db: Db, now: real)
    requires KindsApart(db)
    ensures KindsApart(db.(now := now))
  {
    hide BucketKey, LatencyKey;
  }

  lemma EvictKeepsKinds(db: Db, key: string)
    requires KindsApart(db)
    ensures KindsApart(Evict(db, key))
  {
    hide BucketKey, LatencyKey;
  }

  lemma EvictKeepsTime(db: Db, key: string)
    ensures Evict(db, key).now == db.now
  {
  }

  lemma LaterTransitive(a: Moment, b: Moment, c: Moment)
    requires Later(a, b) && Later(b, c)
    ensures Later(a, c)
  {
  }

  /** Log refinement over all runs: from the empty store, whatever lands, waits or is reclaimed, in
      whatever order, every bucket holds what the log says it should. */
  lemma {:induction false} RunConsistent(h: Held, w: Window, es: seq<Event>)
    requires w.Positive() && h.Consistent(w) && AllPossible(es)
    ensures Run(h, w, es).Consistent(w)
    ensures Later(h.Now(), Run(h, w, es).Now())
  {
    if es != [] {
      var init := es[..|es| - 1];
      RunConsistent(h, w, init);
      NextConsistent(Run(h, w, init), w, es[|es| - 1]);
      hide Later, Next;
      LaterTransitive(h.Now(), Run(h, w, init).Now(), Run(h, w, es).Now());
    }
  }

  /** The server every process talks to. */
  class Store {
    var db: Db
    ghost var log: seq<Commit>

    ghost function State(): Held
      reads this
    {
      Held(db, log)
    }

    constructor (ghost w: Window)
      ensures State() == EMPTY && State().Consistent(w)
    {
      db := EMPTY_DB;
      log := [];
      new;
      EmptyConsistent(w);
    }

    /** EXEC of a client's staged commands, one at a time with nothing in between. */
    method Execute(pipe: Pipeline) returns (ok: bool)
      modifies this`db
      ensures Reply(db, ok) == ApplyAll(old(db), pipe.staged)
    {
      ok := true;
      for i := 0 to |pipe.staged|
        invariant Reply(db, ok) == ApplyAll(old(db), pipe.staged[..i])
      {
        assert pipe.staged[..i + 1][..i] == pipe.staged[..i];
        var reply := Apply(db, pipe.staged[i]);
        db, ok := reply.db, ok && reply.ok;
      }
      assert pipe.staged[..|pipe.staged|] == pipe.staged;
    }

    /** Everything that happens at the server before the caller's next command. */
    method Meanwhile(w: Window, es: seq<Event>)
      requires w.Positive() && AllPossible(es)
      modifies this
      ensures State() == Run(old(State()), w, es)
      ensures old(State()).Consistent(w) ==> State().Consistent(w) && Later(old(State()).Now(), State().Now())
    {
      if State().Consistent(w) {
        RunConsistent(State(), w, es);
      }
      ghost var start := State();
      for i := 0 to |es|
        invariant State() == Run(start, w, es[..i])
      {
        assert es[..i + 1][..i] == es[..i];
        ghost var next := Next(State(), w, es[i]);
        match es[i] {
          case Lands(a, index, reading) =>
            db := ApplyAll(db, RecordCommands(w, a, index)).db;
          case Passes(seconds) =>
            db := db.(now := db.now + seconds);
          case Reclaims(key) =>
            db := Evict(db, key);
        }
        log := next.log;
      }
      assert es[..|es|] == es;
    }
  }
}
