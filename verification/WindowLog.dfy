/** The plain log of committed attempts that the bucketed index replaces, and how the two agree. */
module WindowLog {
  import opened Common
  import opened Taxonomy
  import opened Geometry
  import opened Keys
  import opened Redis

  const SAMPLE_CAP: nat := 200

  /** A result's latency is validated to be non-negative. */
  type Latency = x: real | x >= 0.0

  /** One provider attempt, as the executor reports it. */
  datatype Attempt = Attempt(provider: string, outcome: Outcome, latencyMs: Latency)

  /** An attempt that reached the store: the index it was filed under, the clock reading that chose
      the index, and the server time at which the transaction ran. */
  datatype Commit = Commit(attempt: Attempt, index: int, reading: real, at: real)

  // ----- projections of the log --------------------------------------------

  predicate InBucket(e: Commit, p: string, i: int) {
    e.attempt.provider == p && e.index == i
  }

  /** The commits of one bucket of one provider, oldest first. */
  function BucketLog(log: seq<Commit>, p: string, i: int): (bl: seq<Commit>)
    ensures forall k :: 0 <= k < |bl| ==> bl[k] in log && InBucket(bl[k], p, i)
    ensures |bl| <= |log|
  {
    if log == [] then []
    else
      var rest := BucketLog(log[..|log| - 1], p, i);
      if InBucket(log[|log| - 1], p, i) then rest + [log[|log| - 1]] else rest
  }

  function Count(s: seq<Commit>, o: Outcome): nat {
    if s == [] then 0
    else Count(s[..|s| - 1], o) + if s[|s| - 1].attempt.outcome == o then 1 else 0
  }

  /** The exact answer: commits of `p` with outcome `o` filed in buckets lo .. lo + n - 1. */
  function CountInRange(log: seq<Commit>, p: string, lo: int, n: nat, o: Outcome): nat {
    if log == [] then 0
    else
      var e := log[|log| - 1];
      CountInRange(log[..|log| - 1], p, lo, n, o) +
      if e.attempt.provider == p && lo <= e.index < lo + n && e.attempt.outcome == o then 1 else 0
  }

  /** The commits of a bucket that no expiry has erased by server time `now`. */
  function Visible(bl: seq<Commit>, now: real, ttl: real): seq<Commit> {
    if bl == [] then []
    else
      var e := bl[|bl| - 1];
      if now > e.at + ttl then [] else Visible(bl[..|bl| - 1], e.at, ttl) + [e]
  }

  /** No silence longer than the TTL: not between two commits of the bucket, nor since its last. */
  predicate Unbroken(bl: seq<Commit>, now: real, ttl: real) {
    && (forall k :: 0 < k < |bl| ==> bl[k].at <= bl[k - 1].at + ttl)
    && (bl != [] ==> now <= bl[|bl| - 1].at + ttl)
  }

  /** Server times never run backwards. */
  ghost predicate WellTimed(log: seq<Commit>, now: real) {
    && (forall k :: 0 <= k < |log| ==> log[k].at <= now)
    && (forall j, k :: 0 <= j < k < |log| ==> log[j].at <= log[k].at)
  }

  // ----- what the store holds ------------------------------------------------

  function Bump(fields: map<string, Raw>, field: string): map<string, Raw> {
    fields[field := Integer((if field in fields && fields[field].Integer? then fields[field].value else 0) + 1)]
  }

  /** The hash a run of commits leaves behind. */
  function HashOf(s: seq<Commit>): map<string, Raw> {
    if s == [] then map[] else Bump(HashOf(s[..|s| - 1]), FieldFor(s[|s| - 1].attempt.outcome))
  }

  /** Push-then-trim, commit by commit. */
  function ListOf(s: seq<Commit>): seq<RawSample> {
    if s == [] then []
    else
      Pushed(ListOf(s[..|s| - 1]), s[|s| - 1].attempt.latencyMs)
  }

  ghost predicate SlotMatches<T>(slots: map<string, Slot<T>>, key: string, content: T, deadline: real, now: real) {
    if key in slots then slots[key] == Slot(content, Some(deadline)) else now > deadline
  }

  /** Both keys of a bucket hold what its commits left there, and share one deadline. */
  ghost predicate BucketMatches(db: Db, bl: seq<Commit>, hk: string, lk: string, ttl: real) {
    if bl == [] then
      hk !in db.hashes && lk !in db.lists
    else
      var last := bl[|bl| - 1].at;
      var v := Visible(bl, last, ttl);
      && SlotMatches(db.hashes, hk, HashOf(v), last + ttl, db.now)
      && SlotMatches(db.lists, lk, ListOf(v), last + ttl, db.now)
  }

  /** The store is the index of this log: bucket by bucket, deadlines included. */
  ghost predicate Matches(db: Db, log: seq<Commit>, ttl: real) {
    forall p: string, i: int {:trigger BucketLog(log, p, i)} ::
      BucketMatches(db, BucketLog(log, p, i), BucketKey(p, i), LatencyKey(p, i), ttl)
  }

  /** The five commands of one record, in staging order. */
  function StagedRecord(hk: string, lk: string, field: string, sample: real, ttl: real): seq<Command> {
    [HIncrBy(hk, field), Expire(hk, ttl), LPush(lk, sample), LTrim(lk, SAMPLE_CAP), Expire(lk, ttl)]
  }

  function RecordCommands(w: Window, a: Attempt, index: int): seq<Command> {
    StagedRecord(BucketKey(a.provider, index), LatencyKey(a.provider, index),
                 FieldFor(a.outcome), a.latencyMs, w.Ttl())
  }

  // ----- lemmas ---------------------------------------------------------------

  /** The samples a list holds once one more has been pushed and the list trimmed. */
  function Pushed(items: seq<RawSample>, latencyMs: real): seq<RawSample> {
    var pushed := [Number(latencyMs)] + items;
    pushed[..Min(SAMPLE_CAP, |pushed|)]
  }

  lemma {:induction false} ApplyAllConcat(db: Db, cs: seq<Command>, ds: seq<Command>)
    ensures ApplyAll(db, cs + ds) ==
            var r := ApplyAll(db, cs);
            var t := ApplyAll(r.db, ds);
            Reply(t.db, r.ok && t.ok)
  {
    if ds == [] {
      assert cs + ds == cs;
    } else {
      var init := ds[..|ds| - 1];
      assert (cs + ds)[..|cs + ds| - 1] == cs + init;
      ApplyAllConcat(db, cs, init);
    }
  }

  lemma ApplyOne(db: Db, c: Command)
    ensures ApplyAll(db, [c]) == Apply(db, c)
  {
    assert [c][..0] == [];
    assert ApplyAll(db, []) == Reply(db, true);
  }

  lemma CountCommands(db: Db, key: string, field: string, ttl: real)
    requires key !in db.lists && ttl > 0.0
    ensures
      var h := db.HGetAll(key);
      var rejected := field in h && h[field].Text?;
      var slot := Slot(if rejected then h else Bump(h, field), Some(db.now + ttl));
      ApplyAll(db, [HIncrBy(key, field)] + [Expire(key, ttl)]) ==
      Reply(db.(hashes := db.hashes[key := slot]), !rejected)
  {
    hide ApplyAll;
    ApplyAllConcat(db, [HIncrBy(key, field)], [Expire(key, ttl)]);
    ApplyOne(db, HIncrBy(key, field));
    ApplyOne(Apply(db, HIncrBy(key, field)).db, Expire(key, ttl));
    var h := db.HGetAll(key);
    var slot := Slot(if field in h && h[field].Text? then h else Bump(h, field), Some(db.now + ttl));
    var after := Apply(Apply(db, HIncrBy(key, field)).db, Expire(key, ttl)).db;
    assert after.hashes == db.hashes[key := slot];
  }

  lemma SampleCommands(db: Db, key: string, sample: real, ttl: real)
    requires key !in db.hashes && ttl > 0.0
    ensures
      var slot := Slot(Pushed(db.LRange(key), sample), Some(db.now + ttl));
      ApplyAll(db, [LPush(key, sample)] + ([LTrim(key, SAMPLE_CAP)] + [Expire(key, ttl)])) ==
      Reply(db.(lists := db.lists[key := slot]), true)
  {
    hide ApplyAll;
    var push, trim, expire := LPush(key, sample), LTrim(key, SAMPLE_CAP), Expire(key, ttl);
    ApplyAllConcat(db, [push], [trim] + [expire]);
    ApplyOne(db, push);
    var d1 := Apply(db, push).db;
    ApplyAllConcat(d1, [trim], [expire]);
    ApplyOne(d1, trim);
    var d2 := Apply(d1, trim).db;
    ApplyOne(d2, expire);
    assert d1.LRange(key) == [Number(sample)] + db.LRange(key);
    assert d2.LRange(key) == Pushed(db.LRange(key), sample);
    var slot := Slot(Pushed(db.LRange(key), sample), Some(db.now + ttl));
    assert Apply(d2, expire).db.lists == db.lists[key := slot];
  }

  lemma RecordOn(db: Db, hk: string, lk: string, field: string, sample: real, ttl: real)
    requires hk !in db.lists && lk !in db.hashes && hk != lk && ttl > 0.0
    ensures
      var h := db.HGetAll(hk);
      var rejected := field in h && h[field].Text?;
      var count := Slot(if rejected then h else Bump(h, field), Some(db.now + ttl));
      var samples := Slot(Pushed(db.LRange(lk), sample), Some(db.now + ttl));
      ApplyAll(db, StagedRecord(hk, lk, field, sample, ttl)) ==
      Reply(Db(db.now, db.hashes[hk := count], db.lists[lk := samples]), !rejected)
  {
    hide ApplyAll, Apply, Bump, Pushed;
    var count := [HIncrBy(hk, field)] + [Expire(hk, ttl)];
    var rest := [LPush(lk, sample)] + ([LTrim(lk, SAMPLE_CAP)] + [Expire(lk, ttl)]);
    assert StagedRecord(hk, lk, field, sample, ttl) == count + rest;
    ApplyAllConcat(db, count, rest);
    CountCommands(db, hk, field, ttl);
    SampleCommands(ApplyAll(db, count).db, lk, sample, ttl);
  }

  /** What one record does to a store in which neither key holds the other kind of value. */
  lemma RecordEffect(db: Db, w: Window, a: Attempt, index: int)
    requires w.Positive()
    requires BucketKey(a.provider, index) !in db.lists && LatencyKey(a.provider, index) !in db.hashes
    ensures
      var hk, lk, f := BucketKey(a.provider, index), LatencyKey(a.provider, index), FieldFor(a.outcome);
      var h := db.HGetAll(hk);
      var due := Some(db.now + w.Ttl());
      var lists := db.lists[lk := Slot(Pushed(db.LRange(lk), a.latencyMs), due)];
      ApplyAll(db, RecordCommands(w, a, index)) ==
      if f in h && h[f].Text? then
        Reply(Db(db.now, db.hashes[hk := Slot(h, due)], lists), false)
      else
        Reply(Db(db.now, db.hashes[hk := Slot(Bump(h, f), due)], lists), true)
  {
    var hk, lk, f := BucketKey(a.provider, index), LatencyKey(a.provider, index), FieldFor(a.outcome);
    KindsDisjoint(a.provider, index, a.provider, index);
    RecordOn(db, hk, lk, f, a.latencyMs, w.Ttl());
  }

  // ----- the store stays the index of the log --------------------------------

  lemma KeysRead(db: Db, bl: seq<Commit>, hk: string, lk: string, ttl: real)
    requires BucketMatches(db, bl, hk, lk, ttl) && ttl > 0.0
    ensures db.HGetAll(hk) == HashOf(Visible(bl, db.now, ttl))
    ensures db.LRange(lk) == ListOf(Visible(bl, db.now, ttl))
  {
    if bl != [] {
      var last := bl[|bl| - 1].at;
      assert db.now <= last + ttl ==> Visible(bl, db.now, ttl) == Visible(bl, last, ttl);
    }
  }

  lemma ReadsVisible(db: Db, log: seq<Commit>, ttl: real, p: string, i: int)
    requires Matches(db, log, ttl) && ttl > 0.0
    ensures db.HGetAll(BucketKey(p, i)) == HashOf(Visible(BucketLog(log, p, i), db.now, ttl))
    ensures db.LRange(LatencyKey(p, i)) == ListOf(Visible(BucketLog(log, p, i), db.now, ttl))
  {
    KeysRead(db, BucketLog(log, p, i), BucketKey(p, i), LatencyKey(p, i), ttl);
  }

  lemma BucketLogSnoc(log: seq<Commit>, e: Commit, p: string, i: int)
    ensures BucketLog(log + [e], p, i) ==
            if InBucket(e, p, i) then BucketLog(log, p, i) + [e] else BucketLog(log, p, i)
  {
    assert (log + [e])[..|log|] == log;
  }

  /** A commit never puts a value of the wrong kind under a key the window uses. */
  ghost predicate KindsApart(db: Db) {
    forall p: string, i: int {:trigger BucketKey(p, i)} {:trigger LatencyKey(p, i)} ::
      BucketKey(p, i) !in db.lists && LatencyKey(p, i) !in db.hashes
  }

  /** The store after one record of `a` into the keys `hk` and `lk`. */
  function Landed(db: Db, hk: string, lk: string, a: Attempt, ttl: real): Db {
    Db(db.now,
       db.hashes[hk := Slot(Bump(db.HGetAll(hk), FieldFor(a.outcome)), Some(db.now + ttl))],
       db.lists[lk := Slot(Pushed(db.LRange(lk), a.latencyMs), Some(db.now + ttl))])
  }

  lemma KeysLand(db: Db, bl: seq<Commit>, e: Commit, hk: string, lk: string, ttl: real)
    requires ttl > 0.0 && e.at == db.now
    requires BucketMatches(db, bl, hk, lk, ttl)
    ensures BucketMatches(Landed(db, hk, lk, e.attempt, ttl), bl + [e], hk, lk, ttl)
  {
    hide Visible, HashOf, ListOf, Bump, Pushed;
    var db' := Landed(db, hk, lk, e.attempt, ttl);
    var v := Visible(bl, db.now, ttl);
    KeysRead(db, bl, hk, lk, ttl);
    FoldSnoc(v, e);
    SlotLands(db'.hashes, hk, HashOf(v + [e]), db.now + ttl, db.now);
    SlotLands(db'.lists, lk, ListOf(v + [e]), db.now + ttl, db.now);
    VisibleSnoc(bl, e, ttl);
    assert (bl + [e])[|bl + [e]| - 1] == e;
  }

  lemma SlotLands<T>(slots: map<string, Slot<T>>, key: string, content: T, deadline: real, now: real)
    requires key in slots && slots[key] == Slot(content, Some(deadline))
    ensures SlotMatches(slots, key, content, deadline, now)
  {
  }

  lemma VisibleSnoc(bl: seq<Commit>, e: Commit, ttl: real)
    requires ttl > 0.0
    ensures Visible(bl + [e], e.at, ttl) == Visible(bl, e.at, ttl) + [e]
  {
    assert (bl + [e])[..|bl|] == bl;
  }

  lemma FoldSnoc(s: seq<Commit>, e: Commit)
    ensures HashOf(s + [e]) == Bump(HashOf(s), FieldFor(e.attempt.outcome))
    ensures ListOf(s + [e]) == Pushed(ListOf(s), e.attempt.latencyMs)
  {
    assert (s + [e])[..|s|] == s;
  }

  lemma {:induction false} IntegersOnly(s: seq<Commit>)
    ensures forall f :: f in HashOf(s) ==> HashOf(s)[f].Integer? && HashOf(s)[f].value > 0
  {
    if s != [] {
      IntegersOnly(s[..|s| - 1]);
    }
  }

  /** One transaction extends the log by one commit, and every other bucket stays as it was. */
  lemma LandKeepsMatch(db: Db, log: seq<Commit>, w: Window, e: Commit)
    requires w.Positive() && e.at == db.now
    requires Matches(db, log, w.Ttl()) && KindsApart(db)
    ensures
      var r := ApplyAll(db, RecordCommands(w, e.attempt, e.index));
      r.ok && r.db.now == db.now && Matches(r.db, log + [e], w.Ttl()) && KindsApart(r.db)
  {
    LandsAs(db, log, w, e);
    var p, i := e.attempt.provider, e.index;
    var db' := Landed(db, BucketKey(p, i), LatencyKey(p, i), e.attempt, w.Ttl());
    LandKeepsBuckets(db, log, e, db', w.Ttl());
    LandKeepsKinds(db, e, db', w.Ttl());
  }

  lemma LandsAs(db: Db, log: seq<Commit>, w: Window, e: Commit)
    requires w.Positive() && Matches(db, log, w.Ttl()) && KindsApart(db)
    ensures ApplyAll(db, RecordCommands(w, e.attempt, e.index)) ==
            Reply(Landed(db, BucketKey(e.attempt.provider, e.index), LatencyKey(e.attempt.provider, e.index),
                         e.attempt, w.Ttl()), true)
  {
    hide Bump, Pushed, HashOf, ListOf, Visible, BucketLog, ApplyAll, RecordCommands, FieldFor;
    var p, i, ttl := e.attempt.provider, e.index, w.Ttl();
    ReadsVisible(db, log, ttl, p, i);
    IntegersOnly(Visible(BucketLog(log, p, i), db.now, ttl));
    assert BucketKey(p, i) !in db.lists && LatencyKey(p, i) !in db.hashes;
    hide KindsApart, Matches, BucketKey, LatencyKey;
    RecordEffect(db, w, e.attempt, e.index);
  }

  lemma LandKeepsBuckets(db: Db, log: seq<Commit>, e: Commit, db': Db, ttl: real)
    requires e.at == db.now && ttl > 0.0 && Matches(db, log, ttl)
    requires db' == Landed(db, BucketKey(e.attempt.provider, e.index), LatencyKey(e.attempt.provider, e.index),
                           e.attempt, ttl)
    ensures Matches(db', log + [e], ttl)
  {
    var p, i := e.attempt.provider, e.index;
    forall q: string, j: int
      ensures BucketMatches(db', BucketLog(log + [e], q, j), BucketKey(q, j), LatencyKey(q, j), ttl)
    {
      BucketLogSnoc(log, e, q, j);
      BucketKeyInjective(p, i, q, j);
      if q == p && j == i {
        KeysLand(db, BucketLog(log, q, j), e, BucketKey(q, j), LatencyKey(q, j), ttl);
      } else {
        KeysUntouched(db, BucketLog(log, q, j), e.attempt, BucketKey(p, i), LatencyKey(p, i), BucketKey(q, j),
                      LatencyKey(q, j), ttl);
      }
    }
  }

  lemma KeysUntouched(db: Db, bl: seq<Commit>, a: Attempt, hk: string, lk: string, hk': string, lk': string, ttl: real)
    requires BucketMatches(db, bl, hk', lk', ttl) && hk != hk' && lk != lk'
    ensures BucketMatches(Landed(db, hk, lk, a, ttl), bl, hk', lk', ttl)
  {
  }

  lemma LandKeepsKinds(db: Db, e: Commit, db': Db, ttl: real)
    requires KindsApart(db)
    requires db' == Landed(db, BucketKey(e.attempt.provider, e.index), LatencyKey(e.attempt.provider, e.index),
                           e.attempt, ttl)
    ensures KindsApart(db')
  {
    forall q: string, j: int
      ensures BucketKey(q, j) !in db'.lists && LatencyKey(q, j) !in db'.hashes
    {
      KindsDisjoint(q, j, e.attempt.provider, e.index);
      KindsDisjoint(e.attempt.provider, e.index, q, j);
    }
  }

  lemma AdvanceKeepsMatch(db: Db, log: seq<Commit>, ttl: real, seconds: real)
    requires Matches(db, log, ttl) && seconds >= 0.0
    ensures Matches(db.(now := db.now + seconds), log, ttl)
  {
    forall p: string, i: int
      ensures BucketMatches(db.(now := db.now + seconds), BucketLog(log, p, i), BucketKey(p, i), LatencyKey(p, i), ttl)
    {
      assert BucketMatches(db, BucketLog(log, p, i), BucketKey(p, i), LatencyKey(p, i), ttl);
    }
  }

  lemma EvictKeepsMatch(db: Db, log: seq<Commit>, ttl: real, key: string)
    requires Matches(db, log, ttl)
    ensures Matches(Evict(db, key), log, ttl)
  {
    forall p: string, i: int
      ensures BucketMatches(Evict(db, key), BucketLog(log, p, i), BucketKey(p, i), LatencyKey(p, i), ttl)
    {
      assert BucketMatches(db, BucketLog(log, p, i), BucketKey(p, i), LatencyKey(p, i), ttl);
    }
  }

  // ----- what a bucket's content says about its log -----------------------------

  function AsCount(raw: Raw): int {
    match raw
    case Integer(n) => n
    case Text(_) => 0
  }

  function FieldCount(fields: map<string, Raw>, field: string): int {
    if field in fields then AsCount(fields[field]) else 0
  }

  /** Reading a recorded hash back gives the exact number of commits with each outcome. */
  lemma {:induction false} HashCounts(s: seq<Commit>, o: Outcome)
    ensures FieldCount(HashOf(s), FieldFor(o)) == Count(s, o)
  {
    if s != [] {
      HashCounts(s[..|s| - 1], o);
      IntegersOnly(s[..|s| - 1]);
      if FieldFor(s[|s| - 1].attempt.outcome) == FieldFor(o) {
        FieldsDistinct(s[|s| - 1].attempt.outcome, o);
      }
    }
  }

  /** The list is the most recent samples, newest first, at most the cap. */
  lemma {:induction false} ListIsNewest(s: seq<Commit>)
    ensures |ListOf(s)| == Min(SAMPLE_CAP, |s|)
    ensures forall k :: 0 <= k < |ListOf(s)| ==> ListOf(s)[k] == Number(s[|s| - 1 - k].attempt.latencyMs)
  {
    if s != [] {
      ListIsNewest(s[..|s| - 1]);
    }
  }

  /** The count key and the sample key of a bucket live and die together. */
  lemma KeysDieTogether(db: Db, log: seq<Commit>, ttl: real, p: string, i: int)
    requires Matches(db, log, ttl) && ttl > 0.0
    ensures db.HGetAll(BucketKey(p, i)) == map[] <==> db.LRange(LatencyKey(p, i)) == []
  {
    ReadsVisible(db, log, ttl, p, i);
    var v := Visible(BucketLog(log, p, i), db.now, ttl);
    ListIsNewest(v);
    if v != [] {
      assert FieldFor(v[|v| - 1].attempt.outcome) in HashOf(v);
    }
  }

  lemma {:induction false} VisibleIsSuffix(bl: seq<Commit>, now: real, ttl: real)
    ensures var v := Visible(bl, now, ttl); |v| <= |bl| && v == bl[|bl| - |v|..]
    ensures |Visible(bl, now, ttl)| == |bl| <==> Unbroken(bl, now, ttl)
  {
    if bl != [] {
      var e := bl[|bl| - 1];
      VisibleIsSuffix(bl[..|bl| - 1], e.at, ttl);
    }
  }

  lemma {:induction false} CountAppend(s: seq<Commit>, t: seq<Commit>, o: Outcome)
    ensures Count(s + t, o) == Count(s, o) + Count(t, o)
  {
    if t == [] {
      assert s + t == s;
    } else {
      assert (s + t)[..|s + t| - 1] == s + t[..|t| - 1];
      CountAppend(s, t[..|t| - 1], o);
    }
  }

  /** Expiry only ever takes away: never more of an outcome than was committed. */
  lemma {:induction false} VisibleCounts(bl: seq<Commit>, now: real, ttl: real, o: Outcome)
    ensures Count(Visible(bl, now, ttl), o) <= Count(bl, o)
    ensures Unbroken(bl, now, ttl) ==> Visible(bl, now, ttl) == bl
  {
    VisibleIsSuffix(bl, now, ttl);
    var v := Visible(bl, now, ttl);
    var lost := bl[..|bl| - |v|];
    assert bl == lost + v;
    CountAppend(lost, v, o);
  }

  /** A broken bucket has lost a commit, and the outcome of that commit is undercounted. */
  lemma BrokenLosesOne(bl: seq<Commit>, now: real, ttl: real) returns (o: Outcome)
    requires !Unbroken(bl, now, ttl)
    ensures Count(Visible(bl, now, ttl), o) < Count(bl, o)
  {
    VisibleIsSuffix(bl, now, ttl);
    var v := Visible(bl, now, ttl);
    var lost := bl[..|bl| - |v|];
    assert bl == lost + v;
    o := lost[|lost| - 1].attempt.outcome;
    CountAppend(lost, v, o);
  }
}
