/** Merging bucket hashes into counts, flattening bucket lists into samples, and the snapshot view. */
module HealthMerge {
  import opened Common
  import opened Taxonomy
  import opened Redis
  import opened WindowLog
  import opened WindowReads
  import opened TornReads
  import opened Percentiles

  const ALL_CLASSES: set<ErrorClass> :=
    {RateLimit, Timeout, ServerError, QuotaExhausted, AuthFailure, ContentFilter, BadRequest}

  lemma EveryClassListed(c: ErrorClass)
    ensures c in ALL_CLASSES
  {
  }

  datatype WindowCounts = WindowCounts(provider: string, ok: int, errors: map<ErrorClass, int>) {
    predicate ZeroFilled() {
      errors.Keys == ALL_CLASSES
    }

    function CountFor(o: Outcome): int
      requires ZeroFilled()
    {
      match o
      case Ok => ok
      case Failed(c) => EveryClassListed(c); errors[c]
    }

    function Total(): int
      requires ZeroFilled()
    {
      ok + errors[RateLimit] + errors[Timeout] + errors[ServerError] + errors[QuotaExhausted]
      + errors[AuthFailure] + errors[ContentFilter] + errors[BadRequest]
    }
  }

  /** The counts model rejects a negative number of successes; nothing else is checked. */
  datatype MergeError = NegativeOk(ok: int)

  lemma MergedSnoc(buckets: seq<map<string, Raw>>, i: nat, o: Outcome)
    requires i < |buckets|
    ensures Merged(buckets[..i + 1], o) == Merged(buckets[..i], o) + FieldCount(buckets[i], FieldFor(o))
  {
    var next := Column(buckets[..i + 1], FieldFor(o));
    assert next[..i] == Column(buckets[..i], FieldFor(o));
  }

  /** The field table, as the merge loop consults it. */
  lemma FieldMeaning(field: string)
    ensures field == FIELD_OK <==> field == FieldFor(Ok)
    ensures forall c :: ClassOfField(field) == Some(c) <==> field == FieldFor(Failed(c))
    ensures ClassOfField(FIELD_OK) == None
  {
    FieldTableInverts(field, RateLimit);
    forall c ensures ClassOfField(field) == Some(c) <==> field == FieldFor(Failed(c)) {
      FieldTableInverts(field, c);
    }
  }

  /** What the fields of one bucket already visited contribute to one outcome. */
  ghost function Visited(bucket: map<string, Raw>, todo: set<string>, o: Outcome): int {
    if FieldFor(o) in todo then 0 else FieldCount(bucket, FieldFor(o))
  }

  lemma VisitOne(bucket: map<string, Raw>, todo: set<string>, field: string, o: Outcome)
    requires field in todo && field in bucket
    ensures Visited(bucket, todo - {field}, o) ==
            Visited(bucket, todo, o) + if field == FieldFor(o) then AsCount(bucket[field]) else 0
  {
  }

  /** The inner merge loop: one bucket's fields, visited in arbitrary order. */
  method MergeBucket(bucket: map<string, Raw>, ok0: int, errors0: map<ErrorClass, int>)
    returns (ok: int, errors: map<ErrorClass, int>)
    requires errors0.Keys == ALL_CLASSES
    ensures ok == ok0 + FieldCount(bucket, FieldFor(Ok))
    ensures errors.Keys == ALL_CLASSES
    ensures forall c :: c in errors ==> errors[c] == errors0[c] + FieldCount(bucket, FieldFor(Failed(c)))
  {
    ok, errors := ok0, errors0;
    var todo := bucket.Keys;
    hide FieldFor, ClassOfField, FieldCount;
    assert Visited(bucket, todo, Ok) == 0 && forall c :: Visited(bucket, todo, Failed(c)) == 0 by {
      MissingCountsZero(bucket);
    }
    while todo != {}
      invariant todo <= bucket.Keys && errors.Keys == ALL_CLASSES
      invariant ok == ok0 + Visited(bucket, todo, Ok)
      invariant forall c :: c in errors ==> errors[c] == errors0[c] + Visited(bucket, todo, Failed(c))
    {
      var field :| field in todo;
      var count := AsCount(bucket[field]);
      forall o ensures Visited(bucket, todo - {field}, o) ==
                       Visited(bucket, todo, o) + if field == FieldFor(o) then count else 0 {
        VisitOne(bucket, todo, field, o);
      }
      FieldMeaning(field);
      todo := todo - {field};
      if field == FIELD_OK {
        ok := ok + count;
      } else {
        match ClassOfField(field) {
          case None =>
          case Some(c) =>
            EveryClassListed(c);
            errors := errors[c := errors[c] + count];
        }
      }
    }
  }

  lemma MissingCountsZero(bucket: map<string, Raw>)
    ensures forall o :: Visited(bucket, bucket.Keys, o) == 0
  {
  }

  /**
    The merge. The result is the field-wise sum over the buckets, all seven classes present; the one
    stored state it rejects is a negative `ok` total.
   */
  method Merge(provider: string, buckets: seq<map<string, Raw>>) returns (r: Result<WindowCounts, MergeError>)
    ensures r.Success? <==> Merged(buckets, Ok) >= 0
    ensures r.Success? ==> r.value.provider == provider && r.value.ZeroFilled()
    ensures r.Success? ==> forall o :: r.value.CountFor(o) == Merged(buckets, o)
    ensures r.Failure? ==> r.error == NegativeOk(Merged(buckets, Ok))
  {
    hide FieldFor, FieldCount, Merged;
    var ok := 0;
    var errors: map<ErrorClass, int> := map c | c in ALL_CLASSES :: 0;
    MergedEmpty();
    for i := 0 to |buckets|
      invariant errors.Keys == ALL_CLASSES
      invariant ok == Merged(buckets[..i], Ok)
      invariant forall c :: c in errors ==> errors[c] == Merged(buckets[..i], Failed(c))
    {
      forall o ensures Merged(buckets[..i + 1], o) == Merged(buckets[..i], o) + FieldCount(buckets[i], FieldFor(o)) {
        MergedSnoc(buckets, i, o);
      }
      ok, errors := MergeBucket(buckets[i], ok, errors);
    }
    assert buckets[..|buckets|] == buckets;
    if ok < 0 {
      return Failure(NegativeOk(ok));
    }
    forall c: ErrorClass ensures c in errors {
      EveryClassListed(c);
    }
    return Success(WindowCounts(provider, ok, errors));
  }

  /** The one store state the merge rejects, at its smallest: a single bucket whose `ok` field holds -1. */
  lemma NegativeOkExists()
    ensures Merged([map[FIELD_OK := Integer(-1)]], Ok) == -1
  {
    var bucket: map<string, Raw> := map[FIELD_OK := Integer(-1)];
    assert FieldCount(bucket, FieldFor(Ok)) == -1;
    MergedSnoc([bucket], 0, Ok);
    assert [bucket][..1] == [bucket];
    MergedEmpty();
  }

  lemma MergedEmpty()
    ensures forall o, buckets: seq<map<string, Raw>> :: |buckets| == 0 ==> Merged(buckets, o) == 0
  {
  }

  /** Merging is additive over any split of the buckets. */
  lemma MergedConcat(a: seq<map<string, Raw>>, b: seq<map<string, Raw>>, o: Outcome)
    ensures Merged(a + b, o) == Merged(a, o) + Merged(b, o)
  {
    var f := FieldFor(o);
    assert Column(a + b, f) == Column(a, f) + Column(b, f);
    SumConcat(Column(a, f), Column(b, f));
  }

  lemma MergedRemove(b: seq<map<string, Raw>>, k: nat, o: Outcome)
    requires k < |b|
    ensures Merged(b, o) == Merged(Without(b, k), o) + Merged([b[k]], o)
  {
    hide Merged;
    var front, one, back := b[..k], [b[k]], b[k + 1..];
    assert b == front + (one + back);
    MergedConcat(front, one + back, o);
    MergedConcat(one, back, o);
    MergedConcat(front, back, o);
  }

  /** ... and so independent of the order in which buckets are read. */
  lemma {:induction false} MergedIgnoresOrder(a: seq<map<string, Raw>>, b: seq<map<string, Raw>>, o: Outcome)
    requires multiset(a) == multiset(b)
    ensures Merged(a, o) == Merged(b, o)
  {
    hide Merged;
    SameLength(a, b);
    if a != [] {
      var k := SameElements(a, b);
      MergedRemove(a, 0, o);
      MergedRemove(b, k, o);
      MergedIgnoresOrder(Without(a, 0), Without(b, k), o);
    } else {
      assert a == b;
    }
  }

  /** A field this build does not know, or a value that is not an integer, changes no count. */
  lemma ForeignDataCountsZero(bucket: map<string, Raw>, field: string, raw: Raw, o: Outcome)
    requires (field != FIELD_OK && ClassOfField(field) == None) || (field !in bucket && raw.Text?)
    ensures FieldCount(bucket[field := raw], FieldFor(o)) == FieldCount(bucket, FieldFor(o))
  {
    if o.Failed? {
      FieldTableInverts(field, o.error);
    }
  }

  /** All outcomes of the merged window together. */
  function MergedTotal(buckets: seq<map<string, Raw>>): int {
    Merged(buckets, Ok)
    + Merged(buckets, Failed(RateLimit)) + Merged(buckets, Failed(Timeout)) + Merged(buckets, Failed(ServerError))
    + Merged(buckets, Failed(QuotaExhausted)) + Merged(buckets, Failed(AuthFailure))
    + Merged(buckets, Failed(ContentFilter)) + Merged(buckets, Failed(BadRequest))
  }

  lemma {:induction false} MergedTotalIsSum(buckets: seq<map<string, Raw>>)
    ensures MergedTotal(buckets) == Sum(Totals(buckets))
  {
    hide FieldFor, FieldCount, Merged;
    if buckets == [] {
      MergedEmpty();
    } else {
      var i := |buckets| - 1;
      var init := buckets[..i];
      MergedTotalIsSum(init);
      assert buckets[..i + 1] == buckets;
      MergedSnoc(buckets, i, Ok);
      MergedSnoc(buckets, i, Failed(RateLimit));
      MergedSnoc(buckets, i, Failed(Timeout));
      MergedSnoc(buckets, i, Failed(ServerError));
      MergedSnoc(buckets, i, Failed(QuotaExhausted));
      MergedSnoc(buckets, i, Failed(AuthFailure));
      MergedSnoc(buckets, i, Failed(ContentFilter));
      MergedSnoc(buckets, i, Failed(BadRequest));
      assert Totals(buckets)[..i] == Totals(init);
      assert Totals(buckets)[i] == HashTotal(buckets[i]);
    }
  }

  // ----- samples -----------------------------------------------------------------

  predicate Usable(raw: RawSample) {
    raw.Number? && raw.value >= 0.0
  }

  /** The usable entries of one list, in order. */
  function UsableIn(items: seq<RawSample>): seq<real> {
    if items == [] then []
    else
      var init := UsableIn(items[..|items| - 1]);
      var last := items[|items| - 1];
      if Usable(last) then init + [last.value] else init
  }

  /** A list only ever written by the gateway is read back whole and in order. */
  lemma {:induction false} AllUsable(items: seq<RawSample>)
    requires forall k :: 0 <= k < |items| ==> Usable(items[k])
    ensures |UsableIn(items)| == |items|
    ensures forall k :: 0 <= k < |items| ==> Number(UsableIn(items)[k]) == items[k]
  {
    if items != [] {
      AllUsable(items[..|items| - 1]);
    }
  }

  function UsableInAll(buckets: seq<seq<RawSample>>): seq<real> {
    if buckets == [] then [] else UsableInAll(buckets[..|buckets| - 1]) + UsableIn(buckets[|buckets| - 1])
  }

  /** Reading samples is a filter: a number not below zero is kept as it is, anything else is skipped, and what is
      kept keeps its order. */
  lemma {:induction false} UsableIsFilter(a: seq<RawSample>, b: seq<RawSample>)
    ensures UsableIn(a + b) == UsableIn(a) + UsableIn(b)
    ensures |b| == 1 ==> UsableIn(b) == if b[0].Number? && b[0].value >= 0.0 then [b[0].value] else []
  {
    if b == [] {
      assert a + b == a;
    } else {
      assert (a + b)[..|a + b| - 1] == a + b[..|b| - 1];
      UsableIsFilter(a, b[..|b| - 1]);
    }
  }

  /** ... list after list. */
  lemma {:induction false} UsableListByList(a: seq<seq<RawSample>>, b: seq<seq<RawSample>>)
    ensures UsableInAll(a + b) == UsableInAll(a) + UsableInAll(b)
    ensures |b| == 1 ==> UsableInAll(b) == UsableIn(b[0])
  {
    if b == [] {
      assert a + b == a;
    } else {
      assert (a + b)[..|a + b| - 1] == a + b[..|b| - 1];
      UsableListByList(a, b[..|b| - 1]);
    }
  }

  lemma RecordedAreUsable(s: seq<Commit>)
    ensures forall k :: 0 <= k < |ListOf(s)| ==> Usable(ListOf(s)[k])
  {
    ListIsNewest(s);
  }

  lemma {:induction false} AllUsableInAll(buckets: seq<seq<RawSample>>)
    requires forall j :: 0 <= j < |buckets| ==> forall k :: 0 <= k < |buckets[j]| ==> Usable(buckets[j][k])
    ensures |UsableInAll(buckets)| == Sum(Lengths(buckets))
  {
    if buckets != [] {
      var init := buckets[..|buckets| - 1];
      AllUsableInAll(init);
      AllUsable(buckets[|buckets| - 1]);
      assert Lengths(buckets)[..|buckets| - 1] == Lengths(init);
    }
  }

  /** The flattening loops: unusable entries are skipped, the rest keep their order. */
  method ParseSamples(buckets: seq<seq<RawSample>>) returns (samples: seq<real>)
    ensures samples == UsableInAll(buckets)
  {
    samples := [];
    for i := 0 to |buckets|
      invariant samples == UsableInAll(buckets[..i])
    {
      assert buckets[..i + 1][..i] == buckets[..i];
      var bucket := buckets[i];
      for k := 0 to |bucket|
        invariant samples == UsableInAll(buckets[..i]) + UsableIn(bucket[..k])
      {
        assert bucket[..k + 1][..k] == bucket[..k];
        match bucket[k] {
          case Number(value) =>
            if value >= 0.0 {
              samples := samples + [value];
            }
          case NotANumber =>
          case Garbage(_) =>
        }
      }
      assert bucket[..|bucket|] == bucket;
    }
    assert buckets[..|buckets|] == buckets;
  }

  // ----- the snapshot ---------------------------------------------------------------

  datatype ProviderHealth = ProviderHealth(
    counts: WindowCounts, sampleCount: nat, p50: Option<real>, p95: Option<real>, p99: Option<real>)
  {
    /** No attempts is unknown, not perfect. */
    function SuccessRate(): Option<real>
      requires counts.ZeroFilled()
    {
      if counts.Total() == 0 then None else Some(counts.ok as real / counts.Total() as real)
    }

    function ErrorRate(): Option<real>
      requires counts.ZeroFilled()
    {
      match SuccessRate()
      case None => None
      case Some(rate) => Some(1.0 - rate)
    }
  }

  function FromWindow(counts: WindowCounts, samples: seq<real>): ProviderHealth {
    var ordered := Ascending(samples);
    ProviderHealth(counts, |ordered|, Percentile(ordered, 50.0), Percentile(ordered, 95.0), Percentile(ordered, 99.0))
  }

  /** A snapshot's three percentiles are nearest-rank statistics of its samples, in ascending order of
      rank, all unknown together and only when there are no samples. */
  lemma SnapshotPercentiles(counts: WindowCounts, samples: seq<real>)
    ensures
      var h := FromWindow(counts, samples);
      && h.sampleCount == |samples|
      && (samples == [] <==> h.p50 == None) && (samples == [] <==> h.p95 == None) && (samples == [] <==> h.p99 == None)
      && (samples != [] ==>
            && h.p50.value <= h.p95.value <= h.p99.value
            && IsNearestRank(samples, Rank(50.0, |samples|), h.p50.value)
            && IsNearestRank(samples, Rank(95.0, |samples|), h.p95.value)
            && IsNearestRank(samples, Rank(99.0, |samples|), h.p99.value))
  {
    hide IsNearestRank, Rank, Ascending, Percentile;
    var s := Ascending(samples);
    PercentileIsNearestRank(samples, 50.0, 0.0);
    PercentileIsNearestRank(samples, 95.0, 0.0);
    PercentileIsNearestRank(samples, 99.0, 0.0);
    if samples != [] {
      var a, b, c := Percentile(s, 50.0).value, Percentile(s, 95.0).value, Percentile(s, 99.0).value;
      PercentileIsNearestRank(samples, 50.0, a);
      PercentileIsNearestRank(samples, 95.0, b);
      PercentileIsNearestRank(samples, 99.0, c);
      PercentileMonotone(samples, 50.0, 95.0);
      PercentileMonotone(samples, 95.0, 99.0);
    }
  }

  /** With honest counts the success rate is the share of successes among all attempts and the error rate that of
      the seven error classes; both are unknown exactly without attempts, and otherwise fractions that sum to one,
      the success rate being zero exactly without successes, one exactly without errors. */
  lemma RatesAreFractions(h: ProviderHealth)
    requires h.counts.ZeroFilled() && forall o :: h.counts.CountFor(o) >= 0
    ensures h.SuccessRate() == None <==> forall o :: h.counts.CountFor(o) == 0
    ensures h.SuccessRate().Some? ==>
              && 0.0 <= h.SuccessRate().value <= 1.0 && h.SuccessRate().value + h.ErrorRate().value == 1.0
              && (h.SuccessRate().value == 0.0 <==> h.counts.CountFor(Ok) == 0)
              && (h.SuccessRate().value == 1.0 <==> forall c :: h.counts.CountFor(Failed(c)) == 0)
    ensures
      var c := h.counts;
      var errors := c.CountFor(Failed(RateLimit)) + c.CountFor(Failed(Timeout)) + c.CountFor(Failed(ServerError))
        + c.CountFor(Failed(QuotaExhausted)) + c.CountFor(Failed(AuthFailure)) + c.CountFor(Failed(ContentFilter))
        + c.CountFor(Failed(BadRequest));
      var attempts := c.CountFor(Ok) + errors;
      && c.Total() == attempts
      && (attempts > 0 ==>
            && h.SuccessRate().Some? && h.SuccessRate().value * attempts as real == c.CountFor(Ok) as real
            && h.ErrorRate().Some? && h.ErrorRate().value * attempts as real == errors as real)
  {
    var c := h.counts;
    assert c.CountFor(Ok) >= 0 && c.CountFor(Failed(RateLimit)) >= 0 && c.CountFor(Failed(Timeout)) >= 0;
    assert c.CountFor(Failed(ServerError)) >= 0 && c.CountFor(Failed(QuotaExhausted)) >= 0;
    assert c.CountFor(Failed(AuthFailure)) >= 0 && c.CountFor(Failed(ContentFilter)) >= 0;
    assert c.CountFor(Failed(BadRequest)) >= 0;
    if c.Total() == 0 {
      forall o ensures c.CountFor(o) == 0 {
        if o.Failed? {
          EveryClassListed(o.error);
        }
      }
    } else {
      FractionOfTotal(c.ok, c.Total());
      SharesOfTotal(c.ok, c.Total());
      if c.ok == c.Total() {
        forall e ensures c.CountFor(Failed(e)) == 0 {
          EveryClassListed(e);
        }
      }
    }
  }

  lemma SharesOfTotal(part: int, total: int)
    requires total > 0
    ensures part as real / total as real * total as real == part as real
    ensures (1.0 - part as real / total as real) * total as real == (total - part) as real
  {
  }

  lemma FractionOfTotal(part: int, total: int)
    requires 0 <= part <= total && total > 0
    ensures 0.0 <= part as real / total as real <= 1.0
    ensures part as real / total as real == 0.0 <==> part == 0
    ensures part as real / total as real == 1.0 <==> part == total
  {
  }
}
