/** The metrics catalogue: labelled series built in place, and what they add up to over any run. */
module Metrics {
  import opened Common
  import opened Taxonomy
  import opened Labels

  /** One served request, as the ingress route reports it. */
  datatype Served = Served(tenant: string, feature: string, requestClass: string, provider: string, ok: bool)

  /** The label tuple of one requests_total series. */
  datatype Series = Series(tenant: string, feature: string, requestClass: string, provider: string, ok: bool)

  /** What one provider attempt reports. */
  datatype Attempted = Attempted(requestClass: string, provider: string, seconds: real, error: Option<ErrorClass>)

  /** A histogram, as far as its count and its sum. */
  datatype Observed = Observed(count: nat, sum: real)

  function Inc<K>(m: map<K, nat>, k: K): map<K, nat> {
    m[k := (if k in m then m[k] else 0) + 1]
  }

  function Observe<K>(m: map<K, Observed>, k: K, value: real): map<K, Observed> {
    m[k := if k in m then Observed(m[k].count + 1, m[k].sum + value) else Observed(1, value)]
  }

  /** One more observation of this value in this series, and no other series moved. */
  predicate OneMore<K>(m: map<K, Observed>, after: map<K, Observed>, k: K, value: real) {
    && after.Keys == m.Keys + {k}
    && after[k].count == (if k in m then m[k].count else 0) + 1
    && after[k].sum == (if k in m then m[k].sum else 0.0) + value
    && forall j :: j in m && j != k ==> after[j] == m[j]
  }

  lemma ObserveAddsOne<K>(m: map<K, Observed>, k: K, value: real)
    ensures OneMore(m, Observe(m, k, value), k, value)
  {
  }

  function Tenants(history: seq<Served>): (r: seq<string>)
    ensures |r| == |history| && forall k :: 0 <= k < |r| ==> r[k] == history[k].tenant
  {
    seq(|history|, k requires 0 <= k < |history| => history[k].tenant)
  }

  function Features(history: seq<Served>): (r: seq<string>)
    ensures |r| == |history| && forall k :: 0 <= k < |r| ==> r[k] == history[k].feature
  {
    seq(|history|, k requires 0 <= k < |history| => history[k].feature)
  }

  /** The series the k-th request of a history was counted under. Each label depends on its own stream only. */
  function SeriesAt(history: seq<Served>, cap: nat, k: nat): Series
    requires k < |history|
  {
    var r := history[k];
    Series(LabelAt(Tenants(history), cap, k), LabelAt(Features(history), cap, k), r.requestClass, r.provider, r.ok)
  }

  /** The series table the first `n` requests of a history leave behind: one increment each. */
  function TableOf(history: seq<Served>, cap: nat, n: nat): map<Series, nat>
    requires n <= |history|
  {
    if n == 0 then map[] else Inc(TableOf(history, cap, n - 1), SeriesAt(history, cap, n - 1))
  }

  class MetricsCatalogue {
    const tenants: LabelCapper
    const features: LabelCapper
    var requestsTotal: map<Series, nat>
    var requestDuration: map<(string, string), Observed>
    var gatewayOverhead: map<string, Observed>
    var providerErrors: map<(string, ErrorClass), nat>
    var healthWritesDropped: map<string, nat>
    ghost var history: seq<Served>

    ghost predicate Valid()
      reads this, tenants, features
    {
      && tenants != features
      && tenants.seen == SeenAfter(Tenants(history), tenants.cap)
      && features.seen == SeenAfter(Features(history), features.cap)
      && tenants.cap == features.cap
      && requestsTotal == TableOf(history, tenants.cap, |history|)
    }

    constructor (providers: set<string>, cap: nat := LABEL_CAP)
      ensures Valid() && fresh(tenants) && fresh(features)
      ensures tenants.cap == cap && history == [] && requestsTotal == map[]
      ensures requestDuration == map[] && gatewayOverhead == map[] && providerErrors == map[]
      ensures healthWritesDropped == map p | p in providers :: 0
    {
      tenants := new LabelCapper(cap);
      features := new LabelCapper(cap);
      requestsTotal, requestDuration, gatewayOverhead, providerErrors := map[], map[], map[], map[];
      healthWritesDropped := map p | p in providers :: 0;
      history := [];
    }

    /** Count one served request. No series other than its own moves, and none ever falls. */
    method ObserveRequest(r: Served)
      requires Valid()
      modifies this`requestsTotal, this`history, tenants, features
      ensures Valid() && history == old(history) + [r]
      ensures requestsTotal == Inc(old(requestsTotal), SeriesAt(history, tenants.cap, |old(history)|))
    {
      hide SeenAfter, Admit, TableOf, SeriesAt, Inc, Tenants, Features, Distinct;
      NextRequest(history, r, tenants.cap);
      ghost var s := SeriesAt(history + [r], tenants.cap, |history|);
      var tenant := tenants.Cap(r.tenant);
      var feature := features.Cap(r.feature);
      assert Series(tenant, feature, r.requestClass, r.provider, r.ok) == s;
      requestsTotal := Inc(requestsTotal, Series(tenant, feature, r.requestClass, r.provider, r.ok));
      history := history + [r];
    }

    /** Record one attempt: its duration in seconds, and its class if it failed. */
    method ObserveAttempt(a: Attempted)
      modifies this`requestDuration, this`providerErrors
      ensures requestDuration == Observe(old(requestDuration), (a.requestClass, a.provider), a.seconds)
      ensures providerErrors == match a.error
                                case None => old(providerErrors)
                                case Some(c) => Inc(old(providerErrors), (a.provider, c))
    {
      requestDuration := Observe(requestDuration, (a.requestClass, a.provider), a.seconds);
      match a.error {
        case None =>
        case Some(c) => providerErrors := Inc(providerErrors, (a.provider, c));
      }
    }

    /** Record gateway overhead; a negative reading counts as zero. */
    method ObserveOverhead(requestClass: string, seconds: real)
      modifies this`gatewayOverhead
      ensures gatewayOverhead == Observe(old(gatewayOverhead), requestClass, if seconds < 0.0 then 0.0 else seconds)
    {
      gatewayOverhead := Observe(gatewayOverhead, requestClass, if seconds < 0.0 then 0.0 else seconds);
    }

    method ObserveDroppedHealthWrite(provider: string)
      modifies this`healthWritesDropped
      ensures healthWritesDropped == Inc(old(healthWritesDropped), provider)
    {
      healthWritesDropped := Inc(healthWritesDropped, provider);
    }
  }

  lemma PrefixStreams(history: seq<Served>, r: Served, k: nat)
    requires k <= |history|
    ensures Tenants(history + [r])[..k] == Tenants(history)[..k]
    ensures Features(history + [r])[..k] == Features(history)[..k]
  {
  }

  lemma PrefixSeriesAt(history: seq<Served>, r: Served, cap: nat, k: nat)
    requires k < |history|
    ensures SeriesAt(history + [r], cap, k) == SeriesAt(history, cap, k)
  {
    PrefixStreams(history, r, k);
    hide SeenAfter, Admit;
  }

  /** What a request was counted under never changes when later requests arrive. */
  lemma {:induction false} PrefixTable(history: seq<Served>, r: Served, cap: nat, n: nat)
    requires n <= |history|
    ensures TableOf(history + [r], cap, n) == TableOf(history, cap, n)
  {
    hide SeriesAt, Inc;
    if n > 0 {
      PrefixTable(history, r, cap, n - 1);
      PrefixSeriesAt(history, r, cap, n - 1);
    }
  }

  /** One more request, as the two cappers and the table see it. */
  lemma NextRequest(history: seq<Served>, r: Served, cap: nat)
    ensures
      var tenants := Admit(SeenAfter(Tenants(history), cap), cap, r.tenant);
      var features := Admit(SeenAfter(Features(history), cap), cap, r.feature);
      var s := Series(if r.tenant in tenants then r.tenant else OTHER_LABEL,
                      if r.feature in features then r.feature else OTHER_LABEL,
                      r.requestClass, r.provider, r.ok);
      && SeenAfter(Tenants(history + [r]), cap) == tenants
      && SeenAfter(Features(history + [r]), cap) == features
      && SeriesAt(history + [r], cap, |history|) == s
      && TableOf(history + [r], cap, |history| + 1) == Inc(TableOf(history, cap, |history|), s)
  {
    var n := |history|;
    PrefixStreams(history, r, n);
    assert Tenants(history)[..n] == Tenants(history) && Features(history)[..n] == Features(history);
    PrefixTable(history, r, cap, n);
    hide Admit, Inc;
  }

  /** No series is ever reset or loses a count. */
  lemma {:induction false} SeriesNeverFall(history: seq<Served>, cap: nat, k: nat, n: nat, s: Series)
    requires k <= n <= |history|
    requires s in TableOf(history, cap, k)
    ensures s in TableOf(history, cap, n) && TableOf(history, cap, k)[s] <= TableOf(history, cap, n)[s]
    decreases n
  {
    hide SeriesAt;
    if k < n {
      SeriesNeverFall(history, cap, k, n - 1, s);
    }
  }

  // ----- summing series ----------------------------------------------------------------

  /** The sum of the series a query selects. */
  ghost function Total<K(!new)>(m: map<K, nat>, selects: K -> bool): nat
    decreases |m.Keys|
  {
    if m.Keys == {} then 0
    else
      var s :| s in m.Keys;
      assert (m - {s}).Keys == m.Keys - {s};
      Total(m - {s}, selects) + if selects(s) then m[s] else 0
  }

  lemma {:induction false} TotalPick<K(!new)>(m: map<K, nat>, selects: K -> bool, s: K)
    requires s in m
    ensures Total(m, selects) == Total(m - {s}, selects) + if selects(s) then m[s] else 0
    decreases |m.Keys|
  {
    var t :| t in m.Keys && Total(m, selects) == Total(m - {t}, selects) + if selects(t) then m[t] else 0;
    if t != s {
      assert (m - {t}).Keys == m.Keys - {t} && (m - {s}).Keys == m.Keys - {s};
      TotalPick(m - {t}, selects, s);
      TotalPick(m - {s}, selects, t);
      assert (m - {t}) - {s} == (m - {s}) - {t};
    }
  }

  lemma TotalInc<K(!new)>(m: map<K, nat>, selects: K -> bool, s: K)
    ensures Total(Inc(m, s), selects) == Total(m, selects) + if selects(s) then 1 else 0
  {
    TotalPick(Inc(m, s), selects, s);
    assert Inc(m, s) - {s} == m - {s};
    if s in m {
      TotalPick(m, selects, s);
    } else {
      assert m - {s} == m;
    }
  }

  /** How many of the first `n` requests were counted under a selected series. */
  ghost function CountSelected(history: seq<Served>, cap: nat, n: nat, selects: Series -> bool): nat
    requires n <= |history|
  {
    if n == 0 then 0
    else CountSelected(history, cap, n - 1, selects) + if selects(SeriesAt(history, cap, n - 1)) then 1 else 0
  }

  lemma {:induction false} TotalIsCount(history: seq<Served>, cap: nat, n: nat, selects: Series -> bool)
    requires n <= |history|
    ensures Total(TableOf(history, cap, n), selects) == CountSelected(history, cap, n, selects)
  {
    if n > 0 {
      TotalIsCount(history, cap, n - 1, selects);
      TotalInc(TableOf(history, cap, n - 1), selects, SeriesAt(history, cap, n - 1));
    }
  }

  lemma {:induction false} CountByTenant(history: seq<Served>, cap: nat, n: nat, tag: string)
    requires n <= |history|
    ensures CountSelected(history, cap, n, (s: Series) => s.tenant == tag) == CountLabel(Tenants(history), cap, n, tag)
  {
    hide LabelAt;
    if n > 0 {
      CountByTenant(history, cap, n - 1, tag);
    }
  }

  lemma {:induction false} CountByFeature(history: seq<Served>, cap: nat, n: nat, tag: string)
    requires n <= |history|
    ensures CountSelected(history, cap, n, (s: Series) => s.feature == tag) ==
            CountLabel(Features(history), cap, n, tag)
  {
    hide LabelAt;
    if n > 0 {
      CountByFeature(history, cap, n - 1, tag);
    }
  }

  lemma {:induction false} CountEverything(history: seq<Served>, cap: nat, n: nat)
    requires n <= |history|
    ensures CountSelected(history, cap, n, (s: Series) => true) == n
  {
    hide SeriesAt;
    if n > 0 {
      CountEverything(history, cap, n - 1);
    }
  }

  /** Over any run: the series sum to the number of requests; summed over everything else, an admitted
      tenant's series is its exact request count and the overflow series is exactly the rest; the same
      for features, whose budget is their own. */
  lemma SeriesAreLossless(history: seq<Served>, cap: nat, tag: string)
    ensures
      var n := |history|;
      var table := TableOf(history, cap, n);
      var tenants, features := SeenAfter(Tenants(history), cap), SeenAfter(Features(history), cap);
      && Total(table, s => true) == n
      && (tag != OTHER_LABEL && tag in tenants ==>
            Total(table, (s: Series) => s.tenant == tag) == CountValue(Tenants(history), n, tag))
      && Total(table, (s: Series) => s.tenant == OTHER_LABEL) ==
         CountOutside(Tenants(history), n, tenants - {OTHER_LABEL})
      && (tag != OTHER_LABEL && tag in features ==>
            Total(table, (s: Series) => s.feature == tag) == CountValue(Features(history), n, tag))
      && Total(table, (s: Series) => s.feature == OTHER_LABEL) ==
         CountOutside(Features(history), n, features - {OTHER_LABEL})
  {
    var n := |history|;
    hide Total, TableOf, CountSelected, CountLabel, CountValue, CountOutside, SeenAfter;
    TotalIsCount(history, cap, n, s => true);
    CountEverything(history, cap, n);
    CountByTenant(history, cap, n, tag);
    CountByTenant(history, cap, n, OTHER_LABEL);
    CountByFeature(history, cap, n, tag);
    CountByFeature(history, cap, n, OTHER_LABEL);
    TotalIsCount(history, cap, n, (s: Series) => s.tenant == tag);
    TotalIsCount(history, cap, n, (s: Series) => s.feature == tag);
    TotalIsCount(history, cap, n, (s: Series) => s.tenant == OTHER_LABEL);
    TotalIsCount(history, cap, n, (s: Series) => s.feature == OTHER_LABEL);
    CappingIsLossless(Tenants(history), cap, n, tag);
    CappingIsLossless(Features(history), cap, n, tag);
    CappingIsLossless(Tenants(history), cap, n, OTHER_LABEL);
    CappingIsLossless(Features(history), cap, n, OTHER_LABEL);
  }
}
