/** Classifying raw provider failures: first match over a class tree, then a gated refinement. */
module Normalize {
  import opened Common
  import opened Taxonomy
  import opened Startup

  /** An exception class in a single-inheritance tree, given as the names on its path from the root: the
      class itself last, its base just before it. Any such tree can be written this way. */
  type Class<N> = seq<N>

  /** `isinstance`: the class is `base` or descends from it. */
  predicate IsA<N(==)>(c: Class<N>, base: Class<N>) {
    base <= c
  }

  type Table<N> = seq<(Class<N>, ErrorClass)>

  /** First match, in table order; unmapped exceptions are server errors. */
  function Scan<N(==)>(table: Table<N>, c: Class<N>): ErrorClass {
    if table == [] then ServerError
    else if IsA(c, table[0].0) then table[0].1
    else Scan(table[1..], c)
  }

  /** Row `k` is the nearest ancestor-or-self of `c` the table maps. */
  predicate Nearest<N(==)>(table: Table<N>, c: Class<N>, k: int) {
    && 0 <= k < |table| && IsA(c, table[k].0)
    && forall j :: 0 <= j < |table| && IsA(c, table[j].0) ==> |table[j].0| <= |table[k].0|
  }

  predicate Mapped<N(==)>(table: Table<N>, c: Class<N>) {
    exists j :: 0 <= j < |table| && IsA(c, table[j].0)
  }

  /** Most specific first: no row stands below its own class or an ancestor of it. */
  predicate SpecificFirst<N(==)>(table: Table<N>) {
    forall j, k :: 0 <= j < k < |table| ==> !IsA(table[k].0, table[j].0)
  }

  lemma {:induction false} ScanFindsFirst<N>(table: Table<N>, c: Class<N>) returns (k: nat)
    requires Mapped(table, c)
    ensures k < |table| && IsA(c, table[k].0) && Scan(table, c) == table[k].1
    ensures forall j :: 0 <= j < k ==> !IsA(c, table[j].0)
  {
    if IsA(c, table[0].0) {
      k := 0;
    } else {
      var j :| 0 <= j < |table| && IsA(c, table[j].0);
      assert table[1..][j - 1] == table[j];
      var rest := ScanFindsFirst(table[1..], c);
      k := rest + 1;
    }
  }

  lemma {:induction false} UnmappedIsServerError<N>(table: Table<N>, c: Class<N>)
    requires !Mapped(table, c)
    ensures Scan(table, c) == ServerError
  {
    if table != [] {
      assert !IsA(c, table[0].0);
      assert forall j :: 0 <= j < |table| - 1 ==> table[1..][j] == table[j + 1];
      UnmappedIsServerError(table[1..], c);
    }
  }

  /** Of two ancestors of one class, the shorter path is an ancestor of the longer. */
  lemma AncestorsNest<N>(c: Class<N>, a: Class<N>, b: Class<N>)
    requires IsA(c, a) && IsA(c, b) && |a| <= |b|
    ensures IsA(b, a)
  {
  }

  /** In a most-specific-first table the first match is the closest mapped ancestor. */
  lemma FirstMatchIsNearest<N>(table: Table<N>, c: Class<N>, k: nat)
    requires SpecificFirst(table) && Nearest(table, c, k)
    ensures Scan(table, c) == table[k].1
  {
    var first := ScanFindsFirst(table, c);
    AncestorsNest(c, table[first].0, table[k].0);
  }

  /** Every most-specific-first arrangement of the same rows classifies every exception the same way. */
  lemma ReorderingIsHarmless<N>(table: Table<N>, other: Table<N>, c: Class<N>)
    requires SpecificFirst(table) && SpecificFirst(other) && multiset(table) == multiset(other)
    ensures Scan(table, c) == Scan(other, c)
  {
    forall r ensures r in table <==> r in other {
      assert r in table <==> r in multiset(table);
      assert r in other <==> r in multiset(other);
    }
    if Mapped(table, c) {
      var j := ScanFindsFirst(table, c);
      assert table[j] in other;
      assert Mapped(other, c);
      var k := ScanFindsFirst(other, c);
      SameRow(table, other, c, j, k);
    } else {
      assert !Mapped(other, c) by {
        forall k | 0 <= k < |other| ensures !IsA(c, other[k].0) {
          assert other[k] in table;
        }
      }
      UnmappedIsServerError(table, c);
      UnmappedIsServerError(other, c);
    }
  }

  lemma SameRow<N>(table: Table<N>, other: Table<N>, c: Class<N>, j: nat, k: nat)
    requires SpecificFirst(table) && SpecificFirst(other)
    requires forall r :: r in table <==> r in other
    requires j < |table| && IsA(c, table[j].0) && forall i :: 0 <= i < j ==> !IsA(c, table[i].0)
    requires k < |other| && IsA(c, other[k].0) && forall i :: 0 <= i < k ==> !IsA(c, other[i].0)
    ensures table[j] == other[k]
  {
    assert other[k] in table && table[j] in other;
    var j' :| 0 <= j' < |table| && table[j'] == other[k];
    var k' :| 0 <= k' < |other| && other[k'] == table[j];
    assert j <= j' && k <= k';
    if |table[j].0| <= |other[k].0| {
      AncestorsNest(c, table[j].0, table[j'].0);
    } else {
      AncestorsNest(c, other[k].0, other[k'].0);
    }
  }

  /** Order is load-bearing, exactly: every row decides its own class if and only if the table is most
      specific first; otherwise some row is dead. */
  lemma {:induction false} EveryRowReachableIff<N>(table: Table<N>)
    ensures SpecificFirst(table) <==> forall k :: 0 <= k < |table| ==> FirstMatch(table, table[k].0) == k
  {
    forall k | 0 <= k < |table|
      ensures FirstMatch(table, table[k].0) <= k
      ensures (forall j :: 0 <= j < k ==> !IsA(table[k].0, table[j].0)) <==> FirstMatch(table, table[k].0) == k
    {
      FirstMatchIs(table, table[k].0, k);
    }
  }

  /** The position of the first match, or the table's length. */
  function FirstMatch<N(==)>(table: Table<N>, c: Class<N>): (k: nat)
    ensures k <= |table|
  {
    if table == [] || IsA(c, table[0].0) then 0 else 1 + FirstMatch(table[1..], c)
  }

  lemma {:induction false} FirstMatchIs<N>(table: Table<N>, c: Class<N>, k: nat)
    requires k < |table| && IsA(c, table[k].0)
    ensures FirstMatch(table, c) <= k
    ensures FirstMatch(table, c) == k <==> forall j :: 0 <= j < k ==> !IsA(c, table[j].0)
  {
    if !IsA(c, table[0].0) {
      FirstMatchIs(table[1..], c, k - 1);
      assert forall j :: 0 < j < k ==> table[1..][j - 1] == table[j];
    }
  }

  // ----- refinement --------------------------------------------------------------------------

  /** A message rule: the class it yields, and whether it matches a message. */
  datatype Refinement = Refinement(to: ErrorClass, matches: string -> bool)

  type Rules = map<AdapterName, seq<Refinement>>

  /** What an adapter caught: its class and its text. */
  datatype RawError<N> = RawError(cls: Class<N>, message: string)

  function FirstRule(rules: seq<Refinement>, message: string): Option<Refinement> {
    if rules == [] then None
    else if rules[0].matches(message) then Some(rules[0])
    else FirstRule(rules[1..], message)
  }

  /** A rule may fire only on a server error. */
  function MatchingRefinement(rules: Rules, base: ErrorClass, message: string,
                              provider: AdapterName): Option<Refinement> {
    if base != ServerError then None
    else FirstRule(if provider in rules then rules[provider] else [], message)
  }

  function Refine(rules: Rules, base: ErrorClass, message: string, provider: AdapterName): ErrorClass {
    match MatchingRefinement(rules, base, message, provider)
    case None => base
    case Some(rule) => rule.to
  }

  /** Type table first, then the provider's rules if a provider is named. */
  function Normalized<N(==)>(table: Table<N>, rules: Rules, f: RawError<N>, provider: Option<AdapterName>): ErrorClass {
    var base := Scan(table, f.cls);
    match provider
    case None => base
    case Some(p) => Refine(rules, base, f.message, p)
  }

  lemma {:induction false} FirstRuleIsFirst(rules: seq<Refinement>, message: string)
    ensures FirstRule(rules, message) == None <==> forall k :: 0 <= k < |rules| ==> !rules[k].matches(message)
    ensures FirstRule(rules, message).Some? ==>
              exists k :: 0 <= k < |rules| && rules[k] == FirstRule(rules, message).value && rules[k].matches(message)
                          && forall j :: 0 <= j < k ==> !rules[j].matches(message)
  {
    if rules != [] && !rules[0].matches(message) {
      FirstRuleIsFirst(rules[1..], message);
      assert forall k :: 0 < k < |rules| ==> rules[1..][k - 1] == rules[k];
      if FirstRule(rules, message).Some? {
        var k :| 0 <= k < |rules[1..]| && rules[1..][k] == FirstRule(rules, message).value
                 && rules[1..][k].matches(message)
                 && forall j :: 0 <= j < k ==> !rules[1..][j].matches(message);
        assert rules[k + 1] == FirstRule(rules, message).value;
      }
    }
  }

  /** Refinement changes a result only where the type table said server error and one of the provider's own
      rules matches, and then the first that does decides; so it never turns a failure the breaker ignores into
      one it counts, whatever the rules. */
  lemma RefinementIsGated<N>(table: Table<N>, rules: Rules, f: RawError<N>, provider: Option<AdapterName>)
    ensures
      var base, refined := Scan(table, f.cls), Normalized(table, rules, f, provider);
      && (refined != base ==>
            && base == ServerError && provider.Some? && provider.value in rules
            && exists k :: 0 <= k < |rules[provider.value]| && rules[provider.value][k].matches(f.message)
                           && rules[provider.value][k].to == refined)
      && (base == ServerError && provider.Some? && provider.value in rules ==>
            forall k :: 0 <= k < |rules[provider.value]| && rules[provider.value][k].matches(f.message)
                        && (forall j :: 0 <= j < k ==> !rules[provider.value][j].matches(f.message)) ==>
                refined == rules[provider.value][k].to)
      && (CountsTowardBreaker(refined) ==> CountsTowardBreaker(base))
  {
    if provider.Some? && provider.value in rules {
      FirstRuleIsFirst(rules[provider.value], f.message);
    }
  }

  /** The shipped rules, over whatever their two patterns match. */
  function ShippedRules(auth: string -> bool, rateLimit: string -> bool): Rules {
    map[Cohere := [Refinement(AuthFailure, auth), Refinement(RateLimit, rateLimit)]]
  }

  /** The case the refinement exists for: a failure the type table can only call a server error, and so one
      the breaker would count, stops counting exactly when a Cohere message says the key is bad; the key
      rule outranks the throttling rule, and no other adapter's messages are read at all. */
  lemma BadKeyDoesNotTripTheBreaker<N>(table: Table<N>, f: RawError<N>, provider: Option<AdapterName>,
                                       auth: string -> bool, rateLimit: string -> bool)
    requires Scan(table, f.cls) == ServerError
    ensures
      var refined := Normalized(table, ShippedRules(auth, rateLimit), f, provider);
      && refined == (if provider != Some(Cohere) then ServerError
                     else if auth(f.message) then AuthFailure
                     else if rateLimit(f.message) then RateLimit
                     else ServerError)
      && (CountsTowardBreaker(refined) <==> !(provider == Some(Cohere) && auth(f.message)))
  {
    var authRule, rateRule := Refinement(AuthFailure, auth), Refinement(RateLimit, rateLimit);
    assert [authRule, rateRule][1..] == [rateRule] && [rateRule][1..] == [];
    assert FirstRule([rateRule], f.message) == if rateLimit(f.message) then Some(rateRule) else None;
    assert FirstRule([authRule, rateRule], f.message) ==
           if auth(f.message) then Some(authRule) else if rateLimit(f.message) then Some(rateRule) else None;
  }
}
