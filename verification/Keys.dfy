/** The two key shapes of the health window, as strings, and why no two buckets share one. */
module Keys {

  const HEALTH_KEY_PREFIX := "keel:health"
  const LATENCY_KEY_PREFIX := "keel:latency"

  function Digit(d: int): (c: char)
    requires 0 <= d < 10
    ensures c != ':' && c != '-'
  {
    "0123456789"[d]
  }

  /** Decimal text of a natural number, with no leading zeros. */
  function Digits(n: nat): (s: string)
    ensures s != []
  {
    if n < 10 then [Digit(n)] else Digits(n / 10) + [Digit(n % 10)]
  }

  /** Decimal text of an integer. */
  function Decimal(n: int): string {
    if n < 0 then "-" + Digits(-n) else Digits(n)
  }

  function Key(prefix: string, provider: string, index: int): string {
    prefix + ":" + (provider + ":" + Decimal(index))
  }

  function BucketKey(provider: string, index: int): string {
    Key(HEALTH_KEY_PREFIX, provider, index)
  }

  function LatencyKey(provider: string, index: int): string {
    Key(LATENCY_KEY_PREFIX, provider, index)
  }

  lemma {:induction false} DigitsPlain(n: nat)
    ensures ':' !in Digits(n) && '-' !in Digits(n)
  {
    if n >= 10 {
      DigitsPlain(n / 10);
    }
  }

  lemma DigitInjective(a: int, b: int)
    requires 0 <= a < 10 && 0 <= b < 10 && Digit(a) == Digit(b)
    ensures a == b
  {
  }

  lemma {:induction false} DigitsInjective(a: nat, b: nat)
    requires Digits(a) == Digits(b)
    ensures a == b
  {
    var s, t := Digits(a), Digits(b);
    assert s[|s| - 1] == Digit(a % 10) && t[|t| - 1] == Digit(b % 10);
    DigitInjective(a % 10, b % 10);
    assert a >= 10 <==> |s| >= 2;
    assert b >= 10 <==> |t| >= 2;
    if a >= 10 {
      assert s[..|s| - 1] == Digits(a / 10) && t[..|t| - 1] == Digits(b / 10);
      DigitsInjective(a / 10, b / 10);
    }
  }

  lemma DecimalSign(n: int)
    ensures Decimal(n) != [] && (Decimal(n)[0] == '-' <==> n < 0)
  {
    DigitsPlain(if n < 0 then -n else n);
  }

  lemma DecimalInjective(a: int, b: int)
    requires Decimal(a) == Decimal(b)
    ensures a == b
  {
    DecimalSign(a);
    DecimalSign(b);
    if a < 0 {
      assert Decimal(a)[1..] == Digits(-a) && Decimal(b)[1..] == Digits(-b);
      DigitsInjective(-a, -b);
    } else {
      DigitsInjective(a, b);
    }
  }

  lemma DecimalPlain(n: int)
    ensures ':' !in Decimal(n)
  {
    DigitsPlain(if n < 0 then -n else n);
  }

  /** The number a string of decimal digits denotes. */
  function NumberOf(s: string): int
    requires forall k :: 0 <= k < |s| ==> '0' <= s[k] <= '9'
  {
    if s == [] then 0 else 10 * NumberOf(s[..|s| - 1]) + (s[|s| - 1] as int - '0' as int)
  }

  /** Decimal text denotes its number, without leading zeros. */
  lemma {:induction false} DigitsDenote(n: nat)
    ensures forall k :: 0 <= k < |Digits(n)| ==> '0' <= Digits(n)[k] <= '9'
    ensures NumberOf(Digits(n)) == n && (Digits(n)[0] == '0' <==> n == 0)
  {
    if n >= 10 {
      DigitsDenote(n / 10);
      assert Digits(n)[..|Digits(n)| - 1] == Digits(n / 10);
    }
    DigitDenotes(n % 10);
  }

  lemma DigitDenotes(d: int)
    requires 0 <= d < 10
    ensures '0' <= Digit(d) <= '9' && Digit(d) as int - '0' as int == d
  {
  }

  /** The two keys of a bucket, as text. */
  lemma KeyShapes(p: string, i: int)
    ensures BucketKey(p, i) == "keel:health:" + p + ":" + Decimal(i)
    ensures LatencyKey(p, i) == "keel:latency:" + p + ":" + Decimal(i)
    ensures Decimal(i) == if i < 0 then ['-'] + Digits(-i) else Digits(i)
  {
    Prefixed(HEALTH_KEY_PREFIX, p, Decimal(i));
    Prefixed(LATENCY_KEY_PREFIX, p, Decimal(i));
    assert HEALTH_KEY_PREFIX + ":" == "keel:health:" && LATENCY_KEY_PREFIX + ":" == "keel:latency:";
  }

  lemma Prefixed(prefix: string, p: string, s: string)
    ensures prefix + ":" + (p + ":" + s) == prefix + ":" + p + ":" + s
  {
  }

  /** A name and an index joined by the last colon split back in one way only. */
  lemma LastColonSplits(p: string, q: string, s: string, t: string)
    requires p + ":" + s == q + ":" + t
    requires ':' !in s && ':' !in t
    ensures p == q && s == t
  {
    var x := p + ":" + s;
    assert x[|p|] == ':' && x[|q|] == ':';
    assert forall k :: |p| < k < |x| ==> x[k] == s[k - |p| - 1];
    assert forall k :: |q| < k < |x| ==> x[k] == t[k - |q| - 1];
    assert |p| == |q|;
    assert x[..|p|] == p && x[..|q|] == q;
    assert x[|p| + 1..] == s && x[|q| + 1..] == t;
  }

  lemma KeyInjective(prefix: string, p: string, i: int, q: string, j: int)
    requires Key(prefix, p, i) == Key(prefix, q, j)
    ensures p == q && i == j
  {
    var a, b := Key(prefix, p, i), Key(prefix, q, j);
    assert a[|prefix| + 1..] == p + ":" + Decimal(i);
    assert b[|prefix| + 1..] == q + ":" + Decimal(j);
    DecimalPlain(i);
    DecimalPlain(j);
    LastColonSplits(p, q, Decimal(i), Decimal(j));
    DecimalInjective(i, j);
  }

  /** One key, one bucket: for any provider names at all, colons included. */
  lemma BucketKeyInjective(p: string, i: int, q: string, j: int)
    ensures BucketKey(p, i) == BucketKey(q, j) <==> p == q && i == j
    ensures LatencyKey(p, i) == LatencyKey(q, j) <==> p == q && i == j
  {
    if BucketKey(p, i) == BucketKey(q, j) {
      KeyInjective(HEALTH_KEY_PREFIX, p, i, q, j);
    }
    if LatencyKey(p, i) == LatencyKey(q, j) {
      KeyInjective(LATENCY_KEY_PREFIX, p, i, q, j);
    }
  }

  /** A count key is never a sample key, so the two value types never meet in one key. */
  lemma KindsDisjoint(p: string, i: int, q: string, j: int)
    ensures BucketKey(p, i) != LatencyKey(q, j)
  {
    assert BucketKey(p, i)[5] == 'h' && LatencyKey(q, j)[5] == 'l';
  }
}
