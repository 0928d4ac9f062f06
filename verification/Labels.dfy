/** First-seen-wins label capping: what a whole stream of label values turns into. */
module Labels {

  const LABEL_CAP: nat := 64
  const OTHER_LABEL := "other"

  /** The admitted set after one more value. */
  function Admit(seen: set<string>, cap: nat, value: string): set<string> {
    if value in seen then seen
    else if |seen| < cap then seen + {value}
    else seen
  }

  function SeenAfter(values: seq<string>, cap: nat): set<string> {
    if values == [] then {} else Admit(SeenAfter(values[..|values| - 1], cap), cap, values[|values| - 1])
  }

  /** The label the k-th value of a stream was recorded under, at the time. */
  function LabelAt(values: seq<string>, cap: nat, k: nat): string
    requires k < |values|
  {
    if values[k] in Admit(SeenAfter(values[..k], cap), cap, values[k]) then values[k] else OTHER_LABEL
  }

  function Distinct(values: seq<string>): set<string> {
    set v | v in values
  }

  /** One client-supplied label, bounded. */
  class LabelCapper {
    const cap: nat
    var seen: set<string>
    var warned: bool

    constructor (cap: nat)
      ensures this.cap == cap && seen == {} && !warned
    {
      this.cap := cap;
      seen := {};
      warned := false;
    }

    /** The label for one value. The overflow warning is latched the first time a value is folded away. */
    method Cap(value: string) returns (recorded: string)
      modifies this
      ensures seen == Admit(old(seen), cap, value)
      ensures recorded == if value in seen then value else OTHER_LABEL
      ensures warned <==> old(warned) || value !in seen
    {
      if value in seen {
        return value;
      }
      if |seen| < cap {
        seen := seen + {value};
        return value;
      }
      if !warned {
        warned := true;
      }
      return OTHER_LABEL;
    }
  }

  lemma {:induction false} SeenBounded(values: seq<string>, cap: nat)
    ensures |SeenAfter(values, cap)| <= cap
    ensures SeenAfter(values, cap) <= Distinct(values)
  {
    if values != [] {
      SeenBounded(values[..|values| - 1], cap);
    }
  }

  /** Nothing is ever evicted, and once the cap is reached nothing is ever admitted. */
  lemma {:induction false} SeenGrows(values: seq<string>, cap: nat, k: nat)
    requires k <= |values|
    ensures SeenAfter(values[..k], cap) <= SeenAfter(values, cap)
    ensures |SeenAfter(values[..k], cap)| >= cap ==> SeenAfter(values[..k], cap) == SeenAfter(values, cap)
  {
    if k == |values| {
      assert values[..k] == values;
    } else {
      var init := values[..|values| - 1];
      SeenGrows(init, cap, k);
      assert init[..k] == values[..k];
      if |SeenAfter(init, cap)| < cap {
        SubsetSize(SeenAfter(values[..k], cap), SeenAfter(init, cap));
      }
    }
  }

  lemma SubsetSize(a: set<string>, b: set<string>)
    requires a <= b
    ensures |a| <= |b|
  {
    assert b == a + (b - a);
  }

  /** The label of a value is the same at every occurrence over the life of the process: the value itself
      if it is among those ever admitted, and the overflow label otherwise. */
  lemma LabelNeverChanges(values: seq<string>, cap: nat, k: nat)
    requires k < |values|
    ensures LabelAt(values, cap, k) == if values[k] in SeenAfter(values, cap) then values[k] else "other"
  {
    SeenGrows(values, cap, k);
    SeenGrows(values, cap, k + 1);
    assert values[..k + 1][..k] == values[..k];
    SeenBounded(values[..k], cap);
  }

  lemma {:induction false} UnderCapAllSeen(values: seq<string>, cap: nat)
    ensures |Distinct(values)| <= cap ==> SeenAfter(values, cap) == Distinct(values)
    ensures |Distinct(values)| >= cap ==> |SeenAfter(values, cap)| == cap
  {
    if values != [] {
      var init, v := values[..|values| - 1], values[|values| - 1];
      UnderCapAllSeen(init, cap);
      SeenBounded(init, cap);
      DistinctSnoc(init, v);
      assert values == init + [v];
      hide Distinct;
      if |Distinct(values)| <= cap {
        assert SeenAfter(init, cap) == Distinct(init);
      }
    }
  }

  lemma DistinctSnoc(init: seq<string>, v: string)
    ensures Distinct(init + [v]) == Distinct(init) + {v}
    ensures v in Distinct(init) ==> Distinct(init + [v]) == Distinct(init)
    ensures v !in Distinct(init) ==> |Distinct(init + [v])| == |Distinct(init)| + 1
  {
    assert Distinct(init + [v]) == Distinct(init) + {v};
    assert v in Distinct(init) ==> Distinct(init) + {v} == Distinct(init);
  }

  /** Admission is exactly first-seen-wins: a value is admitted if and only if fewer than `cap` distinct
      values came before some occurrence of it. */
  lemma FirstSeenWins(values: seq<string>, cap: nat, v: string)
    ensures v in SeenAfter(values, cap) <==>
            exists k :: 0 <= k < |values| && values[k] == v && |Distinct(values[..k])| < cap
  {
    if v in SeenAfter(values, cap) {
      var k := AdmittedAt(values, cap, v);
    }
    forall k | 0 <= k < |values| && values[k] == v && |Distinct(values[..k])| < cap
      ensures v in SeenAfter(values, cap)
    {
      UnderCapAllSeen(values[..k], cap);
      assert values[..k + 1][..k] == values[..k];
      SeenGrows(values, cap, k + 1);
    }
  }

  lemma {:induction false} AdmittedAt(values: seq<string>, cap: nat, v: string) returns (k: nat)
    requires v in SeenAfter(values, cap)
    ensures k < |values| && values[k] == v && |Distinct(values[..k])| < cap
  {
    var init := values[..|values| - 1];
    if v in SeenAfter(init, cap) {
      k := AdmittedAt(init, cap, v);
      assert init[..k] == values[..k];
    } else {
      k := |values| - 1;
      UnderCapAllSeen(init, cap);
      SeenBounded(init, cap);
      assert |SeenAfter(init, cap)| < cap;
    }
  }

  function LabelsUsed(values: seq<string>, cap: nat): set<string> {
    set k | 0 <= k < |values| :: LabelAt(values, cap, k)
  }

  /** However many values arrive, one label takes at most cap + 1 of them: 65 under the shipped cap. */
  lemma LabelsBounded(values: seq<string>, cap: nat)
    ensures |LabelsUsed(values, cap)| <= cap + 1
    ensures cap == LABEL_CAP ==> |LabelsUsed(values, cap)| <= 65
  {
    var kept := SeenAfter(values, cap) + {OTHER_LABEL};
    forall k | 0 <= k < |values| ensures LabelAt(values, cap, k) in kept {
      LabelNeverChanges(values, cap, k);
    }
    SeenBounded(values, cap);
    SubsetSize(LabelsUsed(values, cap), kept);
  }

  // ----- counting ------------------------------------------------------------------

  /** How many of the first `n` values were recorded under `label`. */
  function CountLabel(values: seq<string>, cap: nat, n: nat, tag: string): nat
    requires n <= |values|
  {
    if n == 0 then 0
    else CountLabel(values, cap, n - 1, tag) + if LabelAt(values, cap, n - 1) == tag then 1 else 0
  }

  /** How many of the first `n` values are `value`. */
  function CountValue(values: seq<string>, n: nat, value: string): nat
    requires n <= |values|
  {
    if n == 0 then 0 else CountValue(values, n - 1, value) + if values[n - 1] == value then 1 else 0
  }

  /** How many of the first `n` values lie outside `kept`. */
  function CountOutside(values: seq<string>, n: nat, kept: set<string>): nat
    requires n <= |values|
  {
    if n == 0 then 0 else CountOutside(values, n - 1, kept) + if values[n - 1] !in kept then 1 else 0
  }

  /** Capping is lossless: an admitted value's series is its exact count, the overflow series holds exactly
      everything else, and any other label has no series at all. */
  lemma {:induction false} CappingIsLossless(values: seq<string>, cap: nat, n: nat, tag: string)
    requires n <= |values|
    ensures
      var kept := SeenAfter(values, cap);
      CountLabel(values, cap, n, tag) ==
      if tag == OTHER_LABEL then CountOutside(values, n, kept - {OTHER_LABEL})
      else if tag in kept then CountValue(values, n, tag)
      else 0
  {
    hide SeenAfter, LabelAt;
    if n > 0 {
      CappingIsLossless(values, cap, n - 1, tag);
      LabelNeverChanges(values, cap, n - 1);
    }
  }
}
