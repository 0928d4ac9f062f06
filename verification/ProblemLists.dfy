/** A rejection names each cause once: the expected problem list never repeats itself. */
module ProblemLists {
  import opened Common
  import opened Envelope

  /** How often a problem is on a list. */
  function Times(ps: seq<Problem>, p: Problem): nat {
    multiset(ps)[p]
  }

  lemma TimesAppend(a: seq<Problem>, b: seq<Problem>, p: Problem)
    ensures Times(a + b, p) == Times(a, p) + Times(b, p)
  {
  }

  lemma TimesSnoc(a: seq<Problem>, last: Problem, p: Problem)
    ensures Times(a + [last], p) == Times(a, p) + if p == last then 1 else 0
  {
    assert multiset([last])[p] == if p == last then 1 else 0;
  }

  /** A JSON object has each key once. */
  predicate DistinctKeys(fields: Fields) {
    forall j, k :: 0 <= j < k < |fields| ==> fields[j].0 != fields[k].0
  }

  predicate DistinctFields(fs: seq<Field>) {
    forall j, k :: 0 <= j < k < |fs| ==> fs[j] != fs[k]
  }

  lemma UnknownKeysDiffer(a: string, b: string)
    requires a != b
    ensures UnknownKey(a) != UnknownKey(b)
  {
    var prefix := BODY_EXTENSION_KEY + ".";
    assert (prefix + a)[|prefix|..] == a && (prefix + b)[|prefix|..] == b;
  }

  lemma {:induction false} UnknownKeysOnce(ext: Fields, p: Problem)
    requires DistinctKeys(ext)
    ensures Times(UnknownKeys(ext), p) <= 1
  {
    hide Times, UnknownKey, Accepted;
    if ext == [] {
      assert Times([], p) == 0 by {
        NothingThere(p);
      }
    } else {
      var init, key := ext[..|ext| - 1], ext[|ext| - 1].0;
      UnknownKeysOnce(init, p);
      TimesSnoc(UnknownKeys(init), UnknownKey(key), p);
      ThereMeansIn(UnknownKeys(init), p);
      UnknownKeyReported(init, p);
      forall k | 0 <= k < |init| ensures UnknownKey(init[k].0) != UnknownKey(key) {
        UnknownKeysDiffer(init[k].0, key);
      }
    }
  }

  lemma NothingThere(p: Problem)
    ensures Times([], p) == 0
  {
  }

  lemma ThereMeansIn(ps: seq<Problem>, p: Problem)
    ensures Times(ps, p) > 0 <==> p in ps
  {
  }

  lemma {:induction false} TypeProblemsOnce(h: map<string, string>, ext: Fields, fs: seq<Field>, p: Problem)
    requires DistinctFields(fs)
    ensures Times(TypeProblems(h, ext, fs), p) <= 1
  {
    hide Times, WrongType;
    if fs == [] {
      NothingThere(p);
    } else {
      var init, last := fs[..|fs| - 1], fs[|fs| - 1];
      TypeProblemsOnce(h, ext, init, p);
      TimesSnoc(TypeProblems(h, ext, init), BadValue(last), p);
      ThereMeansIn(TypeProblems(h, ext, init), p);
      WrongTypeReported(h, ext, init, p);
      forall f | f in init ensures BadValue(f) != BadValue(last) {
        HeadersDiffer(f, last);
      }
    }
  }

  lemma {:induction false} MissingProblemsOnce(h: map<string, string>, ext: Fields, fs: seq<Field>, p: Problem)
    requires DistinctFields(fs)
    ensures Times(MissingProblems(h, ext, fs), p) <= 1
  {
    hide Times, Resolved, Supplied;
    if fs == [] {
      NothingThere(p);
    } else {
      var init, last := fs[..|fs| - 1], fs[|fs| - 1];
      MissingProblemsOnce(h, ext, init, p);
      TimesSnoc(MissingProblems(h, ext, init), MissingValue(last), p);
      ThereMeansIn(MissingProblems(h, ext, init), p);
      MissingReported(h, ext, init, p);
      forall f | f in init ensures MissingValue(f) != MissingValue(last) {
        HeadersDiffer(f, last);
      }
    }
  }

  lemma ShortListsOnce(x: Problem, p: Problem)
    ensures Times([], p) == 0 && Times([x], p) == if p == x then 1 else 0
  {
    assert multiset([x])[p] == if p == x then 1 else 0;
  }

  /** Which part of the report a problem belongs to. */
  function PartOf(p: Problem): nat {
    match p.code
    case UnknownField => 0
    case Invalid => if p.header == None then 0 else if p.header == Some(Header(Capabilities)) then 2 else 1
    case Missing => if p.header == Some(Header(IdempotencyKey)) then 4 else 3
    case UnknownRequestClass => 4
  }

  lemma ExtensionPart(body: Fields, p: Problem)
    requires DistinctKeys(ExtensionOf(body))
    ensures Times(ExtensionProblems(body), p) <= if PartOf(p) == 0 then 1 else 0
  {
    UnknownKeysOnce(ExtensionOf(body), p);
    UnknownKeyReported(ExtensionOf(body), p);
    ShortListsOnce(Problem(BODY_EXTENSION_KEY, None, Invalid), p);
    ThereMeansIn(UnknownKeys(ExtensionOf(body)), p);
    hide Times, Accepted, UnknownKeys, Header;
  }

  lemma FieldParts(h: map<string, string>, ext: Fields, p: Problem)
    ensures Times(TypeProblems(h, ext, STRING_FIELDS), p) <= if PartOf(p) == 1 then 1 else 0
    ensures Times(MissingProblems(h, ext, REQUIRED), p) <= if PartOf(p) == 3 then 1 else 0
  {
    hide Times, WrongType, Supplied, TypeProblems, MissingProblems, Header;
    TypeProblemsOnce(h, ext, STRING_FIELDS, p);
    MissingProblemsOnce(h, ext, REQUIRED, p);
    WrongTypeReported(h, ext, STRING_FIELDS, p);
    MissingReported(h, ext, REQUIRED, p);
    ThereMeansIn(TypeProblems(h, ext, STRING_FIELDS), p);
    ThereMeansIn(MissingProblems(h, ext, REQUIRED), p);
    forall f ensures f in STRING_FIELDS && p == BadValue(f) ==> PartOf(p) == 1 {
      if f in STRING_FIELDS {
        HeadersDiffer(f, Capabilities);
      }
    }
    forall f ensures f in REQUIRED && p == MissingValue(f) ==> PartOf(p) == 3 {
      if f in REQUIRED {
        HeadersDiffer(f, IdempotencyKey);
      }
    }
  }

  lemma SinglePart(h: map<string, string>, ext: Fields, classes: Classes, p: Problem)
    ensures Times(TagProblems(h, ext), p) <= if PartOf(p) == 2 then 1 else 0
    ensures Times(ClassProblems(h, ext, classes), p) <= if PartOf(p) == 4 then 1 else 0
  {
    hide Times, Header, Resolved, Tags;
    ShortListsOnce(BadValue(Capabilities), p);
    ShortListsOnce(MissingValue(IdempotencyKey), p);
    ShortListsOnce(Problem(Name(RequestClass), Some(Header(RequestClass)), UnknownRequestClass), p);
  }

  /** Every problem is reported once: with the causes of Envelope.ProblemsAreExactlyTheCauses, the list is an
      exact account of what is wrong. */
  lemma NothingIsReportedTwice(headers: Headers, body: Fields, classes: Classes, p: Problem)
    requires DistinctKeys(ExtensionOf(body))
    ensures Times(Expected(headers, body, classes), p) <= 1
    ensures Times(Expected(headers, body, classes), p) == 1 <==> p in Expected(headers, body, classes)
  {
    var h, ext := Lowered(headers), ExtensionOf(body);
    var a, b, c := ExtensionProblems(body), TypeProblems(h, ext, STRING_FIELDS), TagProblems(h, ext);
    var d, e := MissingProblems(h, ext, REQUIRED), ClassProblems(h, ext, classes);
    ExtensionPart(body, p);
    FieldParts(h, ext, p);
    SinglePart(h, ext, classes, p);
    assert Expected(headers, body, classes) == a + b + c + d + e;
    hide Times, PartOf, Expected, Lowered, ExtensionOf, ExtensionProblems, TypeProblems, TagProblems, MissingProblems,
         ClassProblems;
    TimesAppend(a, b, p);
    TimesAppend(a + b, c, p);
    TimesAppend(a + b + c, d, p);
    TimesAppend(a + b + c + d, e, p);
    ThereMeansIn(Expected(headers, body, classes), p);
  }

  // ----- the order of the report ------------------------------------------------------------

  function FieldPlace(header: string): nat {
    if header == Header(Tenant) then 1
    else if header == Header(Feature) then 2
    else if header == Header(RequestId) then 3
    else if header == Header(RequestClass) then 4
    else if header == Header(IdempotencyKey) then 5
    else 6
  }

  /** Where in a report a problem belongs: the extension as a whole, wrong types field by field, the tags, required
      fields one by one, and last what the class itself demands. */
  function Place(p: Problem): nat {
    match p.code
    case UnknownField => 0
    case Invalid => if p.header == None then 0 else FieldPlace(p.header.value)
    case Missing => if p.header == None || FieldPlace(p.header.value) > 4 then 11 else 6 + FieldPlace(p.header.value)
    case UnknownRequestClass => 11
  }

  predicate InOrder(ps: seq<Problem>, lo: nat, hi: int) {
    && (forall k :: 0 <= k < |ps| ==> lo <= Place(ps[k]) <= hi)
    && (forall j, k :: 0 <= j < k < |ps| ==> Place(ps[j]) <= Place(ps[k]))
  }

  lemma OrderedConcat(a: seq<Problem>, b: seq<Problem>, lo: nat, mid: nat, hi: int)
    requires InOrder(a, lo, mid) && InOrder(b, mid + 1, hi) && lo <= mid <= hi
    ensures InOrder(a + b, lo, hi)
  {
    hide Place;
  }

  lemma FieldPlaces()
    ensures FieldPlace(Header(Tenant)) == 1 && FieldPlace(Header(Feature)) == 2 && FieldPlace(Header(RequestId)) == 3
    ensures FieldPlace(Header(RequestClass)) == 4 && FieldPlace(Header(IdempotencyKey)) == 5
    ensures FieldPlace(Header(Capabilities)) == 6
  {
    forall f: Field, g: Field | f != g ensures Header(f) != Header(g) {
      HeadersDiffer(f, g);
    }
    hide Header;
  }

  lemma {:induction false} TypesInOrder(h: map<string, string>, ext: Fields, n: nat)
    requires n <= |STRING_FIELDS|
    ensures InOrder(TypeProblems(h, ext, STRING_FIELDS[..n]), 1, n)
  {
    hide WrongType, FieldPlace, Header;
    if n > 0 {
      TypesInOrder(h, ext, n - 1);
      assert STRING_FIELDS[..n][..n - 1] == STRING_FIELDS[..n - 1];
      FieldPlaces();
    }
  }

  lemma {:induction false} RequiredInOrder(h: map<string, string>, ext: Fields, n: nat)
    requires n <= |REQUIRED|
    ensures InOrder(MissingProblems(h, ext, REQUIRED[..n]), 7, 6 + n)
  {
    hide Resolved, FieldPlace, Header;
    if n > 0 {
      RequiredInOrder(h, ext, n - 1);
      assert REQUIRED[..n][..n - 1] == REQUIRED[..n - 1];
      FieldPlaces();
    }
  }

  lemma {:induction false} UnknownKeysInOrder(ext: Fields)
    ensures InOrder(UnknownKeys(ext), 0, 0)
  {
    hide Accepted;
    if ext != [] {
      UnknownKeysInOrder(ext[..|ext| - 1]);
    }
  }

  lemma ExtensionInOrder(body: Fields)
    ensures InOrder(ExtensionProblems(body), 0, 0)
  {
    UnknownKeysInOrder(ExtensionOf(body));
    hide UnknownKeys, FieldPlace;
  }

  lemma EndsInOrder(h: map<string, string>, ext: Fields, classes: Classes)
    ensures InOrder(TagProblems(h, ext), 6, 6) && InOrder(ClassProblems(h, ext, classes), 11, 11)
  {
    hide Tags, Resolved, FieldPlace, Header;
    FieldPlaces();
  }

  /** A rejection lists its problems in one fixed order. With NothingIsReportedTwice and the causes this leaves no
      freedom but the order of unknown keys, which is theirs in the extension (UnknownKeysAsSent). */
  lemma ReportedInOrder(headers: Headers, body: Fields, classes: Classes)
    ensures
      var ps := Expected(headers, body, classes);
      forall j, k :: 0 <= j < k < |ps| ==> Place(ps[j]) <= Place(ps[k])
  {
    var h, ext := Lowered(headers), ExtensionOf(body);
    var a, b, c := ExtensionProblems(body), TypeProblems(h, ext, STRING_FIELDS), TagProblems(h, ext);
    var d, e := MissingProblems(h, ext, REQUIRED), ClassProblems(h, ext, classes);
    ExtensionInOrder(body);
    TypesInOrder(h, ext, 5);
    RequiredInOrder(h, ext, 4);
    assert STRING_FIELDS[..5] == STRING_FIELDS && REQUIRED[..4] == REQUIRED;
    EndsInOrder(h, ext, classes);
    assert Expected(headers, body, classes) == a + b + c + d + e;
    hide Lowered, ExtensionOf, ExtensionProblems, TypeProblems, TagProblems, MissingProblems, ClassProblems, Expected,
         Place;
    OrderedConcat(a, b, 0, 0, 5);
    OrderedConcat(a + b, c, 0, 5, 6);
    OrderedConcat(a + b + c, d, 0, 6, 10);
    OrderedConcat(a + b + c + d, e, 0, 10, 11);
  }

  /** Unknown keys are reported in the order of the extension, each under its own path. */
  lemma {:induction false} UnknownKeysAsSent(a: Fields, b: Fields)
    ensures UnknownKeys(a + b) == UnknownKeys(a) + UnknownKeys(b)
    ensures |b| == 1 ==>
              UnknownKeys(b) == if Accepted(b[0].0) then [] else [Problem("x_keel." + b[0].0, None, UnknownField)]
  {
    hide Accepted;
    if b == [] {
      assert a + b == a;
    } else {
      assert (a + b)[..|a + b| - 1] == a + b[..|b| - 1];
      UnknownKeysAsSent(a, b[..|b| - 1]);
      ProblemsSpeltOut();
    }
  }
}
