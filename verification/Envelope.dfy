/** The request boundary: two input channels, every problem reported, an envelope or a rejection. */
module Envelope {
  import opened Common
  import opened TextForms

  // ----- what a client sends --------------------------------------------------------

  /** A decoded JSON value; an object keeps its keys in order. */
  datatype Json =
    | Null
    | Bool(b: bool)
    | Num(n: real)
    | Str(s: string)
    | Arr(items: seq<Json>)
    | Obj(fields: seq<(string, Json)>)

  type Fields = seq<(string, Json)>
  type Headers = seq<(string, string)>

  function Get(fields: Fields, key: string): Option<Json> {
    if fields == [] then None
    else if fields[0].0 == key then Some(fields[0].1)
    else Get(fields[1..], key)
  }

  datatype Field = Tenant | Feature | RequestId | RequestClass | Capabilities | IdempotencyKey

  function Name(f: Field): string {
    match f
    case Tenant => "tenant"
    case Feature => "feature"
    case RequestId => "request_id"
    case RequestClass => "request_class"
    case Capabilities => "capabilities"
    case IdempotencyKey => "idempotency_key"
  }

  function Header(f: Field): string {
    match f
    case Tenant => "X-Keel-Tenant"
    case Feature => "X-Keel-Feature"
    case RequestId => "X-Keel-Request-Id"
    case RequestClass => "X-Keel-Class"
    case Capabilities => "X-Keel-Capabilities"
    case IdempotencyKey => "X-Keel-Idempotency-Key"
  }

  const REQUIRED: seq<Field> := [Tenant, Feature, RequestId, RequestClass]
  /** The fields read as plain strings, in reading order. */
  const STRING_FIELDS: seq<Field> := [Tenant, Feature, RequestId, RequestClass, IdempotencyKey]
  const BODY_EXTENSION_KEY := "x_keel"

  /** A key the body extension may carry: the name of an envelope field. */
  predicate Accepted(key: string) {
    exists f: Field :: key == Name(f)
  }

  // ----- problems -------------------------------------------------------------------

  datatype ProblemCode = Missing | UnknownRequestClass | Invalid | UnknownField

  datatype Problem = Problem(path: string, header: Option<string>, code: ProblemCode)

  predicate Structural(c: ProblemCode) {
    c == Invalid || c == UnknownField
  }

  datatype Kind = MalformedRequest | EnvelopeValidation

  datatype Rejection = Rejection(kind: Kind, problems: seq<Problem>, requestId: Option<string>)

  /** The list every check appends to. */
  class ProblemList {
    var items: seq<Problem>

    constructor ()
      ensures items == []
    {
      items := [];
    }

    method Append(p: Problem)
      modifies this
      ensures items == old(items) + [p]
    {
      items := items + [p];
    }
  }

  // ----- configuration and envelope ----------------------------------------------------

  datatype ClassConfig = ClassConfig(deferrable: bool, preference: seq<string>)

  type Classes = map<string, ClassConfig>

  datatype RequestEnvelope = RequestEnvelope(
    requestId: string, tenant: string, feature: string, requestClass: string,
    capabilities: set<string>, deferrable: bool, idempotencyKey: Option<string>,
    payload: Fields, receivedAt: real)

  // ----- what each input means, field by field ---------------------------------------------

  lemma NamesDiffer(f: Field, g: Field)
    requires f != g
    ensures Name(f) != Name(g)
  {
    assert |Name(f)| != |Name(g)|;
  }

  lemma {:induction false} GetAt(fields: Fields, k: nat)
    requires k < |fields| && forall j :: 0 <= j < k ==> fields[j].0 != fields[k].0
    ensures Get(fields, fields[k].0) == Some(fields[k].1)
  {
    if k > 0 {
      GetAt(fields[1..], k - 1);
    }
  }

  lemma {:induction false} GetAbsent(fields: Fields, key: string)
    requires forall k :: 0 <= k < |fields| ==> fields[k].0 != key
    ensures Get(fields, key) == None
  {
    if fields != [] {
      GetAbsent(fields[1..], key);
    }
  }

  lemma HeadersDiffer(f: Field, g: Field)
    requires f != g
    ensures Header(f) != Header(g)
  {
    assert |Header(f)| != |Header(g)|;
  }

  /** Header names match in any letter case; the last of several wins. */
  function Lowered(headers: Headers): map<string, string> {
    if headers == [] then map[]
    else Lowered(headers[..|headers| - 1])[Lower(headers[|headers| - 1].0) := headers[|headers| - 1].1]
  }

  /** The non-blank header value of a field, stripped. */
  function FromHeader(h: map<string, string>, f: Field): Option<string> {
    var key := Lower(Header(f));
    if key in h && !Blank(h[key]) then Some(Strip(h[key])) else None
  }

  /** The non-blank string value of a field in the body extension, stripped. */
  function FromBody(ext: Fields, f: Field): Option<string> {
    match Get(ext, Name(f))
    case Some(Str(s)) => if Blank(s) then None else Some(Strip(s))
    case Some(_) => None
    case None => None
  }

  function Resolved(h: map<string, string>, ext: Fields, f: Field): Option<string> {
    if FromHeader(h, f).Some? then FromHeader(h, f) else FromBody(ext, f)
  }

  /** A body value the header does not mask, and which is not a string. */
  predicate WrongType(h: map<string, string>, ext: Fields, f: Field) {
    FromHeader(h, f) == None && Get(ext, Name(f)).Some? && !Get(ext, Name(f)).value.Str?
  }

  function StringsIn(items: seq<Json>): (r: seq<string>)
    requires forall k :: 0 <= k < |items| ==> items[k].Str?
    ensures |r| == |items| && forall k :: 0 <= k < |r| ==> r[k] == items[k].s
  {
    seq(|items|, k requires 0 <= k < |items| => items[k].s)
  }

  predicate AllStrings(items: seq<Json>) {
    forall k :: 0 <= k < |items| ==> items[k].Str?
  }

  /** The capability tags asked for; `None` for a body value of the wrong shape. */
  function Tags(h: map<string, string>, ext: Fields): Option<set<string>> {
    var key := Lower(Header(Capabilities));
    if key in h && !Blank(h[key]) then Some(TagsIn(SplitComma(h[key])))
    else
      match Get(ext, Name(Capabilities))
      case None => Some({})
      case Some(Null) => Some({})
      case Some(Str(s)) => Some(TagsIn(SplitComma(s)))
      case Some(Arr(items)) => if AllStrings(items) then Some(TagsIn(StringsIn(items))) else None
      case Some(_) => None
  }

  function ExtensionOf(body: Fields): Fields {
    match Get(body, BODY_EXTENSION_KEY)
    case Some(Obj(fields)) => fields
    case Some(_) => []
    case None => []
  }

  function PayloadOf(body: Fields): Fields {
    if body == [] then []
    else
      var init := PayloadOf(body[..|body| - 1]);
      if body[|body| - 1].0 != BODY_EXTENSION_KEY then init + [body[|body| - 1]] else init
  }

  /** Header `k` is the last one of this name, letter case aside. */
  predicate LastNamed(headers: Headers, name: string, k: nat) {
    && k < |headers| && SameButCase(headers[k].0, name)
    && forall j :: k < j < |headers| ==> !SameButCase(headers[j].0, name)
  }

  /** A name is found in the folded headers exactly when some header has it, in any letter case. */
  lemma {:induction false} LoweredFinds(headers: Headers, name: string)
    ensures Lower(name) in Lowered(headers) <==>
            exists k :: 0 <= k < |headers| && SameButCase(headers[k].0, name)
  {
    hide Lower, SameButCase;
    if headers != [] {
      var init, last := headers[..|headers| - 1], headers[|headers| - 1];
      LoweredFinds(init, name);
      LowerIdentifiesCase(last.0, name);
      assert forall k :: 0 <= k < |init| ==> init[k] == headers[k];
      assert SameButCase(last.0, name) ==> SameButCase(headers[|headers| - 1].0, name);
    }
  }

  /** ... and what is found is the value of the last of them. */
  lemma {:induction false} LastIsFound(headers: Headers, name: string, k: nat)
    requires LastNamed(headers, name, k)
    ensures Lower(name) in Lowered(headers) && Lowered(headers)[Lower(name)] == headers[k].1
  {
    hide Lower, SameButCase;
    LowerIdentifiesCase(headers[|headers| - 1].0, name);
    if k < |headers| - 1 {
      LastIsFound(headers[..|headers| - 1], name, k);
    }
  }

  // ----- the expected problem list, part by part -------------------------------------------

  function UnknownKey(key: string): Problem {
    Problem(BODY_EXTENSION_KEY + "." + key, None, UnknownField)
  }

  function UnknownKeys(ext: Fields): seq<Problem> {
    if ext == [] then []
    else
      var init := UnknownKeys(ext[..|ext| - 1]);
      var key := ext[|ext| - 1].0;
      if Accepted(key) then init else init + [UnknownKey(key)]
  }

  function ExtensionProblems(body: Fields): seq<Problem> {
    match Get(body, BODY_EXTENSION_KEY)
    case None => []
    case Some(Null) => []
    case Some(Obj(fields)) => UnknownKeys(fields)
    case Some(_) => [Problem(BODY_EXTENSION_KEY, None, Invalid)]
  }

  function BadValue(f: Field): Problem {
    Problem(BODY_EXTENSION_KEY + "." + Name(f), Some(Header(f)), Invalid)
  }

  function MissingValue(f: Field): Problem {
    Problem(Name(f), Some(Header(f)), Missing)
  }

  function TypeProblems(h: map<string, string>, ext: Fields, fs: seq<Field>): seq<Problem> {
    if fs == [] then []
    else
      var init := TypeProblems(h, ext, fs[..|fs| - 1]);
      if WrongType(h, ext, fs[|fs| - 1]) then init + [BadValue(fs[|fs| - 1])] else init
  }

  function MissingProblems(h: map<string, string>, ext: Fields, fs: seq<Field>): seq<Problem> {
    if fs == [] then []
    else
      var init := MissingProblems(h, ext, fs[..|fs| - 1]);
      if Resolved(h, ext, fs[|fs| - 1]) == None then init + [MissingValue(fs[|fs| - 1])] else init
  }

  function TagProblems(h: map<string, string>, ext: Fields): seq<Problem> {
    if Tags(h, ext) == None then [BadValue(Capabilities)] else []
  }

  function ClassProblems(h: map<string, string>, ext: Fields, classes: Classes): seq<Problem> {
    match Resolved(h, ext, RequestClass)
    case None => []
    case Some(c) =>
      if c !in classes then [Problem(Name(RequestClass), Some(Header(RequestClass)), UnknownRequestClass)]
      else if classes[c].deferrable && Resolved(h, ext, IdempotencyKey) == None then [MissingValue(IdempotencyKey)]
      else []
  }

  /** Everything wrong with a request, in reporting order. */
  function Expected(headers: Headers, body: Fields, classes: Classes): seq<Problem> {
    var h, ext := Lowered(headers), ExtensionOf(body);
    ExtensionProblems(body) + TypeProblems(h, ext, STRING_FIELDS) + TagProblems(h, ext)
    + MissingProblems(h, ext, REQUIRED) + ClassProblems(h, ext, classes)
  }

  // ----- the boundary -------------------------------------------------------------------------

  method LowerHeaders(headers: Headers) returns (h: map<string, string>)
    ensures h == Lowered(headers)
    ensures forall name, k: nat :: LastNamed(headers, name, k) ==> Lower(name) in h && h[Lower(name)] == headers[k].1
  {
    forall name, k: nat | LastNamed(headers, name, k)
      ensures Lower(name) in Lowered(headers) && Lowered(headers)[Lower(name)] == headers[k].1
    {
      LastIsFound(headers, name, k);
    }
    hide Lower, LastNamed;
    h := map[];
    for k := 0 to |headers|
      invariant h == Lowered(headers[..k])
    {
      assert headers[..k + 1][..k] == headers[..k];
      h := h[Lower(headers[k].0) := headers[k].1];
    }
    assert headers[..|headers|] == headers;
  }

  method SplitExtension(body: Fields, problems: ProblemList) returns (payload: Fields, extension: Fields)
    modifies problems
    ensures payload == PayloadOf(body) && extension == ExtensionOf(body)
    ensures problems.items == old(problems.items) + ExtensionProblems(body)
  {
    hide Accepted, UnknownKey, Name;
    payload := [];
    for k := 0 to |body|
      invariant payload == PayloadOf(body[..k])
    {
      assert body[..k + 1][..k] == body[..k];
      if body[k].0 != BODY_EXTENSION_KEY {
        payload := payload + [body[k]];
      }
    }
    assert body[..|body|] == body;
    match Get(body, BODY_EXTENSION_KEY) {
      case None => return payload, [];
      case Some(Null) => return payload, [];
      case Some(Obj(fields)) =>
        ghost var before := problems.items;
        for k := 0 to |fields|
          invariant problems.items == before + UnknownKeys(fields[..k])
        {
          assert fields[..k + 1][..k] == fields[..k];
          if !Accepted(fields[k].0) {
            problems.Append(UnknownKey(fields[k].0));
          }
        }
        assert fields[..|fields|] == fields;
        return payload, fields;
      case Some(_) =>
        problems.Append(Problem(BODY_EXTENSION_KEY, None, Invalid));
        return payload, [];
    }
  }

  /** One string field: header first, then the body extension. */
  method Resolve(f: Field, h: map<string, string>, extension: Fields, problems: ProblemList)
    returns (value: Option<string>)
    modifies problems
    ensures value == Resolved(h, extension, f)
    ensures problems.items == old(problems.items) + if WrongType(h, extension, f) then [BadValue(f)] else []
  {
    hide Name, Header, Lower, Strip, BadValue;
    var key := Lower(Header(f));
    if key in h && !Blank(h[key]) {
      return Some(Strip(h[key]));
    }
    match Get(extension, Name(f)) {
      case None => return None;
      case Some(Str(s)) => return if Blank(s) then None else Some(Strip(s));
      case Some(_) =>
        problems.Append(BadValue(f));
        return None;
    }
  }

  method ResolveCapabilities(h: map<string, string>, extension: Fields, problems: ProblemList)
    returns (tags: set<string>)
    modifies problems
    ensures tags == match Tags(h, extension) case Some(t) => t case None => {}
    ensures problems.items == old(problems.items) + TagProblems(h, extension)
  {
    hide Name, Header, Lower, TagsIn, SplitComma, BadValue;
    var key := Lower(Header(Capabilities));
    if key in h && !Blank(h[key]) {
      return TagsIn(SplitComma(h[key]));
    }
    match Get(extension, Name(Capabilities)) {
      case None => return {};
      case Some(Null) => return {};
      case Some(Str(s)) => return TagsIn(SplitComma(s));
      case Some(Arr(items)) =>
        if AllStrings(items) {
          return TagsIn(StringsIn(items));
        }
        problems.Append(BadValue(Capabilities));
        return {};
      case Some(_) =>
        problems.Append(BadValue(Capabilities));
        return {};
    }
  }

  /** Every string field, in reading order. */
  method ResolveAll(h: map<string, string>, extension: Fields, problems: ProblemList)
    returns (values: map<Field, Option<string>>)
    modifies problems
    ensures forall f :: f in STRING_FIELDS ==> f in values && values[f] == Resolved(h, extension, f)
    ensures problems.items == old(problems.items) + TypeProblems(h, extension, STRING_FIELDS)
  {
    values := map[];
    hide Resolved, WrongType, BadValue;
    for k := 0 to |STRING_FIELDS|
      invariant forall f :: f in STRING_FIELDS[..k] ==> f in values && values[f] == Resolved(h, extension, f)
      invariant problems.items == old(problems.items) + TypeProblems(h, extension, STRING_FIELDS[..k])
    {
      assert STRING_FIELDS[..k + 1][..k] == STRING_FIELDS[..k];
      var v := Resolve(STRING_FIELDS[k], h, extension, problems);
      values := values[STRING_FIELDS[k] := v];
    }
    assert STRING_FIELDS[..|STRING_FIELDS|] == STRING_FIELDS;
  }

  method DemandRequired(h: map<string, string>, ghost extension: Fields, values: map<Field, Option<string>>,
                        problems: ProblemList)
    requires forall f :: f in STRING_FIELDS ==> f in values && values[f] == Resolved(h, extension, f)
    modifies problems
    ensures problems.items == old(problems.items) + MissingProblems(h, extension, REQUIRED)
  {
    hide Resolved, MissingValue;
    for k := 0 to |REQUIRED|
      invariant problems.items == old(problems.items) + MissingProblems(h, extension, REQUIRED[..k])
    {
      assert REQUIRED[..k + 1][..k] == REQUIRED[..k];
      assert REQUIRED[k] in STRING_FIELDS;
      if values[REQUIRED[k]] == None {
        problems.Append(MissingValue(REQUIRED[k]));
      }
    }
    assert REQUIRED[..|REQUIRED|] == REQUIRED;
  }

  /** The rejection a problem list calls for, if any. */
  method RaiseFor(problems: seq<Problem>, requestId: Option<string>) returns (r: Option<Rejection>)
    ensures r == None <==> problems == []
    ensures r.Some? ==> r.value.problems == problems && r.value.requestId == requestId
    ensures r.Some? ==>
              (r.value.kind == MalformedRequest <==>
                 exists p :: p in problems && (p.code == Invalid || p.code == UnknownField))
  {
    if problems == [] {
      return None;
    }
    for k := 0 to |problems|
      invariant forall j :: 0 <= j < k ==> !Structural(problems[j].code)
    {
      if Structural(problems[k].code) {
        return Some(Rejection(MalformedRequest, problems, requestId));
      }
    }
    return Some(Rejection(EnvelopeValidation, problems, requestId));
  }

  /** What a request without problems becomes. */
  function EnvelopeFor(headers: Headers, body: Fields, classes: Classes, now: real): RequestEnvelope
    requires Expected(headers, body, classes) == []
  {
    NoProblems(headers, body, classes);
    var h, ext := Lowered(headers), ExtensionOf(body);
    var c := Resolved(h, ext, RequestClass).value;
    RequestEnvelope(Resolved(h, ext, RequestId).value, Resolved(h, ext, Tenant).value,
                    Resolved(h, ext, Feature).value, c,
                    Tags(h, ext).value, classes[c].deferrable, Resolved(h, ext, IdempotencyKey), PayloadOf(body), now)
  }

  /** Build the envelope, or report everything wrong at once. */
  method BuildEnvelope(headers: Headers, body: Fields, classes: Classes, now: real)
    returns (r: Result<RequestEnvelope, Rejection>)
    ensures r.Success? <==> Expected(headers, body, classes) == []
    ensures r.Success? ==> r.value == EnvelopeFor(headers, body, classes, now)
    ensures r.Failure? ==>
              && r.error.problems == Expected(headers, body, classes)
              && r.error.requestId == Resolved(Lowered(headers), ExtensionOf(body), RequestId)
              && (r.error.kind == MalformedRequest <==>
                    exists p :: p in r.error.problems && (p.code == Invalid || p.code == UnknownField))
  {
    hide Resolved, Tags, TypeProblems, TagProblems, MissingProblems, MissingValue, BadValue, ExtensionProblems,
         Structural, ExtensionOf, Lowered, PayloadOf, Name, Header;
    var problems := new ProblemList();
    var h := LowerHeaders(headers);
    var payload, extension := SplitExtension(body, problems);
    var values := ResolveAll(h, extension, problems);
    var capabilities := ResolveCapabilities(h, extension, problems);
    DemandRequired(h, extension, values, problems);

    var requestClass := values[RequestClass];
    if requestClass.Some? {
      if requestClass.value !in classes {
        problems.Append(Problem(Name(RequestClass), Some(Header(RequestClass)), UnknownRequestClass));
      } else if classes[requestClass.value].deferrable && values[IdempotencyKey] == None {
        problems.Append(MissingValue(IdempotencyKey));
      }
    }
    assert problems.items == Expected(headers, body, classes);

    var rejection := RaiseFor(problems.items, values[RequestId]);
    if rejection.Some? {
      return Failure(rejection.value);
    }
    NoProblems(headers, body, classes);
    return Success(RequestEnvelope(
      values[RequestId].value, values[Tenant].value, values[Feature].value, requestClass.value, capabilities,
      classes[requestClass.value].deferrable, values[IdempotencyKey], payload, now));
  }

  // ----- soundness and completeness -------------------------------------------------------------

  /** A field has a usable value on one channel or the other. */
  ghost predicate Supplied(h: map<string, string>, ext: Fields, f: Field) {
    || FromHeader(h, f).Some?
    || (exists s :: Get(ext, Name(f)) == Some(Str(s)) && !Blank(s))
  }

  predicate WellShapedTags(j: Json) {
    j.Null? || j.Str? || (j.Arr? && forall k :: 0 <= k < |j.items| ==> j.items[k].Str?)
  }

  /** The declarative acceptance condition, over headers, body and configuration. */
  ghost predicate Acceptable(headers: Headers, body: Fields, classes: Classes) {
    var h, ext := Lowered(headers), ExtensionOf(body);
    // the extension is absent, null, or an object of known fields
    && (forall j :: Get(body, BODY_EXTENSION_KEY) == Some(j) ==> j.Null? || j.Obj?)
    && (forall k :: 0 <= k < |ext| ==> Accepted(ext[k].0))
    // body values not masked by a header have the right shape
    && (forall f, j :: f in STRING_FIELDS && FromHeader(h, f) == None && Get(ext, Name(f)) == Some(j) ==> j.Str?)
    && (forall j :: FromHeader(h, Capabilities) == None && Get(ext, Name(Capabilities)) == Some(j) ==>
        WellShapedTags(j))
    // all required fields are supplied, the class is configured, a deferrable one has its key
    && (forall f :: f in REQUIRED ==> Supplied(h, ext, f))
    && Resolved(h, ext, RequestClass).Some? && Resolved(h, ext, RequestClass).value in classes
    && (classes[Resolved(h, ext, RequestClass).value].deferrable ==> Supplied(h, ext, IdempotencyKey))
  }

  lemma SuppliedMeansResolved(h: map<string, string>, ext: Fields, f: Field)
    ensures Supplied(h, ext, f) <==> Resolved(h, ext, f).Some?
  {
    hide FromHeader, Name, Get, Blank, Strip;
  }

  lemma {:induction false} NoUnknownKeys(ext: Fields)
    ensures UnknownKeys(ext) == [] <==> forall k :: 0 <= k < |ext| ==> Accepted(ext[k].0)
  {
    if ext != [] {
      NoUnknownKeys(ext[..|ext| - 1]);
    }
  }

  lemma {:induction false} NoTypeProblems(h: map<string, string>, ext: Fields, fs: seq<Field>)
    ensures TypeProblems(h, ext, fs) == [] <==> forall f :: f in fs ==> !WrongType(h, ext, f)
  {
    hide WrongType, BadValue;
    if fs != [] {
      NoTypeProblems(h, ext, fs[..|fs| - 1]);
      assert forall f :: f in fs <==> f in fs[..|fs| - 1] || f == fs[|fs| - 1];
    }
  }

  lemma {:induction false} NoMissingProblems(h: map<string, string>, ext: Fields, fs: seq<Field>)
    ensures MissingProblems(h, ext, fs) == [] <==> forall f :: f in fs ==> Resolved(h, ext, f).Some?
  {
    hide Resolved, MissingValue;
    if fs != [] {
      NoMissingProblems(h, ext, fs[..|fs| - 1]);
      assert forall f :: f in fs <==> f in fs[..|fs| - 1] || f == fs[|fs| - 1];
    }
  }

  lemma NoProblems(headers: Headers, body: Fields, classes: Classes)
    ensures
      var h, ext := Lowered(headers), ExtensionOf(body);
      Expected(headers, body, classes) == [] <==>
        && ExtensionProblems(body) == []
        && (forall f :: f in STRING_FIELDS ==> !WrongType(h, ext, f))
        && Tags(h, ext).Some?
        && (forall f :: f in REQUIRED ==> Resolved(h, ext, f).Some?)
        && Resolved(h, ext, RequestClass).Some? && Resolved(h, ext, RequestClass).value in classes
        && (classes[Resolved(h, ext, RequestClass).value].deferrable ==> Resolved(h, ext, IdempotencyKey).Some?)
  {
    var h, ext := Lowered(headers), ExtensionOf(body);
    assert RequestClass in REQUIRED;
    hide Resolved, Tags, WrongType, TypeProblems, MissingProblems, MissingValue, BadValue, ExtensionProblems,
         ExtensionOf, Lowered;
    NoTypeProblems(h, ext, STRING_FIELDS);
    NoMissingProblems(h, ext, REQUIRED);
  }

  /** The boundary is sound and complete: no problem is found exactly for the acceptable requests. */
  lemma NoProblemsIffAcceptable(headers: Headers, body: Fields, classes: Classes)
    ensures Expected(headers, body, classes) == [] <==> Acceptable(headers, body, classes)
  {
    var h, ext := Lowered(headers), ExtensionOf(body);
    NoProblems(headers, body, classes);
    NoUnknownKeys(ext);
    forall f ensures Supplied(h, ext, f) <==> Resolved(h, ext, f).Some? {
      SuppliedMeansResolved(h, ext, f);
    }
    TagsShape(h, ext);
    hide Resolved, Tags, Supplied, Lowered, Expected, FromHeader, WellShapedTags;
  }

  lemma TagsShape(h: map<string, string>, ext: Fields)
    ensures Tags(h, ext).Some? <==>
            forall j :: FromHeader(h, Capabilities) == None && Get(ext, Name(Capabilities)) == Some(j) ==>
                WellShapedTags(j)
  {
  }

  lemma {:induction false} UnknownKeyReported(ext: Fields, p: Problem)
    ensures p in UnknownKeys(ext) <==>
            exists k :: 0 <= k < |ext| && !Accepted(ext[k].0) && p == UnknownKey(ext[k].0)
  {
    hide Accepted;
    if ext != [] {
      UnknownKeyReported(ext[..|ext| - 1], p);
    }
  }

  lemma {:induction false} WrongTypeReported(h: map<string, string>, ext: Fields, fs: seq<Field>, p: Problem)
    ensures p in TypeProblems(h, ext, fs) <==> exists f :: f in fs && WrongType(h, ext, f) && p == BadValue(f)
  {
    hide WrongType, BadValue;
    if fs != [] {
      WrongTypeReported(h, ext, fs[..|fs| - 1], p);
      assert forall f :: f in fs <==> f in fs[..|fs| - 1] || f == fs[|fs| - 1];
    }
  }

  lemma {:induction false} MissingReported(h: map<string, string>, ext: Fields, fs: seq<Field>, p: Problem)
    ensures p in MissingProblems(h, ext, fs) <==> exists f :: f in fs && !Supplied(h, ext, f) && p == MissingValue(f)
  {
    if fs != [] {
      MissingReported(h, ext, fs[..|fs| - 1], p);
      SuppliedMeansResolved(h, ext, fs[|fs| - 1]);
      hide Resolved, MissingValue, Supplied;
      assert forall f :: f in fs <==> f in fs[..|fs| - 1] || f == fs[|fs| - 1];
    }
  }

  lemma CausesOfProblems(headers: Headers, body: Fields, classes: Classes, p: Problem)
    ensures
      var h, ext := Lowered(headers), ExtensionOf(body);
      p in Expected(headers, body, classes) <==>
        || (Get(body, BODY_EXTENSION_KEY).Some? && !Get(body, BODY_EXTENSION_KEY).value.Null?
            && !Get(body, BODY_EXTENSION_KEY).value.Obj? && p == Problem(BODY_EXTENSION_KEY, None, Invalid))
        || (exists k :: 0 <= k < |ext| && !Accepted(ext[k].0) && p == UnknownKey(ext[k].0))
        || (exists f :: f in STRING_FIELDS && WrongType(h, ext, f)
                        && p == BadValue(f))
        || (Tags(h, ext) == None && p == BadValue(Capabilities))
        || (exists f :: f in REQUIRED && !Supplied(h, ext, f) && p == MissingValue(f))
        || (exists c :: Resolved(h, ext, RequestClass) == Some(c) && c !in classes
                        && p == Problem(Name(RequestClass), Some(Header(RequestClass)), UnknownRequestClass))
        || (exists c :: Resolved(h, ext, RequestClass) == Some(c) && c in classes && classes[c].deferrable
                        && !Supplied(h, ext, IdempotencyKey)
                        && p == MissingValue(IdempotencyKey))
  {
    var h, ext := Lowered(headers), ExtensionOf(body);
    UnknownKeyReported(ext, p);
    WrongTypeReported(h, ext, STRING_FIELDS, p);
    MissingReported(h, ext, REQUIRED, p);
    SuppliedMeansResolved(h, ext, IdempotencyKey);
    var a, b, c := ExtensionProblems(body), TypeProblems(h, ext, STRING_FIELDS), TagProblems(h, ext);
    var d, e := MissingProblems(h, ext, REQUIRED), ClassProblems(h, ext, classes);
    InFive(a, b, c, d, e, p);
    hide Resolved, Supplied, Accepted, WrongType, BadValue, MissingValue, UnknownKey, Lowered, Name, Header,
         UnknownKeys, TypeProblems, MissingProblems;
  }

  /** The problems as the client reads them. */
  lemma ProblemsSpeltOut()
    ensures forall key :: UnknownKey(key) == Problem("x_keel." + key, None, UnknownField)
    ensures forall f :: BadValue(f) == Problem("x_keel." + Name(f), Some(Header(f)), Invalid)
    ensures forall f :: MissingValue(f) == Problem(Name(f), Some(Header(f)), Missing)
    ensures Name(Capabilities) == "capabilities" && Header(Capabilities) == "X-Keel-Capabilities"
    ensures Name(RequestClass) == "request_class" && Header(RequestClass) == "X-Keel-Class"
    ensures Name(IdempotencyKey) == "idempotency_key" && Header(IdempotencyKey) == "X-Keel-Idempotency-Key"
  {
    assert BODY_EXTENSION_KEY + "." == "x_keel.";
  }

  /** Nothing is lost and nothing invented: a problem is on the list exactly when its cause is in the input.
      In particular an idempotency key is demanded only by a class that is known and deferrable. */
  lemma ProblemsAreExactlyTheCauses(headers: Headers, body: Fields, classes: Classes, p: Problem)
    ensures
      var h, ext := Lowered(headers), ExtensionOf(body);
      p in Expected(headers, body, classes) <==>
        || (Get(body, BODY_EXTENSION_KEY).Some? && !Get(body, BODY_EXTENSION_KEY).value.Null?
            && !Get(body, BODY_EXTENSION_KEY).value.Obj? && p == Problem(BODY_EXTENSION_KEY, None, Invalid))
        || (exists k :: 0 <= k < |ext| && !Accepted(ext[k].0) && p == Problem("x_keel." + ext[k].0, None, UnknownField))
        || (exists f :: f in STRING_FIELDS && WrongType(h, ext, f)
                        && p == Problem("x_keel." + Name(f), Some(Header(f)), Invalid))
        || (Tags(h, ext) == None && p == Problem("x_keel.capabilities", Some("X-Keel-Capabilities"), Invalid))
        || (exists f :: f in REQUIRED && !Supplied(h, ext, f) && p == Problem(Name(f), Some(Header(f)), Missing))
        || (exists c :: Resolved(h, ext, RequestClass) == Some(c) && c !in classes
                        && p == Problem("request_class", Some("X-Keel-Class"), UnknownRequestClass))
        || (exists c :: Resolved(h, ext, RequestClass) == Some(c) && c in classes && classes[c].deferrable
                        && !Supplied(h, ext, IdempotencyKey)
                        && p == Problem("idempotency_key", Some("X-Keel-Idempotency-Key"), Missing))
  {
    hide *;
    CausesOfProblems(headers, body, classes, p);
    ProblemsSpeltOut();
  }

  lemma InFive<T>(a: seq<T>, b: seq<T>, c: seq<T>, d: seq<T>, e: seq<T>, x: T)
    ensures x in a + b + c + d + e <==> x in a || x in b || x in c || x in d || x in e
  {
  }

  // ----- the payload -------------------------------------------------------------------------------

  lemma {:induction false} GetSnoc(fields: Fields, last: (string, Json), key: string)
    ensures Get(fields + [last], key) ==
            if Get(fields, key).Some? then Get(fields, key) else if last.0 == key then Some(last.1) else None
  {
    if fields == [] {
      assert fields + [last] == [last];
    } else {
      assert (fields + [last])[0] == fields[0] && (fields + [last])[1..] == fields[1..] + [last];
      GetSnoc(fields[1..], last, key);
    }
  }

  /** The payload is the body without its extension and otherwise untouched. */
  lemma {:induction false} PayloadIsBodyMinusExtension(body: Fields, key: string)
    ensures Get(PayloadOf(body), key) == if key == BODY_EXTENSION_KEY then None else Get(body, key)
  {
    if body != [] {
      var init, last := body[..|body| - 1], body[|body| - 1];
      assert body == init + [last];
      PayloadIsBodyMinusExtension(init, key);
      GetSnoc(init, last, key);
      GetSnoc(PayloadOf(init), last, key);
    }
  }
}
