/** Headers and the body extension as two channels for the same fields: when they say the same thing. */
module Channels {
  import opened Common
  import opened TextForms
  import opened Envelope

  // ----- letter case ----------------------------------------------------------------

  lemma {:induction false} LoweredIgnoresCase(headers: Headers, others: Headers)
    requires |headers| == |others|
    requires forall k :: 0 <= k < |headers| ==>
               SameButCase(headers[k].0, others[k].0) && headers[k].1 == others[k].1
    ensures Lowered(headers) == Lowered(others)
  {
    hide SameButCase, Lower;
    if headers != [] {
      LowerIdentifiesCase(headers[|headers| - 1].0, others[|headers| - 1].0);
      LoweredIgnoresCase(headers[..|headers| - 1], others[..|others| - 1]);
    }
  }

  /** Requests whose header names differ in letter case only are treated alike (RFC 9110, section 5.1). */
  lemma HeaderCaseIsIgnored(headers: Headers, others: Headers, body: Fields, classes: Classes, now: real)
    requires |headers| == |others|
    requires forall k :: 0 <= k < |headers| ==>
               SameButCase(headers[k].0, others[k].0) && headers[k].1 == others[k].1
    ensures TreatedAlike(headers, body, others, body, classes, now)
  {
    LoweredIgnoresCase(headers, others);
  }

  // ----- requests the boundary cannot tell apart ----------------------------------------

  /** The same problems in the same order, or the same envelope. */
  ghost predicate TreatedAlike(headers: Headers, body: Fields, others: Headers, other: Fields,
                               classes: Classes, now: real) {
    && Expected(headers, body, classes) == Expected(others, other, classes)
    && (Expected(headers, body, classes) == [] ==>
          EnvelopeFor(headers, body, classes, now) == EnvelopeFor(others, other, classes, now))
  }

  /** Every field reads the same. */
  predicate ReadsAlike(h: map<string, string>, ext: Fields, h': map<string, string>, ext': Fields) {
    && (forall f :: f in STRING_FIELDS ==>
          Resolved(h, ext, f) == Resolved(h', ext', f) && (WrongType(h, ext, f) <==> WrongType(h', ext', f)))
    && Tags(h, ext) == Tags(h', ext')
    && UnknownKeys(ext) == UnknownKeys(ext')
  }

  lemma {:induction false} SameFieldProblems(h: map<string, string>, ext: Fields,
                                             h': map<string, string>, ext': Fields, fs: seq<Field>)
    requires forall f :: f in fs ==>
               Resolved(h, ext, f) == Resolved(h', ext', f) && (WrongType(h, ext, f) <==> WrongType(h', ext', f))
    ensures TypeProblems(h, ext, fs) == TypeProblems(h', ext', fs)
    ensures MissingProblems(h, ext, fs) == MissingProblems(h', ext', fs)
  {
    hide Resolved, WrongType, BadValue, MissingValue;
    if fs != [] {
      SameFieldProblems(h, ext, h', ext', fs[..|fs| - 1]);
    }
  }

  lemma AlikeMeansTreatedAlike(headers: Headers, body: Fields, others: Headers, other: Fields,
                               classes: Classes, now: real)
    requires ReadsAlike(Lowered(headers), ExtensionOf(body), Lowered(others), ExtensionOf(other))
    requires PayloadOf(body) == PayloadOf(other) && ExtensionProblems(body) == ExtensionProblems(other)
    ensures TreatedAlike(headers, body, others, other, classes, now)
  {
    hide Resolved, WrongType, Tags, UnknownKeys, TypeProblems, MissingProblems, ExtensionProblems, Lowered,
         ExtensionOf, PayloadOf;
    SameFieldProblems(Lowered(headers), ExtensionOf(body), Lowered(others), ExtensionOf(other), STRING_FIELDS);
    assert forall f :: f in REQUIRED ==> f in STRING_FIELDS;
    SameFieldProblems(Lowered(headers), ExtensionOf(body), Lowered(others), ExtensionOf(other), REQUIRED);
    assert RequestClass in STRING_FIELDS && IdempotencyKey in STRING_FIELDS;
    if Expected(headers, body, classes) == [] {
      EnvelopesAgree(headers, body, others, other, classes, now);
    }
  }

  lemma EnvelopesAgree(headers: Headers, body: Fields, others: Headers, other: Fields, classes: Classes, now: real)
    requires Expected(headers, body, classes) == [] == Expected(others, other, classes)
    requires ReadsAlike(Lowered(headers), ExtensionOf(body), Lowered(others), ExtensionOf(other))
    requires PayloadOf(body) == PayloadOf(other)
    ensures EnvelopeFor(headers, body, classes, now) == EnvelopeFor(others, other, classes, now)
  {
    hide Resolved, WrongType, Tags, UnknownKeys, Expected, Lowered, ExtensionOf, PayloadOf;
    NoProblems(headers, body, classes);
    NoProblems(others, other, classes);
    assert forall f :: f in REQUIRED ==> f in STRING_FIELDS;
    assert RequestClass in REQUIRED && Tenant in REQUIRED && Feature in REQUIRED && RequestId in REQUIRED;
    assert IdempotencyKey in STRING_FIELDS;
  }

  // ----- the extension inside a body --------------------------------------------------------

  /** Member `k` of the body is its extension. */
  predicate ExtensionAt(body: Fields, k: nat) {
    k < |body| && body[k].0 == BODY_EXTENSION_KEY && forall j :: 0 <= j < k ==> body[j].0 != BODY_EXTENSION_KEY
  }

  /** The body with this object for an extension. */
  function Extended(body: Fields, k: nat, ext: Fields): Fields
    requires ExtensionAt(body, k)
  {
    body[k := (BODY_EXTENSION_KEY, Obj(ext))]
  }

  lemma {:induction false} PayloadIgnoresExtension(body: Fields, k: nat, value: Json)
    requires k < |body| && body[k].0 == BODY_EXTENSION_KEY
    ensures PayloadOf(body[k := (BODY_EXTENSION_KEY, value)]) == PayloadOf(body)
  {
    var init := body[..|body| - 1];
    var changed := body[k := (BODY_EXTENSION_KEY, value)];
    if k < |init| {
      PayloadIgnoresExtension(init, k, value);
      assert changed[..|changed| - 1] == init[k := (BODY_EXTENSION_KEY, value)];
    } else {
      assert changed[..|changed| - 1] == init;
    }
  }

  lemma ExtendedReads(body: Fields, k: nat, ext: Fields)
    requires ExtensionAt(body, k)
    ensures ExtensionOf(Extended(body, k, ext)) == ext
    ensures ExtensionProblems(Extended(body, k, ext)) == UnknownKeys(ext)
    ensures PayloadOf(Extended(body, k, ext)) == PayloadOf(body)
  {
    GetAt(Extended(body, k, ext), k);
    PayloadIgnoresExtension(body, k, Obj(ext));
  }

  /** A body without an extension is one whose extension is empty. */
  lemma NoExtensionIsEmpty(headers: Headers, body: Fields, classes: Classes, now: real)
    requires Get(body, BODY_EXTENSION_KEY) == None
    ensures TreatedAlike(headers, body, headers, body + [(BODY_EXTENSION_KEY, Obj([]))], classes, now)
  {
    GetSnoc(body, (BODY_EXTENSION_KEY, Obj([])), BODY_EXTENSION_KEY);
    assert (body + [(BODY_EXTENSION_KEY, Obj([]))])[..|body|] == body;
    AlikeMeansTreatedAlike(headers, body, headers, body + [(BODY_EXTENSION_KEY, Obj([]))], classes, now);
  }

  // ----- one field on one channel or the other ------------------------------------------------

  lemma {:induction false} UnknownKeysPrepend(first: (string, Json), ext: Fields)
    requires Accepted(first.0)
    ensures UnknownKeys([first] + ext) == UnknownKeys(ext)
  {
    hide Accepted, UnknownKey;
    if ext == [] {
      assert [first] + ext == [first];
      assert [first][..0] == [];
    } else {
      assert ([first] + ext)[..|[first] + ext| - 1] == [first] + ext[..|ext| - 1];
      UnknownKeysPrepend(first, ext[..|ext| - 1]);
    }
  }

  /** Only field `f` can tell the two apart. */
  lemma OtherFieldsUnmoved(h: map<string, string>, ext: Fields, f: Field, v: string, value: Json, g: Field)
    requires f != g
    ensures
      var h', ext' := h[Lower(Header(f)) := v], [(Name(f), value)] + ext;
      && FromHeader(h', g) == FromHeader(h, g) && Get(ext', Name(g)) == Get(ext, Name(g))
  {
    HeadersDiffer(f, g);
    LowerHeadersDiffer(f, g);
    NamesDiffer(f, g);
    assert ([(Name(f), value)] + ext)[1..] == ext;
    hide Header, Name, Lower, Strip;
  }

  lemma LowerHeadersDiffer(f: Field, g: Field)
    requires f != g
    ensures Lower(Header(f)) != Lower(Header(g))
  {
    assert |Lower(Header(f))| != |Lower(Header(g))|;
  }

  lemma GetFirst(ext: Fields, f: Field, value: Json)
    ensures Get([(Name(f), value)] + ext, Name(f)) == Some(value)
  {
  }

  lemma StringOnEitherChannel(h: map<string, string>, ext: Fields, f: Field, v: string, g: Field)
    requires Lower(Header(f)) !in h && Get(ext, Name(f)) == None
    ensures
      var h', ext' := h[Lower(Header(f)) := v], [(Name(f), Str(v))] + ext;
      Resolved(h', ext, g) == Resolved(h, ext', g) && (WrongType(h', ext, g) <==> WrongType(h, ext', g))
  {
    GetFirst(ext, f, Str(v));
    if f != g {
      OtherFieldsUnmoved(h, ext, f, v, Str(v), g);
    }
    hide Header, Name, Lower, Strip, Get;
  }

  lemma TagsOnEitherChannel(h: map<string, string>, ext: Fields, f: Field, v: string)
    requires Lower(Header(f)) !in h && Get(ext, Name(f)) == None
    ensures Tags(h[Lower(Header(f)) := v], ext) == Tags(h, [(Name(f), Str(v))] + ext)
  {
    GetFirst(ext, f, Str(v));
    if f != Capabilities {
      OtherFieldsUnmoved(h, ext, f, v, Str(v), Capabilities);
      LowerHeadersDiffer(f, Capabilities);
    } else if Blank(v) {
      BlankHasNoTags(v);
    }
    hide Header, Name, Lower, Strip, Get, TagsIn, SplitComma;
  }

  lemma NameIsAccepted(f: Field)
    ensures Accepted(Name(f))
  {
  }

  lemma LoweredSnoc(headers: Headers, name: string, v: string)
    ensures Lowered(headers + [(name, v)]) == Lowered(headers)[Lower(name) := v]
  {
    assert (headers + [(name, v)])[..|headers|] == headers;
  }

  /** Supplying a field as a string by header or in the extension is the same request, whatever the value and
      whichever the field, when the field is on neither channel otherwise: the same problems in the same
      order, or the same envelope. */
  lemma ChannelsAgree(headers: Headers, body: Fields, k: nat, ext: Fields, f: Field, v: string,
                      classes: Classes, now: real)
    requires ExtensionAt(body, k)
    requires Lower(Header(f)) !in Lowered(headers) && Get(ext, Name(f)) == None
    ensures TreatedAlike(headers + [(Header(f), v)], Extended(body, k, ext),
                         headers, Extended(body, k, [(Name(f), Str(v))] + ext), classes, now)
  {
    var h, ext' := Lowered(headers), [(Name(f), Str(v))] + ext;
    LoweredSnoc(headers, Header(f), v);
    ExtendedReads(body, k, ext);
    ExtendedReads(body, k, ext');
    NameIsAccepted(f);
    UnknownKeysPrepend((Name(f), Str(v)), ext);
    TagsOnEitherChannel(h, ext, f, v);
    forall g | g in STRING_FIELDS
      ensures Resolved(h[Lower(Header(f)) := v], ext, g) == Resolved(h, ext', g)
      ensures WrongType(h[Lower(Header(f)) := v], ext, g) <==> WrongType(h, ext', g)
    {
      StringOnEitherChannel(h, ext, f, v, g);
    }
    hide Resolved, WrongType, Tags, UnknownKeys, Lowered, Header, Name, Lower, Get, ExtensionOf, ExtensionProblems,
         PayloadOf, Extended, Expected, TreatedAlike;
    AlikeMeansTreatedAlike(headers + [(Header(f), v)], Extended(body, k, ext), headers, Extended(body, k, ext'),
                           classes, now);
  }

  lemma MaskedField(h: map<string, string>, ext: Fields, f: Field, v: string, value: Json, g: Field)
    requires !Blank(v)
    ensures
      var h', ext' := h[Lower(Header(f)) := v], [(Name(f), value)] + ext;
      && Resolved(h', ext', g) == Resolved(h', ext, g) && (WrongType(h', ext', g) <==> WrongType(h', ext, g))
      && (g == f ==> Resolved(h', ext, g) == Some(Strip(v)))
  {
    if f != g {
      OtherFieldsUnmoved(h, ext, f, v, value, g);
    }
    hide Header, Name, Lower, Strip, Get;
  }

  lemma MaskedTags(h: map<string, string>, ext: Fields, f: Field, v: string, value: Json)
    requires !Blank(v)
    ensures Tags(h[Lower(Header(f)) := v], [(Name(f), value)] + ext) == Tags(h[Lower(Header(f)) := v], ext)
  {
    if f != Capabilities {
      OtherFieldsUnmoved(h, ext, f, v, value, Capabilities);
    }
    hide Header, Name, Lower, Strip, Get, TagsIn, SplitComma;
  }

  /** A non-blank header always wins: whatever the extension says about its field, of whatever type, is as if
      it were not there. */
  lemma HeaderMasksBody(headers: Headers, body: Fields, k: nat, ext: Fields, f: Field, v: string, value: Json,
                        classes: Classes, now: real)
    requires ExtensionAt(body, k) && !Blank(v)
    ensures TreatedAlike(headers + [(Header(f), v)], Extended(body, k, [(Name(f), value)] + ext),
                         headers + [(Header(f), v)], Extended(body, k, ext), classes, now)
    ensures Resolved(Lowered(headers + [(Header(f), v)]), ext, f) == Some(Strip(v))
  {
    var h, ext' := Lowered(headers), [(Name(f), value)] + ext;
    LoweredSnoc(headers, Header(f), v);
    ExtendedReads(body, k, ext);
    ExtendedReads(body, k, ext');
    NameIsAccepted(f);
    UnknownKeysPrepend((Name(f), value), ext);
    MaskedTags(h, ext, f, v, value);
    MaskedField(h, ext, f, v, value, f);
    forall g | g in STRING_FIELDS
      ensures Resolved(h[Lower(Header(f)) := v], ext', g) == Resolved(h[Lower(Header(f)) := v], ext, g)
      ensures WrongType(h[Lower(Header(f)) := v], ext', g) <==> WrongType(h[Lower(Header(f)) := v], ext, g)
    {
      MaskedField(h, ext, f, v, value, g);
    }
    hide Resolved, WrongType, Tags, UnknownKeys, Lowered, Header, Name, Lower, Get, ExtensionOf, ExtensionProblems,
         PayloadOf, Extended, Expected, TreatedAlike;
    AlikeMeansTreatedAlike(headers + [(Header(f), v)], Extended(body, k, ext'),
                           headers + [(Header(f), v)], Extended(body, k, ext), classes, now);
  }

  // ----- what an accepted request carries --------------------------------------------------------

  lemma LastHeaderIsRead(headers: Headers, ext: Fields, f: Field, k: nat)
    requires LastNamed(headers, Header(f), k) && !Blank(headers[k].1)
    ensures Resolved(Lowered(headers), ext, f) == Some(Strip(headers[k].1))
    ensures f == Capabilities ==> Tags(Lowered(headers), ext) == Some(TagsIn(SplitComma(headers[k].1)))
  {
    hide Header, Name, Lower, Strip, Get, TagsIn, SplitComma, LastNamed, Lowered;
    LastIsFound(headers, Header(f), k);
  }

  /** What the envelope says is what was asked: each field is the value of its own header, in any letter case and
      the last one where there are several, stripped, whatever else the request holds; the class named decides
      whether the request is deferrable; the time is that of its arrival. */
  lemma EnvelopeCarriesHeaders(headers: Headers, body: Fields, classes: Classes, now: real, k: nat)
    requires Expected(headers, body, classes) == [] && k < |headers| && !Blank(headers[k].1)
    ensures
      var e, v := EnvelopeFor(headers, body, classes, now), headers[k].1;
      && (LastNamed(headers, "X-Keel-Tenant", k) ==> e.tenant == Strip(v))
      && (LastNamed(headers, "X-Keel-Feature", k) ==> e.feature == Strip(v))
      && (LastNamed(headers, "X-Keel-Request-Id", k) ==> e.requestId == Strip(v))
      && (LastNamed(headers, "X-Keel-Class", k) ==> e.requestClass == Strip(v))
      && (LastNamed(headers, "X-Keel-Idempotency-Key", k) ==> e.idempotencyKey == Some(Strip(v)))
      && (LastNamed(headers, "X-Keel-Capabilities", k) ==> e.capabilities == TagsIn(SplitComma(v)))
      && e.requestClass in classes && e.deferrable == classes[e.requestClass].deferrable
      && e.receivedAt == now
  {
    var ext := ExtensionOf(body);
    hide LastNamed, Lower, Strip, Resolved, Expected, Tags, TagsIn, SplitComma, ExtensionOf, PayloadOf, Lowered;
    NoProblems(headers, body, classes);
    forall f | LastNamed(headers, Header(f), k)
      ensures Resolved(Lowered(headers), ext, f) == Some(Strip(headers[k].1))
      ensures f == Capabilities ==> Tags(Lowered(headers), ext) == Some(TagsIn(SplitComma(headers[k].1)))
    {
      LastHeaderIsRead(headers, ext, f, k);
    }
    assert Header(Capabilities) == "X-Keel-Capabilities";
  }

  /** ... or the value of its own member of the extension, stripped, when its header is absent or blank; capability
      tags also as a list. */
  lemma EnvelopeCarriesExtension(headers: Headers, body: Fields, classes: Classes, now: real, key: string, value: Json)
    requires Expected(headers, body, classes) == [] && Get(ExtensionOf(body), key) == Some(value)
    requires forall f: Field, k: nat :: LastNamed(headers, Header(f), k) ==> Blank(headers[k].1)
    ensures
      var e := EnvelopeFor(headers, body, classes, now);
      && (value.Str? && !Blank(value.s) ==>
            && (key == "tenant" ==> e.tenant == Strip(value.s))
            && (key == "feature" ==> e.feature == Strip(value.s))
            && (key == "request_id" ==> e.requestId == Strip(value.s))
            && (key == "request_class" ==> e.requestClass == Strip(value.s))
            && (key == "idempotency_key" ==> e.idempotencyKey == Some(Strip(value.s)))
            && (key == "capabilities" ==> e.capabilities == TagsIn(SplitComma(value.s))))
      && (key == "capabilities" && value.Arr? ==>
            && (forall k :: 0 <= k < |value.items| ==> value.items[k].Str?)
            && forall t :: t in e.capabilities <==>
                 exists k :: 0 <= k < |value.items| && !Blank(value.items[k].s) && t == Strip(value.items[k].s))
  {
    var h, ext := Lowered(headers), ExtensionOf(body);
    hide LastNamed, Lower, Strip, Resolved, Expected, Tags, SplitComma, ExtensionOf, PayloadOf, Lowered, Header,
         FromHeader;
    NoProblems(headers, body, classes);
    forall f: Field ensures FromHeader(h, f) == None {
      NoSuchHeader(headers, f);
    }
    forall f | Name(f) == key && value.Str? && !Blank(value.s)
      ensures Resolved(h, ext, f) == Some(Strip(value.s))
      ensures f == Capabilities ==> Tags(h, ext) == Some(TagsIn(SplitComma(value.s)))
    {
      MemberIsRead(h, ext, f, value.s);
    }
    if key == Name(Capabilities) && value.Arr? {
      ListIsRead(h, ext, value.items);
    }
  }

  lemma NoSuchHeader(headers: Headers, f: Field)
    requires forall k: nat :: LastNamed(headers, Header(f), k) ==> Blank(headers[k].1)
    ensures FromHeader(Lowered(headers), f) == None
  {
    hide SameButCase, Lower, Header, Blank;
    LoweredFinds(headers, Header(f));
    if k: nat :| k < |headers| && SameButCase(headers[k].0, Header(f)) {
      var last := LastOfName(headers, Header(f), k);
      LastIsFound(headers, Header(f), last);
    }
  }

  lemma LastOfName(headers: Headers, name: string, k: nat) returns (last: nat)
    requires k < |headers| && SameButCase(headers[k].0, name)
    ensures LastNamed(headers, name, last)
    decreases |headers| - k
  {
    hide SameButCase;
    if j: nat :| k < j < |headers| && SameButCase(headers[j].0, name) {
      last := LastOfName(headers, name, j);
    } else {
      last := k;
    }
  }

  lemma MemberIsRead(h: map<string, string>, ext: Fields, f: Field, s: string)
    requires FromHeader(h, f) == None && Get(ext, Name(f)) == Some(Str(s)) && !Blank(s)
    ensures Resolved(h, ext, f) == Some(Strip(s))
    ensures f == Capabilities ==> Tags(h, ext) == Some(TagsIn(SplitComma(s)))
  {
    hide Header, Name, Lower, Strip, Get, TagsIn, SplitComma;
  }

  lemma ListIsRead(h: map<string, string>, ext: Fields, items: seq<Json>)
    requires FromHeader(h, Capabilities) == None && Get(ext, Name(Capabilities)) == Some(Arr(items))
    requires Tags(h, ext).Some?
    ensures AllStrings(items)
    ensures forall t :: t in Tags(h, ext).value <==>
              exists k :: 0 <= k < |items| && !Blank(items[k].s) && t == Strip(items[k].s)
  {
    hide Header, Name, Lower, Strip, Get;
    assert Tags(h, ext).value == TagsIn(StringsIn(items));
    var strings := StringsIn(items);
    forall t ensures t in TagsIn(strings) <==>
                     exists k :: 0 <= k < |items| && !Blank(items[k].s) && t == Strip(items[k].s) {
      if k :| 0 <= k < |items| && !Blank(items[k].s) && t == Strip(items[k].s) {
        assert strings[k] in strings;
      }
    }
  }

  // ----- capability tags ------------------------------------------------------------------------

  /** Capability tags survive the trip through either channel as one comma-separated string; in a header
      they override whatever the body asks for. */
  lemma CapabilitiesRoundTrip(h: map<string, string>, ext: Fields, tags: seq<string>)
    requires forall t :: t in tags ==> t != [] && Trimmed(t) && ',' !in t
    ensures tags != [] ==> Tags(h[Lower(Header(Capabilities)) := JoinComma(tags)], ext) == Some(set t | t in tags)
    ensures Lower(Header(Capabilities)) !in h ==>
              Tags(h, [(Name(Capabilities), Str(JoinComma(tags)))] + ext) == Some(set t | t in tags)
  {
    TagRoundTrip(tags);
    if tags != [] {
      assert tags[0] in tags;
      JoinedIsNotBlank(tags);
    }
    GetFirst(ext, Capabilities, Str(JoinComma(tags)));
    hide Name, Header, Lower, Strip, JoinComma, SplitComma, TagsIn, Trimmed, Get;
  }
}
