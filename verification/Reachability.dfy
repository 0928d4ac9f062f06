/** Which configured classes a client can ask for: the guarantees of startup are about real requests. */
module Reachability {
  import opened Common
  import opened TextForms
  import opened Envelope
  import opened Startup

  /** An extension object that asks for a class and fills in every other string field. */
  function Claims(requestClass: string): Fields {
    [(Name(Tenant), Str("t")), (Name(Feature), Str("f")), (Name(RequestId), Str("r")),
     (Name(RequestClass), Str(requestClass)), (Name(IdempotencyKey), Str("k"))]
  }

  function Asking(requestClass: string): Fields {
    [(BODY_EXTENSION_KEY, Obj(Claims(requestClass)))]
  }

  function Claimed(requestClass: string, f: Field): string
    requires f in STRING_FIELDS
  {
    match f
    case Tenant => "t"
    case Feature => "f"
    case RequestId => "r"
    case RequestClass => requestClass
    case IdempotencyKey => "k"
  }

  lemma ClaimsRead(requestClass: string, f: Field)
    ensures f in STRING_FIELDS ==> Get(Claims(requestClass), Name(f)) == Some(Str(Claimed(requestClass, f)))
    ensures f == Capabilities ==> Get(Claims(requestClass), Name(f)) == None
  {
    forall g, g': Field | g != g' ensures Name(g) != Name(g') {
      NamesDiffer(g, g');
    }
    var c := Claims(requestClass);
    hide Name, Get;
    match f
    case Tenant => GetAt(c, 0);
    case Feature => GetAt(c, 1);
    case RequestId => GetAt(c, 2);
    case RequestClass => GetAt(c, 3);
    case IdempotencyKey => GetAt(c, 4);
    case Capabilities => GetAbsent(c, Name(f));
  }

  lemma PlainIsItself(s: string)
    requires s != [] && Trimmed(s)
    ensures Strip(s) == s && !Blank(s)
  {
    StripTrims(s);
  }

  lemma ClaimsResolve(requestClass: string, f: Field)
    requires requestClass != [] && Trimmed(requestClass) && f in STRING_FIELDS
    ensures Resolved(map[], Claims(requestClass), f) == Some(Claimed(requestClass, f))
    ensures !WrongType(map[], Claims(requestClass), f)
  {
    ClaimsRead(requestClass, f);
    PlainIsItself(Claimed(requestClass, f));
    hide Get, Name, Header, Lower, Claims, Strip, Blank;
  }

  lemma AskingIsAccepted(requestClass: string, classes: Classes)
    requires requestClass != [] && Trimmed(requestClass) && requestClass in classes
    ensures Expected([], Asking(requestClass), classes) == []
    ensures EnvelopeFor([], Asking(requestClass), classes, 0.0).requestClass == requestClass
  {
    hide Resolved, WrongType, Tags, Asking, Claims, Lowered, ExtensionOf, ExtensionProblems, Expected, Trimmed;
    var body, ext := Asking(requestClass), Claims(requestClass);
    AskingIsWellFormed(requestClass);
    forall f | f in STRING_FIELDS
      ensures Resolved(map[], ext, f) == Some(Claimed(requestClass, f)) && !WrongType(map[], ext, f)
    {
      ClaimsResolve(requestClass, f);
    }
    NoProblems([], body, classes);
    assert Resolved(Lowered([]), ExtensionOf(body), RequestClass) == Some(requestClass);
    ClassOfEnvelope([], body, classes);
  }

  lemma AskingIsWellFormed(requestClass: string)
    ensures
      var body, ext := Asking(requestClass), Claims(requestClass);
      && ExtensionOf(body) == ext && Lowered([]) == map[] && ExtensionProblems(body) == []
      && Tags(map[], ext) == Some({})
  {
    NoUnknownKeys(Claims(requestClass));
    ClaimsRead(requestClass, Capabilities);
  }

  lemma ClassOfEnvelope(headers: Headers, body: Fields, classes: Classes)
    requires Expected(headers, body, classes) == []
    ensures Some(EnvelopeFor(headers, body, classes, 0.0).requestClass) ==
            Resolved(Lowered(headers), ExtensionOf(body), RequestClass)
  {
    NoProblems(headers, body, classes);
  }

  /** A configured class can be asked for if and only if its name is non-empty and has no white space at
      either end: names from a request are stripped before they are looked up. */
  lemma ClassReachableIff(c: KeelConfig, requestClass: string)
    requires requestClass in c.Classes()
    ensures
      (exists headers, body ::
         Expected(headers, body, c.Classes()) == [] &&
         EnvelopeFor(headers, body, c.Classes(), 0.0).requestClass == requestClass)
      <==> requestClass != [] && Trimmed(requestClass)
  {
    forall headers, body | Expected(headers, body, c.Classes()) == [] &&
                           EnvelopeFor(headers, body, c.Classes(), 0.0).requestClass == requestClass
      ensures requestClass != [] && Trimmed(requestClass)
    {
      NoProblems(headers, body, c.Classes());
      ResolvedIsTrimmed(Lowered(headers), ExtensionOf(body), RequestClass);
    }
    if requestClass != [] && Trimmed(requestClass) {
      AskingIsAccepted(requestClass, c.Classes());
    }
  }

  lemma ResolvedIsTrimmed(h: map<string, string>, ext: Fields, f: Field)
    requires Resolved(h, ext, f).Some?
    ensures Resolved(h, ext, f).value != [] && Trimmed(Resolved(h, ext, f).value)
  {
    var key := Lower(Header(f));
    hide Name, Header, Lower, Strip, Trimmed;
    if key in h {
      StripTrims(h[key]);
    }
    match Get(ext, Name(f)) {
      case Some(Str(s)) => StripTrims(s);
      case Some(_) =>
      case None =>
    }
  }
}
