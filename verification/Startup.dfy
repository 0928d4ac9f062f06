/** Startup guarantees: configuration checks, the adapter registry, and the routing they make total. */
module Startup {
  import opened Common
  import opened Geometry
  import opened Envelope
  import opened TextForms

  datatype AdapterName = Cohere | AzureOpenAi | Bedrock | MockAdapter

  datatype ProviderConfig = ProviderConfig(
    adapter: AdapterName, model: Option<string>, deployment: Option<string>, timeoutMs: Option<int>)
  {
    /** Each adapter names its target its own way. */
    predicate TargetNamed() {
      match adapter
      case AzureOpenAi => deployment.Some? && model == None
      case MockAdapter => model == None && deployment == None
      case Cohere | Bedrock => model.Some? && deployment == None
    }
  }

  /** The configuration file, both mappings in file order. */
  datatype KeelConfig = KeelConfig(
    providers: seq<(string, ProviderConfig)>, requestClasses: seq<(string, ClassConfig)>, breaker: Window)
  {
    function Classes(): map<string, ClassConfig> {
      Mapping(requestClasses)
    }

    function Providers(): map<string, ProviderConfig> {
      Mapping(providers)
    }
  }

  function Mapping<V>(entries: seq<(string, V)>): map<string, V> {
    if entries == [] then map[]
    else Mapping(entries[..|entries| - 1])[entries[|entries| - 1].0 := entries[|entries| - 1].1]
  }

  predicate UniqueKeys<V>(entries: seq<(string, V)>) {
    forall j, k :: 0 <= j < k < |entries| ==> entries[j].0 != entries[k].0
  }

  predicate NoRepeats(names: seq<string>) {
    forall j, k :: 0 <= j < k < |names| ==> names[j] != names[k]
  }

  /** Every validator of the configuration models taken together. */
  predicate ValidConfig(c: KeelConfig) {
    && c.providers != [] && UniqueKeys(c.providers)
    && c.requestClasses != [] && UniqueKeys(c.requestClasses)
    && (forall k :: 0 <= k < |c.providers| ==> c.providers[k].1.TargetNamed())
    && (forall k :: 0 <= k < |c.requestClasses| ==>
          c.requestClasses[k].1.preference != [] && NoRepeats(c.requestClasses[k].1.preference))
    && UndefinedPreferences(c) == []
    && c.breaker.Valid()
  }

  function UnknownIn(preference: seq<string>, known: set<string>): seq<string> {
    if preference == [] then []
    else
      var init := UnknownIn(preference[..|preference| - 1], known);
      var last := preference[|preference| - 1];
      if last in known then init else init + [last]
  }

  function UndefinedIn(classes: seq<(string, ClassConfig)>, known: set<string>): seq<(string, seq<string>)> {
    if classes == [] then []
    else
      var init := UndefinedIn(classes[..|classes| - 1], known);
      var last := classes[|classes| - 1];
      var unknown := UnknownIn(last.1.preference, known);
      if unknown == [] then init else init + [(last.0, unknown)]
  }

  /** Per request class, the preferences no provider entry defines. */
  function UndefinedPreferences(c: KeelConfig): seq<(string, seq<string>)> {
    UndefinedIn(c.requestClasses, c.Providers().Keys)
  }

  /** The cross-reference check, class by class. */
  method CheckPreferences(c: KeelConfig) returns (errors: seq<(string, seq<string>)>)
    ensures errors == UndefinedPreferences(c)
  {
    errors := [];
    var known := c.Providers().Keys;
    for k := 0 to |c.requestClasses|
      invariant errors == UndefinedIn(c.requestClasses[..k], known)
    {
      assert c.requestClasses[..k + 1][..k] == c.requestClasses[..k];
      var unknown := UnknownIn(c.requestClasses[k].1.preference, known);
      if unknown != [] {
        errors := errors + [(c.requestClasses[k].0, unknown)];
      }
    }
    assert c.requestClasses[..|c.requestClasses|] == c.requestClasses;
  }

  /** The check is a filter: class by class in file order, each with its undefined names in preference order. */
  lemma {:induction false} UndefinedIsFilter(a: seq<(string, ClassConfig)>, b: seq<(string, ClassConfig)>,
                                             known: set<string>)
    ensures UndefinedIn(a + b, known) == UndefinedIn(a, known) + UndefinedIn(b, known)
    ensures |b| == 1 ==>
              UndefinedIn(b, known) == if forall p :: p in b[0].1.preference ==> p in known then []
                                       else [(b[0].0, UnknownIn(b[0].1.preference, known))]
  {
    if b == [] {
      assert a + b == a;
    } else {
      assert (a + b)[..|a + b| - 1] == a + b[..|b| - 1];
      UndefinedIsFilter(a, b[..|b| - 1], known);
      NoneUnknown(b[0].1.preference, known);
    }
  }

  lemma {:induction false} UnknownIsFilter(a: seq<string>, b: seq<string>, known: set<string>)
    ensures UnknownIn(a + b, known) == UnknownIn(a, known) + UnknownIn(b, known)
    ensures |b| == 1 ==> UnknownIn(b, known) == if b[0] in known then [] else [b[0]]
  {
    if b == [] {
      assert a + b == a;
    } else {
      assert (a + b)[..|a + b| - 1] == a + b[..|b| - 1];
      UnknownIsFilter(a, b[..|b| - 1], known);
    }
  }

  lemma {:induction false} NoneUnknown(preference: seq<string>, known: set<string>)
    ensures UnknownIn(preference, known) == [] <==> forall p :: p in preference ==> p in known
  {
    if preference != [] {
      NoneUnknown(preference[..|preference| - 1], known);
      assert preference == preference[..|preference| - 1] + [preference[|preference| - 1]];
    }
  }

  /** The check passes exactly when every preference of every class names a configured provider. */
  lemma {:induction false} NoneUndefined(classes: seq<(string, ClassConfig)>, known: set<string>)
    ensures UndefinedIn(classes, known) == [] <==>
            forall k, p :: 0 <= k < |classes| && p in classes[k].1.preference ==> p in known
  {
    if classes != [] {
      NoneUndefined(classes[..|classes| - 1], known);
      NoneUnknown(classes[|classes| - 1].1.preference, known);
    }
  }

  lemma {:induction false} MappingLookup<V>(entries: seq<(string, V)>)
    ensures forall name :: name in Mapping(entries) <==> exists k :: 0 <= k < |entries| && entries[k].0 == name
    ensures UniqueKeys(entries) ==>
              forall k :: 0 <= k < |entries| ==> Mapping(entries)[entries[k].0] == entries[k].1
  {
    if entries != [] {
      MappingLookup(entries[..|entries| - 1]);
    }
  }

  // ----- the registry ------------------------------------------------------------------

  datatype Adapter = CohereAdapter(name: string, model: string, apiKey: string) | Mock(name: string)

  datatype RegistryProblem = MissingCredential(name: string) | Unimplemented(name: string)

  datatype RegistryError = Problems(problems: seq<RegistryProblem>) | ModelUnset(name: string)

  /** A blank credential counts as none. */
  function Credential(raw: Option<string>): Option<string> {
    match raw
    case None => None
    case Some(s) => if Blank(s) then None else Some(Strip(s))
  }

  lemma CredentialIs(raw: Option<string>)
    ensures Credential(raw) == None <==> raw == None || forall k :: 0 <= k < |raw.value| ==> IsSpace(raw.value[k])
    ensures Credential(raw).Some? ==>
              && Credential(raw).value != [] && Trimmed(Credential(raw).value)
              && exists front, back :: raw.value == front + Credential(raw).value + back
                                       && AllSpace(front) && AllSpace(back)
  {
    if raw.Some? {
      StripTakesOnlySpace(raw.value);
      StripTrims(raw.value);
      hide Strip, Trimmed;
    }
  }

  predicate Buildable(entry: ProviderConfig, apiKey: Option<string>) {
    entry.adapter == MockAdapter || (entry.adapter == Cohere && apiKey.Some?)
  }

  function ProblemWith(name: string, entry: ProviderConfig): RegistryProblem {
    if entry.adapter == Cohere then MissingCredential(name) else Unimplemented(name)
  }

  /** One problem for every entry that cannot be built, in file order. */
  function RegistryProblems(entries: seq<(string, ProviderConfig)>, apiKey: Option<string>): seq<RegistryProblem> {
    if entries == [] then []
    else
      var init := RegistryProblems(entries[..|entries| - 1], apiKey);
      var last := entries[|entries| - 1];
      if Buildable(last.1, apiKey) then init else init + [ProblemWith(last.0, last.1)]
  }

  function AdapterOf(name: string, entry: ProviderConfig, apiKey: Option<string>): Adapter
    requires Buildable(entry, apiKey) && entry.TargetNamed()
  {
    if entry.adapter == MockAdapter then Mock(name) else CohereAdapter(name, entry.model.value, apiKey.value)
  }

  predicate AllNamed(entries: seq<(string, ProviderConfig)>) {
    forall k :: 0 <= k < |entries| ==> entries[k].1.TargetNamed()
  }

  /** One adapter for every entry that can be built. */
  function RegistryOf(entries: seq<(string, ProviderConfig)>, apiKey: Option<string>): map<string, Adapter>
    requires AllNamed(entries)
  {
    if entries == [] then map[]
    else
      var init := RegistryOf(entries[..|entries| - 1], apiKey);
      var last := entries[|entries| - 1];
      if Buildable(last.1, apiKey) then init[last.0 := AdapterOf(last.0, last.1, apiKey)] else init
  }

  /** All adapters or none, with every unbuildable entry reported; the model guard never fires. */
  method BuildRegistry(c: KeelConfig, rawKey: Option<string>) returns (r: Result<map<string, Adapter>, RegistryError>)
    requires ValidConfig(c)
    ensures r.Success? <==> RegistryProblems(c.providers, Credential(rawKey)) == []
    ensures r.Success? ==> r.value == RegistryOf(c.providers, Credential(rawKey))
    ensures r.Failure? ==> r.error == Problems(RegistryProblems(c.providers, Credential(rawKey)))
  {
    hide Credential, UndefinedPreferences, UniqueKeys, NoRepeats;
    var apiKey := Credential(rawKey);
    var registry: map<string, Adapter> := map[];
    var problems := [];
    for k := 0 to |c.providers|
      invariant problems == RegistryProblems(c.providers[..k], apiKey)
      invariant registry == RegistryOf(c.providers[..k], apiKey)
    {
      assert c.providers[..k + 1][..k] == c.providers[..k];
      var name, entry := c.providers[k].0, c.providers[k].1;
      match entry.adapter {
        case Cohere =>
          if apiKey == None {
            problems := problems + [MissingCredential(name)];
          } else {
            if entry.model == None {
              return Failure(ModelUnset(name));
            }
            registry := registry[name := CohereAdapter(name, entry.model.value, apiKey.value)];
          }
        case MockAdapter =>
          registry := registry[name := Mock(name)];
        case AzureOpenAi | Bedrock =>
          problems := problems + [Unimplemented(name)];
      }
    }
    assert c.providers[..|c.providers|] == c.providers;
    if problems != [] {
      return Failure(Problems(problems));
    }
    return Success(registry);
  }

  /** When every entry can be built, the registry's names are exactly the configured ones, and each
      adapter carries the name of its entry. */
  lemma {:induction false} RegistryComplete(entries: seq<(string, ProviderConfig)>, apiKey: Option<string>)
    requires AllNamed(entries) && RegistryProblems(entries, apiKey) == []
    ensures RegistryOf(entries, apiKey).Keys == Mapping(entries).Keys
    ensures forall name :: name in RegistryOf(entries, apiKey) ==> RegistryOf(entries, apiKey)[name].name == name
  {
    hide Buildable;
    if entries != [] {
      RegistryComplete(entries[..|entries| - 1], apiKey);
    }
  }

  /** ... of the kind its entry asks for, on its model and with the credential. */
  lemma {:induction false} AdapterPerEntry(entries: seq<(string, ProviderConfig)>, apiKey: Option<string>, k: nat)
    requires AllNamed(entries) && UniqueKeys(entries) && RegistryProblems(entries, apiKey) == [] && k < |entries|
    ensures
      var (name, entry) := entries[k];
      && name in RegistryOf(entries, apiKey)
      && (entry.adapter == MockAdapter || entry.adapter == Cohere)
      && (entry.adapter == MockAdapter ==> RegistryOf(entries, apiKey)[name] == Mock(name))
      && (entry.adapter == Cohere ==>
            && entry.model.Some? && apiKey.Some?
            && RegistryOf(entries, apiKey)[name] == CohereAdapter(name, entry.model.value, apiKey.value))
  {
    if k < |entries| - 1 {
      AdapterPerEntry(entries[..|entries| - 1], apiKey, k);
    }
  }

  /** Exactly the entries that cannot be built are reported: a Cohere entry without a credential as lacking it, an
      Azure or Bedrock entry as not implemented. */
  lemma {:induction false} ProblemPerUnbuildable(entries: seq<(string, ProviderConfig)>, apiKey: Option<string>,
                                                 p: RegistryProblem)
    ensures p in RegistryProblems(entries, apiKey) <==> exists k :: 0 <= k < |entries| && Stops(entries[k], apiKey, p)
    ensures RegistryProblems(entries, apiKey) == [] <==>
            forall k :: 0 <= k < |entries| ==>
              entries[k].1.adapter == MockAdapter || (entries[k].1.adapter == Cohere && apiKey.Some?)
  {
    hide Stops, ProblemWith;
    if entries != [] {
      var init, last := entries[..|entries| - 1], entries[|entries| - 1];
      ProblemPerUnbuildable(init, apiKey, p);
      StopsIf(last, apiKey, p);
      assert forall k :: 0 <= k < |init| ==> init[k] == entries[k];
      if Stops(last, apiKey, p) {
        assert Stops(entries[|entries| - 1], apiKey, p);
      }
    }
  }

  /** `p` is what stops this entry from being built. */
  predicate Stops(entry: (string, ProviderConfig), apiKey: Option<string>, p: RegistryProblem) {
    || (entry.1.adapter == Cohere && apiKey == None && p == MissingCredential(entry.0))
    || ((entry.1.adapter == AzureOpenAi || entry.1.adapter == Bedrock) && p == Unimplemented(entry.0))
  }

  lemma StopsIf(entry: (string, ProviderConfig), apiKey: Option<string>, p: RegistryProblem)
    ensures Stops(entry, apiKey, p) <==> !Buildable(entry.1, apiKey) && p == ProblemWith(entry.0, entry.1)
  {
  }

  /** ... each once, in file order. */
  lemma {:induction false} ProblemsInFileOrder(a: seq<(string, ProviderConfig)>, b: seq<(string, ProviderConfig)>,
                                               apiKey: Option<string>)
    ensures RegistryProblems(a + b, apiKey) == RegistryProblems(a, apiKey) + RegistryProblems(b, apiKey)
    ensures |b| == 1 ==> |RegistryProblems(b, apiKey)| <= 1
  {
    hide Buildable, ProblemWith;
    if b == [] {
      assert a + b == a;
    } else {
      assert (a + b)[..|a + b| - 1] == a + b[..|b| - 1];
      ProblemsInFileOrder(a, b[..|b| - 1], apiKey);
    }
  }

  // ----- routing ---------------------------------------------------------------------------

  datatype Fault = ClassNotConfigured | NoCandidates | AdapterAbsent

  /** The ordered candidates of a request class. */
  function Candidates(c: KeelConfig, requestClass: string): Result<seq<string>, Fault> {
    if requestClass in c.Classes() then Success(c.Classes()[requestClass].preference) else Failure(ClassNotConfigured)
  }

  function FirstCandidate(c: KeelConfig, requestClass: string): Result<string, Fault> {
    match Candidates(c, requestClass)
    case Failure(f) => Failure(f)
    case Success(names) => if names == [] then Failure(NoCandidates) else Success(names[0])
  }

  function AdapterFor(registry: map<string, Adapter>, name: string): Result<Adapter, Fault> {
    if name in registry then Success(registry[name]) else Failure(AdapterAbsent)
  }

  lemma RepeatFree(names: seq<string>)
    requires NoRepeats(names)
    ensures forall j, k :: 0 <= j < k < |names| ==> names[j] != names[k]
  {
  }

  lemma PreferenceFacts(c: KeelConfig, requestClass: string)
    requires ValidConfig(c) && requestClass in c.Classes()
    ensures
      var names := c.Classes()[requestClass].preference;
      && names != [] && NoRepeats(names) && (forall n :: n in names ==> n in c.Providers())
      && exists k :: 0 <= k < |c.requestClasses| && c.requestClasses[k].0 == requestClass
                     && c.requestClasses[k].1.preference == names
  {
    MappingLookup(c.requestClasses);
    var k :| 0 <= k < |c.requestClasses| && c.requestClasses[k].0 == requestClass;
    NoneUndefined(c.requestClasses, c.Providers().Keys);
    hide NoRepeats, Mapping, UndefinedIn;
  }

  /** With a valid configuration, a registry built from it and an envelope accepted against it, no guard on
      the request path can fire: the candidates are those configured for its class, in their order, non-empty,
      free of repeats and all in the registry, and the first one's adapter carries its own entry name. */
  lemma RoutingIsTotal(c: KeelConfig, apiKey: Option<string>, headers: Headers, body: Fields, now: real)
    requires ValidConfig(c) && RegistryProblems(c.providers, apiKey) == []
    requires Expected(headers, body, c.Classes()) == []
    ensures
      var registry := RegistryOf(c.providers, apiKey);
      var requestClass := EnvelopeFor(headers, body, c.Classes(), now).requestClass;
      && Candidates(c, requestClass).Success?
      && var names := Candidates(c, requestClass).value;
         && names != [] && (forall j, k :: 0 <= j < k < |names| ==> names[j] != names[k])
         && (exists k :: 0 <= k < |c.requestClasses| && c.requestClasses[k].0 == requestClass
                         && c.requestClasses[k].1.preference == names)
         && (forall n :: n in names ==> n in registry && n in c.Providers())
         && FirstCandidate(c, requestClass) == Success(names[0])
         && AdapterFor(registry, names[0]).Success? && AdapterFor(registry, names[0]).value.name == names[0]
  {
    NoProblems(headers, body, c.Classes());
    var requestClass := EnvelopeFor(headers, body, c.Classes(), now).requestClass;
    hide Expected, Mapping, UndefinedIn, RegistryOf, NoRepeats, Resolved, Lowered, Tags;
    assert requestClass in c.Classes();
    PreferenceFacts(c, requestClass);
    RepeatFree(c.Classes()[requestClass].preference);
    RegistryComplete(c.providers, apiKey);
  }
}
