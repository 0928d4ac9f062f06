/** The seven normalized provider failures and the hash field each outcome counts into. */
module Taxonomy {
  import opened Common

  datatype ErrorClass =
    | RateLimit
    | Timeout
    | ServerError
    | QuotaExhausted
    | AuthFailure
    | ContentFilter
    | BadRequest

  /** How one attempt ended. */
  datatype Outcome = Ok | Failed(error: ErrorClass)

  predicate CountsTowardBreaker(c: ErrorClass) {
    match c
    case RateLimit | Timeout | ServerError | QuotaExhausted => true
    case AuthFailure | ContentFilter | BadRequest => false
  }

  function WireValue(c: ErrorClass): string {
    match c
    case RateLimit => "rate_limit"
    case Timeout => "timeout"
    case ServerError => "server_error"
    case QuotaExhausted => "quota_exhausted"
    case AuthFailure => "auth_failure"
    case ContentFilter => "content_filter"
    case BadRequest => "bad_request"
  }

  const FIELD_OK := "ok"
  const ERROR_FIELD_PREFIX := "err_"

  function ErrorField(c: ErrorClass): string {
    ERROR_FIELD_PREFIX + WireValue(c)
  }

  function FieldFor(o: Outcome): string {
    match o
    case Ok => FIELD_OK
    case Failed(c) => ErrorField(c)
  }

  /** The inverse table, built from the taxonomy itself. */
  function ClassOfField(field: string): Option<ErrorClass> {
    if field == ErrorField(RateLimit) then Some(RateLimit)
    else if field == ErrorField(Timeout) then Some(Timeout)
    else if field == ErrorField(ServerError) then Some(ServerError)
    else if field == ErrorField(QuotaExhausted) then Some(QuotaExhausted)
    else if field == ErrorField(AuthFailure) then Some(AuthFailure)
    else if field == ErrorField(ContentFilter) then Some(ContentFilter)
    else if field == ErrorField(BadRequest) then Some(BadRequest)
    else None
  }

  /** The field of every outcome, as any other reader of the store knows it. */
  lemma FieldNames(o: Outcome)
    ensures FieldFor(o) == match o
                           case Ok => "ok"
                           case Failed(RateLimit) => "err_" + "rate_limit"
                           case Failed(Timeout) => "err_" + "timeout"
                           case Failed(ServerError) => "err_" + "server_error"
                           case Failed(QuotaExhausted) => "err_" + "quota_exhausted"
                           case Failed(AuthFailure) => "err_" + "auth_failure"
                           case Failed(ContentFilter) => "err_" + "content_filter"
                           case Failed(BadRequest) => "err_" + "bad_request"
  {
  }

  /** The failures that say nothing about the provider's health. */
  lemma NotTheProvidersFault(c: ErrorClass)
    ensures !CountsTowardBreaker(c) <==> c in {AuthFailure, ContentFilter, BadRequest}
  {
  }

  /** No two outcomes share a hash field, so no count can be read back as another's. */
  lemma FieldsDistinct(a: Outcome, b: Outcome)
    requires FieldFor(a) == FieldFor(b)
    ensures a == b
  {
    if a.Failed? && b.Failed? {
      assert ErrorField(a.error)[4..] == WireValue(a.error);
      assert ErrorField(b.error)[4..] == WireValue(b.error);
      WireValuesDistinct(a.error, b.error);
    } else {
      assert |FIELD_OK| == 2;
    }
  }

  lemma WireValuesDistinct(a: ErrorClass, b: ErrorClass)
    requires WireValue(a) == WireValue(b)
    ensures a == b
  {
    assert WireValue(a)[0] == WireValue(b)[0];
    assert |WireValue(a)| == |WireValue(b)|;
  }

  lemma FieldTableInverts(field: string, c: ErrorClass)
    ensures ClassOfField(field) == Some(c) <==> field == ErrorField(c)
    ensures ClassOfField(FIELD_OK) == None
  {
    if field == ErrorField(c) {
      var found := ClassOfField(field);
      assert found.Some? && ErrorField(found.value) == field;
      FieldsDistinct(Failed(found.value), Failed(c));
    }
    assert forall e :: |ErrorField(e)| > 4;
  }
}
