/**
 * The internal error taxonomy: eleven fixed entries, each with a code and a
 * default message set once when the constant is made and only read after.
 */
module ErrorCodes {
  import opened Options
  import Numerals

  datatype ErrorCodeEnum =
    | GenericError
    | InvalidRequest
    | StripeServiceUnavailable
    | StripeUnknownError
    | CardError
    | ApiError
    | RateLimitError
    | AuthenticationError
    | ResourceMissing
    | InvalidRequestError
    | PaymentIntentUnexpectedState
  {
    /** The entry's external code. */
    function Code(): string {
      match this
      case GenericError => "1000"
      case InvalidRequest => "1001"
      case StripeServiceUnavailable => "1002"
      case StripeUnknownError => "1003"
      case CardError => "1004"
      case ApiError => "1005"
      case RateLimitError => "1006"
      case AuthenticationError => "1007"
      case ResourceMissing => "1008"
      case InvalidRequestError => "1009"
      case PaymentIntentUnexpectedState => "1010"
    }

    /** The entry's default message. */
    function Message(): string {
      match this
      case GenericError => "Ooops, Something Went Wrong!!!"
      case InvalidRequest => "INVALID REQUEST"
      case StripeServiceUnavailable => "STRIPE SERVICE UNAVAILABLE"
      case StripeUnknownError => "UNKNOWN PROBLEM WHILE PROCESSING PAYMENT"
      case CardError => "CARD_ERROR"
      case ApiError => "API_ERROR"
      case RateLimitError => "RATE_LIMIT_ERROR"
      case AuthenticationError => "AUTHENTICATION_ERROR"
      case ResourceMissing => "RESOURCE_MISSING"
      case InvalidRequestError => "INVALID_REQUEST_ERROR"
      case PaymentIntentUnexpectedState => "Payment_intent_unexpected_state"
    }
  }

  /** The constants in declaration order, as `values()` lists them. */
  const Values: seq<ErrorCodeEnum> := [
    GenericError, InvalidRequest, StripeServiceUnavailable, StripeUnknownError, CardError, ApiError,
    RateLimitError, AuthenticationError, ResourceMissing, InvalidRequestError, PaymentIntentUnexpectedState
  ]

  /** The position of an entry in declaration order. */
  function Ordinal(e: ErrorCodeEnum): (i: nat)
    ensures i < |Values| && Values[i] == e
  {
    match e
    case GenericError => 0
    case InvalidRequest => 1
    case StripeServiceUnavailable => 2
    case StripeUnknownError => 3
    case CardError => 4
    case ApiError => 5
    case RateLimitError => 6
    case AuthenticationError => 7
    case ResourceMissing => 8
    case InvalidRequestError => 9
    case PaymentIntentUnexpectedState => 10
  }

  /**
   * The entry whose code is `code`, if there is one. The source has no lookup
   * by code; this is the inverse of `Code()`, used to state that codes are
   * unique.
   */
  function FromCode(code: string): (r: Option<ErrorCodeEnum>)
    ensures r.Some? ==> r.value.Code() == code
    ensures r.None? ==> forall e: ErrorCodeEnum :: e.Code() != code
  {
    var r := FindCode(Values, code);
    if r.None? then
      NoEntryOutsideValues(code);
      r
    else
      r
  }

  lemma NoEntryOutsideValues(code: string)
    requires forall i :: 0 <= i < |Values| ==> Values[i].Code() != code
    ensures forall e: ErrorCodeEnum :: e.Code() != code
  {
    forall e: ErrorCodeEnum ensures e.Code() != code {
      assert Values[Ordinal(e)] == e;
    }
  }

  function FindCode(entries: seq<ErrorCodeEnum>, code: string): (r: Option<ErrorCodeEnum>)
    ensures r.Some? ==> r.value in entries && r.value.Code() == code
    ensures r.None? ==> forall i :: 0 <= i < |entries| ==> entries[i].Code() != code
  {
    if entries == [] then None
    else if entries[0].Code() == code then Some(entries[0])
    else FindCode(entries[1..], code)
  }

  /** There are exactly eleven entries, each listed once. */
  lemma ValuesAreTheEntries()
    ensures |Values| == 11
    ensures forall i, j :: 0 <= i < j < |Values| ==> Values[i] != Values[j]
    ensures forall e: ErrorCodeEnum :: e in Values
  {
    forall e: ErrorCodeEnum ensures e in Values {
      assert Values[Ordinal(e)] == e;
    }
  }

  /** The codes run from 1000 to 1010 in declaration order. */
  lemma CodesFollowDeclarationOrder(e: ErrorCodeEnum)
    ensures e.Code() == Numerals.Numeral(1000 + Ordinal(e))
  {
    Numerals.FourDigitNumeral(1000 + Ordinal(e));
  }

  /** Codes are pairwise distinct, so an entry is determined by its code. */
  lemma CodeInjective(a: ErrorCodeEnum, b: ErrorCodeEnum)
    requires a.Code() == b.Code()
    ensures a == b
  {
    CodesFollowDeclarationOrder(a);
    CodesFollowDeclarationOrder(b);
    Numerals.NumeralInjective(1000 + Ordinal(a), 1000 + Ordinal(b));
  }

  /** Looking an entry up by its own code finds that entry. */
  lemma FromCodeRoundTrip(e: ErrorCodeEnum)
    ensures FromCode(e.Code()) == Some(e)
  {
    var r := FromCode(e.Code());
    assert r.Some?;
    CodeInjective(r.value, e);
  }

  /** The two invalid-request entries are distinct, in code and in message. */
  lemma InvalidRequestEntriesDiffer()
    ensures InvalidRequest.Code() != InvalidRequestError.Code()
    ensures InvalidRequest.Message() != InvalidRequestError.Message()
  {
  }

  /** The message the classifier falls back to. */
  lemma UnknownErrorEntry()
    ensures StripeUnknownError.Code() == "1003"
    ensures StripeUnknownError.Message() == "UNKNOWN PROBLEM WHILE PROCESSING PAYMENT"
    ensures |StripeUnknownError.Message()| > 0
  {
  }
}
