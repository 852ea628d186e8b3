/**
 * The shapes the helpers and the error classifier exchange: the processor's
 * payloads as the JSON reader fills them, the configuration, the domain
 * requests, the provider exception and the outcome of a helper call.
 */
module StripeTypes {
  import opened Options
  import opened Http
  import opened ErrorCodes
  import LegacyErrorCodes
  import BigDecimals

  /** The configured API key and endpoint URLs (the confirm URL is a format template). */
  datatype StripeProperties = StripeProperties(apiKey: string, createOrderUrl: string, confirmOrderUrl: string)

  /** A create-order request: the amount and the currency code as the caller sent them. */
  datatype StripeRequest = StripeRequest(amount: BigDecimals.BigDecimal, currency: string)

  /** A confirm-order request: where the processor sends the payer afterwards. */
  datatype ConfirmOrderRequest = ConfirmOrderRequest(returnUrl: string)

  /**
   * A payment intent as the JSON reader fills it from a success body: each
   * field is null when the body does not carry it. Create-order and
   * confirm-order responses share this shape.
   */
  datatype PaymentIntent = PaymentIntent(id: Option<string>, status: Option<string>, clientSecret: Option<string>)

  /** The nested `error` object of a processor error body. */
  datatype StripeError = StripeError(errorType: Option<string>, message: Option<string>, code: Option<string>)

  /** A processor error body: the nested `error` object and a flat top-level `message`. */
  datatype StripeErrorResponse = StripeErrorResponse(error: Option<StripeError>, message: Option<string>)

  /**
   * The value a provider exception carries as its error code: an entry of
   * the taxonomy, or an HttpStatus constant that the status table produced.
   */
  datatype ErrorCode = Internal(entry: ErrorCodeEnum) | StatusName(status: NamedStatus)
  {
    /** `String.valueOf` of the code: the entry's code, or the status's `toString`. */
    function Rendered(): (r: string)
      ensures |r| == 4 <==> this.Internal?
      ensures this.StatusName? ==> |r| > 4 && r[3] == ' '
    {
      match this
      case Internal(e) => e.Code()
      case StatusName(s) => s.Text()
    }
  }

  /** Rendering loses nothing: distinct codes never render to the same text. */
  lemma RenderedInjective(a: ErrorCode, b: ErrorCode)
    requires a.Rendered() == b.Rendered()
    ensures a == b
  {
    match (a, b)
    case (Internal(ea), Internal(eb)) => CodeInjective(ea, eb);
    case (Internal(ea), StatusName(sb)) => InternalIsNotStatus(ea, sb);
    case (StatusName(sa), Internal(eb)) => InternalIsNotStatus(eb, sa);
    case (StatusName(sa), StatusName(sb)) => NamedStatusTextInjective(sa, sb);
  }

  /** An entry's code has four characters and no space; a status text has a space at index 3. */
  lemma InternalIsNotStatus(e: ErrorCodeEnum, s: NamedStatus)
    ensures e.Code() != s.Text()
  {
    assert |e.Code()| == 4 && e.Code()[3] != ' ';
  }

  /**
   * A StripeProviderException: the error code, the message (null when the
   * source passes a null message), and the HTTP status to answer with.
   */
  datatype ProviderException = ProviderException(errorCode: ErrorCode, errorMessage: Option<string>, httpStatus: int)

  /** An entry of the taxonomy with its own default message. */
  function EntryException(e: ErrorCodeEnum, httpStatus: int): ProviderException {
    ProviderException(Internal(e), Some(e.Message()), httpStatus)
  }

  /**
   * An entry of the older taxonomy with its own default message; the code
   * text is that of the namesake entry, which is the same text.
   */
  function LegacyEntryException(e: LegacyErrorCodes.LegacyErrorCode, httpStatus: int): (x: ProviderException)
    ensures x.errorCode.Rendered() == e.Code()
    ensures x.errorMessage == Some(e.Message())
    ensures x.httpStatus == httpStatus
  {
    LegacyErrorCodes.CodesAgree(e);
    ProviderException(Internal(e.Counterpart()), Some(e.Message()), httpStatus)
  }

  /** Exceptions other than StripeProviderException that escape a helper. */
  datatype Fault =
    | JsonConversion      // the JSON reader's RuntimeException
    | NullDereference     // a method called on a null payload
    | IllegalStatus       // HttpStatus.valueOf on a value that names no constant
    | IllegalFormat       // String.format on a malformed template
    | IllegalCredentials  // setBasicAuth on a user name it refuses

  /** How a helper call ends: it returns a value, throws a provider exception, or another exception escapes. */
  datatype Outcome<+T> = Returned(value: T) | Thrown(exception: ProviderException) | Crashed(fault: Fault)

  /** A body reader: the JSON reader applied to a possibly null body. */
  type Reader<T> = Option<string> -> ParseResult<T>
}
