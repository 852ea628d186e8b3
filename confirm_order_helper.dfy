/**
 * The confirm-order helper: builds the POST that confirms a payment intent,
 * whose URL is the configured template with the order id put in, and
 * interprets the processor's answer by its status class alone.
 */
module ConfirmOrderHelper {
  import opened Options
  import opened Http
  import opened ErrorCodes
  import opened StripeTypes
  import LegacyErrorCodes
  import JavaFormat
  import Constants

  /** The two pairs of the confirm-order body, in order. */
  function ConfirmOrderBody(request: ConfirmOrderRequest): seq<(string, string)> {
    [ (Constants.PaymentMethod, Constants.PmVisaCard),
      (Constants.ReturnUrl, request.returnUrl) ]
  }

  /**
   * prepareHttpRequest: the URL is `String.format(confirmOrderUrl, orderId)`;
   * then a POST with Basic credentials (API key, empty password) and a
   * form-urlencoded body. A malformed template fails first, then a refused
   * API key.
   */
  function PrepareHttpRequest(props: StripeProperties, orderId: string, request: ConfirmOrderRequest): (r: Outcome<WireRequest>)
    ensures JavaFormat.Format(props.confirmOrderUrl, orderId).IllegalFormat? ==> r == Crashed(IllegalFormat)
    ensures JavaFormat.Format(props.confirmOrderUrl, orderId).Formatted? && !AcceptsBasicAuth(props.apiKey, "") ==>
      r == Crashed(IllegalCredentials)
    ensures r.Returned? <==> JavaFormat.Format(props.confirmOrderUrl, orderId).Formatted? && AcceptsBasicAuth(props.apiKey, "")
    ensures r.Returned? ==>
      && r.value.httpMethod == Post
      && r.value.url == JavaFormat.Format(props.confirmOrderUrl, orderId).text
      && SplitUserPass(r.value.headers.basicUserPass) == Some((props.apiKey, ""))
      && r.value.headers.contentType == FormUrlEncoded
      && r.value.body == ConfirmOrderBody(request)
  {
    var url := JavaFormat.Format(props.confirmOrderUrl, orderId);
    if url.IllegalFormat? then Crashed(IllegalFormat)
    else
      var userPass := BasicUserPass(props.apiKey, "");
      if userPass.None? then Crashed(IllegalCredentials)
      else Returned(WireRequest(Post, url.text, Headers(userPass.value, FormUrlEncoded), ConfirmOrderBody(request)))
  }

  /**
   * With a template holding one `%s` and no other directive, the URL is the
   * template with the order id in place of the `%s`, verbatim.
   */
  lemma UrlSubstitutesOrderId(props: StripeProperties, prefix: string, suffix: string, orderId: string, request: ConfirmOrderRequest)
    requires props.confirmOrderUrl == prefix + "%s" + suffix
    requires '%' !in prefix && '%' !in suffix
    requires AcceptsBasicAuth(props.apiKey, "")
    ensures PrepareHttpRequest(props, orderId, request).Returned?
    ensures PrepareHttpRequest(props, orderId, request).value.url == prefix + orderId + suffix
  {
    JavaFormat.SingleHole(prefix, suffix, orderId);
  }

  /** The processor's confirm endpoint with a concrete payment-intent id. */
  lemma ConfirmUrlExample(props: StripeProperties, request: ConfirmOrderRequest)
    requires props.confirmOrderUrl == "https://api.stripe.com/v1/payment_intents/%s/confirm"
    requires AcceptsBasicAuth(props.apiKey, "")
    ensures PrepareHttpRequest(props, "pi_3T2C4CAb9G6FKXYx", request).Returned?
    ensures PrepareHttpRequest(props, "pi_3T2C4CAb9G6FKXYx", request).value.url
         == "https://api.stripe.com/v1/payment_intents/pi_3T2C4CAb9G6FKXYx/confirm"
  {
    var prefix, suffix := "https://api.stripe.com/v1/payment_intents/", "/confirm";
    TemplateSplits(prefix, suffix);
    PartsHaveNoDirective(prefix, suffix);
    FilledTemplate(prefix, suffix, "pi_3T2C4CAb9G6FKXYx");
    UrlSubstitutesOrderId(props, prefix, suffix, "pi_3T2C4CAb9G6FKXYx", request);
  }

  // The three literal facts below are kept as separate lemmas rather than
  // asserts inside ConfirmUrlExample: proved together in one context, the
  // string-literal reasoning costs the solver several times their sum.

  lemma TemplateSplits(prefix: string, suffix: string)
    requires prefix == "https://api.stripe.com/v1/payment_intents/" && suffix == "/confirm"
    ensures "https://api.stripe.com/v1/payment_intents/%s/confirm" == prefix + "%s" + suffix
  {
  }

  lemma PartsHaveNoDirective(prefix: string, suffix: string)
    requires prefix == "https://api.stripe.com/v1/payment_intents/" && suffix == "/confirm"
    ensures '%' !in prefix && '%' !in suffix
  {
  }

  lemma FilledTemplate(prefix: string, suffix: string, id: string)
    requires prefix == "https://api.stripe.com/v1/payment_intents/" && suffix == "/confirm"
    requires id == "pi_3T2C4CAb9G6FKXYx"
    ensures prefix + id + suffix == "https://api.stripe.com/v1/payment_intents/pi_3T2C4CAb9G6FKXYx/confirm"
  {
  }

  /** Different order ids give different URLs under such a template. */
  lemma DistinctOrdersDistinctUrls(props: StripeProperties, prefix: string, suffix: string,
                                   a: string, b: string, request: ConfirmOrderRequest)
    requires props.confirmOrderUrl == prefix + "%s" + suffix
    requires '%' !in prefix && '%' !in suffix
    requires AcceptsBasicAuth(props.apiKey, "")
    requires a != b
    ensures PrepareHttpRequest(props, a, request) != PrepareHttpRequest(props, b, request)
  {
    UrlSubstitutesOrderId(props, prefix, suffix, a, request);
    UrlSubstitutesOrderId(props, prefix, suffix, b, request);
    if PrepareHttpRequest(props, a, request) == PrepareHttpRequest(props, b, request) {
      JavaFormat.SingleHoleInjective(prefix, suffix, a, b);
    }
  }

  /** The body is payment_method = pm_card_visa, then return_url unchanged, each key once. */
  lemma ConfirmOrderBodyShape(request: ConfirmOrderRequest)
    ensures ConfirmOrderBody(request) == [("payment_method", "pm_card_visa"), ("return_url", request.returnUrl)]
    ensures ConfirmOrderBody(request)[0].0 != ConfirmOrderBody(request)[1].0
  {
  }

  /** The completeness gate of a confirmed payment intent: id and status present; the client secret is not needed. */
  predicate IsCompleteConfirmation(p: PaymentIntent) {
    p.id.Some? && p.status.Some?
  }

  /** The code of every exception thrown for a 4xx or 5xx: STRIPE_SERVICE_UNAVAILABLE, "1002". */
  const ServiceUnavailable: ErrorCode := Internal(LegacyErrorCodes.LegacyErrorCode.StripeServiceUnavailable.Counterpart())

  /** The exception for a non-error status that did not yield a complete intent. */
  const UnknownOutcome: ProviderException := LegacyEntryException(LegacyErrorCodes.LegacyErrorCode.StripeUnknownError, BadGateway.Value())

  /**
   * toCreateConfirmOrderResponse. A 2xx whose body reads as an intent with id
   * and status is returned as it is; any other 2xx that reads at all falls
   * through to the unknown-error exception with status 502. A 4xx or 5xx
   * throws STRIPE_SERVICE_UNAVAILABLE with the flat `message` of the error
   * body and the response's own status. Any other status throws the
   * unknown-error exception with status 502.
   */
  function ToCreateConfirmOrderResponse(response: HttpResponse, readIntent: Reader<PaymentIntent>, readError: Reader<StripeErrorResponse>): (r: Outcome<PaymentIntent>)
    ensures r.Returned? <==>
      Is2xxSuccessful(response.status) && readIntent(response.body).Parsed?
      && readIntent(response.body).value.Some? && IsCompleteConfirmation(readIntent(response.body).value.value)
    ensures r.Returned? ==> IsCompleteConfirmation(r.value) && readIntent(response.body) == Parsed(Some(r.value))
    ensures Is2xxSuccessful(response.status) ==>
      (if readIntent(response.body).ParseFailed? then r == Crashed(JsonConversion)
       else r.Returned? || r == Thrown(UnknownOutcome))
    ensures Is4xxClientError(response.status) || Is5xxServerError(response.status) ==>
      match readError(response.body)
      case ParseFailed => r == Crashed(JsonConversion)
      case Parsed(None) => r == Crashed(NullDereference)
      case Parsed(Some(payload)) =>
        r == if IsStandard(response.status)
             then Thrown(ProviderException(ServiceUnavailable, payload.message, response.status))
             else Crashed(IllegalStatus)
    ensures !Is2xxSuccessful(response.status) && !Is4xxClientError(response.status) && !Is5xxServerError(response.status) ==>
      r == Thrown(UnknownOutcome)
  {
    var status := response.status;
    if Is2xxSuccessful(status) && readIntent(response.body).ParseFailed? then
      Crashed(JsonConversion)
    else if Is2xxSuccessful(status) && readIntent(response.body).value.Some?
            && IsCompleteConfirmation(readIntent(response.body).value.value) then
      Returned(readIntent(response.body).value.value)
    else if Is4xxClientError(status) || Is5xxServerError(status) then
      match readError(response.body)
      case ParseFailed => Crashed(JsonConversion)
      case Parsed(None) => Crashed(NullDereference)
      case Parsed(Some(payload)) =>
        if IsStandard(status)
        then Thrown(ProviderException(ServiceUnavailable, payload.message, status))
        else Crashed(IllegalStatus)
    else
      Thrown(UnknownOutcome)
  }

  /** A 2xx never reaches the error-body reader. */
  lemma SuccessClassIgnoresErrorReader(response: HttpResponse, readIntent: Reader<PaymentIntent>,
                                       readError: Reader<StripeErrorResponse>, otherError: Reader<StripeErrorResponse>)
    requires Is2xxSuccessful(response.status)
    ensures ToCreateConfirmOrderResponse(response, readIntent, readError)
         == ToCreateConfirmOrderResponse(response, readIntent, otherError)
  {
  }

  /** A 4xx or 5xx never reaches the intent reader. */
  lemma ErrorClassIgnoresIntentReader(response: HttpResponse, readIntent: Reader<PaymentIntent>,
                                      otherIntent: Reader<PaymentIntent>, readError: Reader<StripeErrorResponse>)
    requires Is4xxClientError(response.status) || Is5xxServerError(response.status)
    ensures ToCreateConfirmOrderResponse(response, readIntent, readError)
         == ToCreateConfirmOrderResponse(response, otherIntent, readError)
  {
    StatusClassesDisjoint(response.status);
  }

  /** An intent with id and status is accepted whatever its client secret, and returned untouched. */
  lemma ClientSecretNotRequired(response: HttpResponse, readIntent: Reader<PaymentIntent>, readError: Reader<StripeErrorResponse>)
    requires Is2xxSuccessful(response.status)
    requires readIntent(response.body).Parsed? && readIntent(response.body).value.Some?
    requires readIntent(response.body).value.value.id.Some? && readIntent(response.body).value.value.status.Some?
    ensures ToCreateConfirmOrderResponse(response, readIntent, readError) == Returned(readIntent(response.body).value.value)
  {
  }

  /**
   * An incomplete 2xx, a 1xx and a 3xx all end in the unknown-error
   * exception with status 502 (BAD_GATEWAY).
   */
  lemma FallbackIsBadGateway(response: HttpResponse, readIntent: Reader<PaymentIntent>, readError: Reader<StripeErrorResponse>)
    requires !Is4xxClientError(response.status) && !Is5xxServerError(response.status)
    requires Is2xxSuccessful(response.status) ==>
      readIntent(response.body).Parsed?
      && (readIntent(response.body).value.None? || !IsCompleteConfirmation(readIntent(response.body).value.value))
    ensures ToCreateConfirmOrderResponse(response, readIntent, readError) == Thrown(UnknownOutcome)
    ensures UnknownOutcome.errorCode.Rendered() == "1003" && UnknownOutcome.httpStatus == 502
    ensures UnknownOutcome.errorMessage == Some("UNKNOWN STRIPE EXCEPTION")
  {
  }

  /**
   * A 4xx or 5xx with a standard status and a readable body throws code
   * "1002" with the body's flat `message` (null when absent) and the
   * response's status; the nested `error` object is never consulted.
   */
  lemma ErrorClassIgnoresNestedError(response: HttpResponse, readIntent: Reader<PaymentIntent>,
                                     readError: Reader<StripeErrorResponse>, otherError: Reader<StripeErrorResponse>)
    requires Is4xxClientError(response.status) || Is5xxServerError(response.status)
    requires IsStandard(response.status)
    requires readError(response.body).Parsed? && readError(response.body).value.Some?
    requires otherError(response.body).Parsed? && otherError(response.body).value.Some?
    requires readError(response.body).value.value.message == otherError(response.body).value.value.message
    ensures ToCreateConfirmOrderResponse(response, readIntent, readError) == ToCreateConfirmOrderResponse(response, readIntent, otherError)
    ensures var r := ToCreateConfirmOrderResponse(response, readIntent, readError);
      && r.Thrown?
      && r.exception.errorCode.Rendered() == "1002"
      && r.exception.errorMessage == readError(response.body).value.value.message
      && r.exception.httpStatus == response.status
  {
    StatusClassesDisjoint(response.status);
  }
}
