/**
 * The create-order helper: builds the POST that creates a payment intent,
 * and interprets the processor's answer by its status class alone.
 */
module CreateOrderHelper {
  import opened Options
  import opened Http
  import opened ErrorCodes
  import opened StripeTypes
  import LegacyErrorCodes
  import BigDecimals
  import Numerals
  import Constants

  /** The three pairs of the create-order body, in order. */
  function CreateOrderBody(request: StripeRequest): seq<(string, string)> {
    [ (Constants.Amount, BigDecimals.ToString(request.amount)),
      (Constants.Currency, request.currency),
      (Constants.AutomaticPaymentMethod, "true") ]
  }

  /**
   * prepareHttpRequest: a POST to the configured create-order URL with Basic
   * credentials (API key, empty password) and a form-urlencoded body. The only
   * way it fails is the header encoder refusing the API key.
   */
  function PrepareHttpRequest(props: StripeProperties, request: StripeRequest): (r: Outcome<WireRequest>)
    ensures r.Returned? <==> AcceptsBasicAuth(props.apiKey, "")
    ensures !r.Returned? ==> r == Crashed(IllegalCredentials)
    ensures r.Returned? ==>
      && r.value.httpMethod == Post
      && r.value.url == props.createOrderUrl
      && SplitUserPass(r.value.headers.basicUserPass) == Some((props.apiKey, ""))
      && r.value.headers.contentType == FormUrlEncoded
      && r.value.body == CreateOrderBody(request)
  {
    var userPass := BasicUserPass(props.apiKey, "");
    if userPass.None? then Crashed(IllegalCredentials)
    else Returned(WireRequest(Post, props.createOrderUrl, Headers(userPass.value, FormUrlEncoded), CreateOrderBody(request)))
  }

  /** The keys of a form body, in order. */
  function Keys(body: seq<(string, string)>): (keys: seq<string>)
    ensures |keys| == |body|
    ensures forall i :: 0 <= i < |body| ==> keys[i] == body[i].0
  {
    seq(|body|, i requires 0 <= i < |body| => body[i].0)
  }

  /**
   * The body holds exactly amount, currency and automatic_payment_methods[enabled],
   * each once and in that order; the currency is passed on unchanged and the
   * last value is the literal "true".
   */
  lemma CreateOrderBodyShape(request: StripeRequest)
    ensures Keys(CreateOrderBody(request)) == ["amount", "currency", "automatic_payment_methods[enabled]"]
    ensures var keys := Keys(CreateOrderBody(request));
            forall i, j :: 0 <= i < j < |keys| ==> keys[i] != keys[j]
    ensures CreateOrderBody(request)[1].1 == request.currency
    ensures CreateOrderBody(request)[2].1 == "true"
  {
  }

  /**
   * The amount is sent unrounded: its text reads back as the same unscaled
   * value and the same scale, whether it is written in plain notation or,
   * for a negative scale, with an exponent.
   */
  lemma AmountIsUnrounded(request: StripeRequest)
    ensures BigDecimals.Parse(CreateOrderBody(request)[0].1) == Some(request.amount)
  {
    BigDecimals.RoundTrip(request.amount);
  }

  /** The completeness gate of a created payment intent: id, status and client secret all present. */
  predicate IsCompleteOrder(p: PaymentIntent) {
    p.id.Some? && p.status.Some? && p.clientSecret.Some?
  }

  /** The code of every exception thrown for a 4xx or 5xx: STRIPE_SERVICE_UNAVAILABLE, "1002". */
  const ServiceUnavailable: ErrorCode := Internal(LegacyErrorCodes.LegacyErrorCode.StripeServiceUnavailable.Counterpart())

  /** The exception for a non-error status that did not yield a complete intent. */
  const UnknownOutcome: ProviderException := LegacyEntryException(LegacyErrorCodes.LegacyErrorCode.StripeUnknownError, InternalServerError.Value())

  /**
   * toCreateOrderResponse. A 2xx whose body reads as a complete intent is
   * returned as it is; any other 2xx that reads at all falls through to the
   * unknown-error exception. A 4xx or 5xx throws STRIPE_SERVICE_UNAVAILABLE with
   * the flat `message` of the error body and the response's own status. Any
   * other status throws the unknown-error exception. Reader exceptions, a
   * null error body and a status HttpStatus cannot name escape as faults.
   */
  function ToCreateOrderResponse(response: HttpResponse, readIntent: Reader<PaymentIntent>, readError: Reader<StripeErrorResponse>): (r: Outcome<PaymentIntent>)
    ensures r.Returned? <==>
      Is2xxSuccessful(response.status) && readIntent(response.body).Parsed?
      && readIntent(response.body).value.Some? && IsCompleteOrder(readIntent(response.body).value.value)
    ensures r.Returned? ==> IsCompleteOrder(r.value) && readIntent(response.body) == Parsed(Some(r.value))
    ensures Is2xxSuccessful(response.status) ==>
      (if readIntent(response.body).ParseFailed? then r == Crashed(JsonConversion)
       else r.Returned? || r == Thrown(UnknownOutcome))
    ensures Is4xxClientError(response.status) || Is5xxServerError(response.status) ==>
      match readError(response.body)
      case ParseFailed => r == Crashed(JsonConversion)
      case Parsed(None) => r == Crashed(NullDereference)
      case Parsed(Some(payload)) =>
        r == if IsStandard(response.status)
             then Thrown(ProviderException(ServiceUnavailable, payload.message, response.status))
             else Crashed(IllegalStatus)
    ensures !Is2xxSuccessful(response.status) && !Is4xxClientError(response.status) && !Is5xxServerError(response.status) ==>
      r == Thrown(UnknownOutcome)
  {
    var status := response.status;
    if Is2xxSuccessful(status) && readIntent(response.body).ParseFailed? then
      Crashed(JsonConversion)
    else if Is2xxSuccessful(status) && readIntent(response.body).value.Some?
            && IsCompleteOrder(readIntent(response.body).value.value) then
      Returned(readIntent(response.body).value.value)
    else if Is4xxClientError(status) || Is5xxServerError(status) then
      match readError(response.body)
      case ParseFailed => Crashed(JsonConversion)
      case Parsed(None) => Crashed(NullDereference)
      case Parsed(Some(payload)) =>
        if IsStandard(status)
        then Thrown(ProviderException(ServiceUnavailable, payload.message, status))
        else Crashed(IllegalStatus)
    else
      Thrown(UnknownOutcome)
  }

  /** A 2xx never reaches the error-body reader. */
  lemma SuccessClassIgnoresErrorReader(response: HttpResponse, readIntent: Reader<PaymentIntent>,
                                       readError: Reader<StripeErrorResponse>, otherError: Reader<StripeErrorResponse>)
    requires Is2xxSuccessful(response.status)
    ensures ToCreateOrderResponse(response, readIntent, readError) == ToCreateOrderResponse(response, readIntent, otherError)
  {
  }

  /** A 4xx or 5xx never reaches the intent reader. */
  lemma ErrorClassIgnoresIntentReader(response: HttpResponse, readIntent: Reader<PaymentIntent>,
                                      otherIntent: Reader<PaymentIntent>, readError: Reader<StripeErrorResponse>)
    requires Is4xxClientError(response.status) || Is5xxServerError(response.status)
    ensures ToCreateOrderResponse(response, readIntent, readError) == ToCreateOrderResponse(response, otherIntent, readError)
  {
    StatusClassesDisjoint(response.status);
  }

  /** Any other status decides the outcome alone: neither the body nor the readers matter. */
  lemma OtherClassIgnoresBody(status: StatusCode, body: Option<string>, otherBody: Option<string>,
                              readIntent: Reader<PaymentIntent>, otherIntent: Reader<PaymentIntent>,
                              readError: Reader<StripeErrorResponse>, otherError: Reader<StripeErrorResponse>)
    requires !Is2xxSuccessful(status) && !Is4xxClientError(status) && !Is5xxServerError(status)
    ensures ToCreateOrderResponse(HttpResponse(status, body), readIntent, readError)
         == ToCreateOrderResponse(HttpResponse(status, otherBody), otherIntent, otherError)
         == Thrown(UnknownOutcome)
  {
  }

  /**
   * An incomplete 2xx is never success and never classified as a processor
   * error: it is the unknown-error exception with status 500.
   */
  lemma IncompleteSuccessIsUnknown(response: HttpResponse, readIntent: Reader<PaymentIntent>, readError: Reader<StripeErrorResponse>)
    requires Is2xxSuccessful(response.status)
    requires readIntent(response.body).Parsed?
    requires readIntent(response.body).value.None? || !IsCompleteOrder(readIntent(response.body).value.value)
    ensures ToCreateOrderResponse(response, readIntent, readError) == Thrown(UnknownOutcome)
    ensures UnknownOutcome.errorCode.Rendered() == "1003" && UnknownOutcome.httpStatus == 500
    ensures UnknownOutcome.errorMessage == Some("UNKNOWN STRIPE EXCEPTION")
  {
  }

  /**
   * A 4xx or 5xx with a standard status and a readable body throws code
   * "1002" with the body's flat `message` (null when absent) and the
   * response's status; the nested `error` object is never consulted.
   */
  lemma ErrorClassIgnoresNestedError(response: HttpResponse, readIntent: Reader<PaymentIntent>,
                                     readError: Reader<StripeErrorResponse>, otherError: Reader<StripeErrorResponse>)
    requires Is4xxClientError(response.status) || Is5xxServerError(response.status)
    requires IsStandard(response.status)
    requires readError(response.body).Parsed? && readError(response.body).value.Some?
    requires otherError(response.body).Parsed? && otherError(response.body).value.Some?
    requires readError(response.body).value.value.message == otherError(response.body).value.value.message
    ensures ToCreateOrderResponse(response, readIntent, readError) == ToCreateOrderResponse(response, readIntent, otherError)
    ensures var r := ToCreateOrderResponse(response, readIntent, readError);
      && r.Thrown?
      && r.exception.errorCode.Rendered() == "1002"
      && r.exception.errorMessage == readError(response.body).value.value.message
      && r.exception.httpStatus == response.status
  {
    StatusClassesDisjoint(response.status);
  }

  /** An amount of 100.00 (unscaled 10000, scale 2) goes out as the text "100.00". */
  lemma AmountTextExample()
    ensures CreateOrderBody(StripeRequest(BigDecimals.BigDecimal(10000, 2), "usd"))
         == [("amount", "100.00"), ("currency", "usd"), ("automatic_payment_methods[enabled]", "true")]
  {
    var d := BigDecimals.BigDecimal(10000, 2);
    assert Numerals.Numeral(10000) == "10000";
    assert BigDecimals.Coefficient(d) == "10000";
    assert BigDecimals.IsPlain(d);
    assert BigDecimals.PlainText("10000", 2) == BigDecimals.WithPoint("10000", 3) == "100" + ("." + "00");
    assert BigDecimals.ToString(d) == "100.00";
  }
}
