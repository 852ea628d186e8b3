# Stripe provider shim: request building, response interpretation and error classification

This project models the core of a small service that sits between a payment
platform and the Stripe API. It has four parts:

- **Create order.** The service builds a form-encoded POST that creates a
  payment intent. It then reads the answer as a complete intent, a processor
  error or an unknown outcome.
- **Confirm order.** It builds the POST that confirms an intent. The URL is a
  `String.format` template with the order id put in. The answer is read with a
  looser completeness gate and a different fallback status.
- **Error classification.** A processor error body is turned into a
  `StripeProviderException`. The code comes from the first of three tables that
  decides it: the processor's `code`, then its `type`, then the HTTP status.
- **The error taxonomy.** Eleven fixed entries, each with a code and a default
  message.

Everything is modelled as pure functions over values, because the source is:

- Each helper method reads its configuration, builds a value and returns it, or
  throws.
- The JSON reader is passed in as a function (`Reader<T>`) from the possibly
  null body to "failed" or "read, possibly null".
- A call to a helper ends in one of three ways:
  - `Returned(v)`: it returns normally.
  - `Thrown(e)`: it throws a `StripeProviderException` `e`.
  - `Crashed(f)`: some other exception escapes. This covers the reader's
    `RuntimeException`, a null dereference, `HttpStatus.valueOf` on an unnamed
    value, `String.format` on a malformed template, and `setBasicAuth` refusing
    the API key.

The error classifier never returns normally, so its model returns the exception
it throws.

Some Java library behaviour is modelled as well, because the contracts depend
on it:

- `BigDecimal.toString`, both plain and E-notation. The amount text is proved
  to read back as the same unscaled value and scale in either notation; an
  amount with scale 0, 1 or 2 is proved to be written without an exponent.
- `String.format` with one string argument. A one-`%s` template is proved to be
  filled with the order id verbatim, and injectively.
- Spring's `setBasicAuth`. A user name with a colon or a non-ISO-8859-1
  character is refused. The stored user-pass string is proved to hold the
  colon separator and to split back into the API key and the empty password,
  as section 2 of RFC 7617 reads it.
- `HttpStatus.toString`, which is `"<value> <NAME>"`. Error codes render
  injectively, so a rendered code never confuses a taxonomy entry with an
  HTTP status name.

Three behaviours of the helpers and the classifier are worth stating
outright, because the repository's own tests expect otherwise:

- An incomplete 2xx answer to create-order throws the unknown error with status
  500 (INTERNAL_SERVER_ERROR). The create-order tests at
  `src/test/java/com/rey/Stripe_Provider_Service/helperTest/CreateOrderHelperTest.java:270`
  and `:476` expect 502.
- A 4xx or 5xx answer to either helper throws code 1002
  (STRIPE_SERVICE_UNAVAILABLE) directly, with the body's flat `message`. The
  error classifier is not consulted, although the same test file at `:343-351`
  expects the helper to delegate to it.
- The classifier's status table yields HttpStatus constants such as
  `"400 BAD_REQUEST"` as the error code, not taxonomy entries.

The helpers import the older four-entry taxonomy in
`Constants/ErrorCodeEnum.java`. Its 1003 message is "UNKNOWN STRIPE EXCEPTION".
The classifier imports the eleven-entry one, where 1003 reads "UNKNOWN PROBLEM
WHILE PROCESSING PAYMENT". Both are modelled, and their codes are proved to
coincide.

Files:

- `option.dfy`: the option type.
- `text.dfy`: first-occurrence search.
- `numerals.dfy`: decimal numerals and their values.
- `big_decimal.dfy`: `BigDecimal.toString` and reading it back.
- `java_format.dfy`: `String.format` with one argument.
- `http.dfy`: statuses, status classes, the request descriptor and Basic
  credentials.
- `error_code_enum.dfy`: the main taxonomy.
- `legacy_error_codes.dfy`: the helpers' taxonomy.
- `constants.dfy`: form keys and fixed values.
- `stripe_types.dfy`: payloads, the provider exception and outcomes.
- `stripe_error_handler.dfy`: the classifier.
- `create_order_helper.dfy`: the create-order helper.
- `confirm_order_helper.dfy`: the confirm-order helper.

## Model

| member | source | states |
|---|---|---|
| StripeErrorHandler.HandleStripeError | src/main/java/com/rey/Stripe_Provider_Service/helper/StripeErrorHandler.java:21-64 | an unreadable body gives 1003 with 500; a null body or one without an `error` object gives 1003 with the response's status; otherwise the table code, the processor's message (or the default) and the response's status; the message is never empty and the status is the response's unless the body was unreadable |
| StripeErrorHandler.GetErrorCode | src/main/java/com/rey/Stripe_Provider_Service/helper/StripeErrorHandler.java:66-94 | a non-empty `code` in the code table gives that code's entry; without a non-empty `code`, a `type` in the type table gives that type's entry; the code is an HTTP status name exactly when neither table decides, and then it is the status table's entry for the response status |
| StripeErrorHandler.GetErrorMessage | src/main/java/com/rey/Stripe_Provider_Service/helper/StripeErrorHandler.java:96-104 | the processor's message when present and non-empty, otherwise the unknown-error message; never empty |
| StripeErrorHandler.MapStatusToErrorCode | src/main/java/com/rey/Stripe_Provider_Service/helper/StripeErrorHandler.java:106-118 | 400 to 404 keep their own status; 429 becomes REQUEST_TIMEOUT; 500, 502, 503 and 504 (and only they) become INTERNAL_SERVER_ERROR; exactly the other statuses become BAD_GATEWAY; the result is always a 4xx or 5xx |
| StripeErrorHandler.ErrorObjectKeepsStatus | src/main/java/com/rey/Stripe_Provider_Service/helper/StripeErrorHandler.java:40-52 | whenever the body carries an `error` object the exception has the response's status |
| StripeErrorHandler.CodeTableWins | src/main/java/com/rey/Stripe_Provider_Service/helper/StripeErrorHandler.java:68-76 | a usable code found in the code table decides the result whatever the type and the status |
| StripeErrorHandler.UnknownCodeSkipsType | src/main/java/com/rey/Stripe_Provider_Service/helper/StripeErrorHandler.java:68-90 | a usable code missing from the code table goes to the status table; the type is never consulted |
| StripeErrorHandler.TypeTableDecides | src/main/java/com/rey/Stripe_Provider_Service/helper/StripeErrorHandler.java:78-90 | without a usable code, a type in the type table gives that type's entry whatever the message and the status |
| StripeErrorHandler.MessageIgnoresCodeAndType | src/main/java/com/rey/Stripe_Provider_Service/helper/StripeErrorHandler.java:96-104 | the message depends on the processor's message alone |
| StripeErrorHandler.TableEntries | src/main/java/com/rey/Stripe_Provider_Service/helper/StripeErrorHandler.java:69-89 | a taxonomy entry produced by the tables is one the tables list, never GENERIC_ERROR, STRIPE_SERVICE_UNAVAILABLE, STRIPE_UNKNOWN_ERROR or INVALID_REQUEST_ERROR |
| StripeErrorHandler.CardDeclinedExample | src/main/java/com/rey/Stripe_Provider_Service/helper/StripeErrorHandler.java:80-82 | a 402 card_error with message "Card declined" and no code becomes CARD_ERROR ("1004"), "Card declined", 402 |
| StripeErrorHandler.ResourceMissingExample | src/main/java/com/rey/Stripe_Provider_Service/helper/StripeErrorHandler.java:68-71 | a 404 with code resource_missing and no message becomes RESOURCE_MISSING with the unknown-error message and 404 |
| CreateOrderHelper.PrepareHttpRequest | src/main/java/com/rey/Stripe_Provider_Service/helper/CreateOrderHelper.java:27-51 | succeeds exactly when the header encoder accepts the API key; then a POST to the create-order URL whose credentials split back into (API key, empty password), form-urlencoded, with the three-pair body |
| CreateOrderHelper.CreateOrderBodyShape | src/main/java/com/rey/Stripe_Provider_Service/helper/CreateOrderHelper.java:38-41 | the body's keys are amount, currency, automatic_payment_methods[enabled], in that order and distinct; currency is passed unchanged; the last value is "true" |
| CreateOrderHelper.AmountIsUnrounded | src/main/java/com/rey/Stripe_Provider_Service/helper/CreateOrderHelper.java:39 | the amount text of every amount, plain or in E-notation, reads back as the same unscaled value and scale |
| CreateOrderHelper.AmountTextExample | src/main/java/com/rey/Stripe_Provider_Service/helper/CreateOrderHelper.java:38-41 | an amount of 100.00 in usd gives the body amount=100.00, currency=usd, automatic_payment_methods[enabled]=true |
| CreateOrderHelper.ToCreateOrderResponse | src/main/java/com/rey/Stripe_Provider_Service/helper/CreateOrderHelper.java:53-100 | returns exactly for a 2xx whose body reads as an intent with id, status and client secret, returning it unchanged; an unreadable 2xx body escapes; any other 2xx, and any status outside 2xx/4xx/5xx, throws 1003 with 500; a 4xx or 5xx throws 1002 with the body's flat message and the response's status, and an unreadable or null error body or an unnamed status escapes |
| CreateOrderHelper.SuccessClassIgnoresErrorReader | src/main/java/com/rey/Stripe_Provider_Service/helper/CreateOrderHelper.java:56-73 | the outcome of a 2xx does not depend on the error reader |
| CreateOrderHelper.ErrorClassIgnoresIntentReader | src/main/java/com/rey/Stripe_Provider_Service/helper/CreateOrderHelper.java:75-93 | the outcome of a 4xx or 5xx does not depend on the intent reader |
| CreateOrderHelper.OtherClassIgnoresBody | src/main/java/com/rey/Stripe_Provider_Service/helper/CreateOrderHelper.java:95-99 | for a 1xx, 3xx or 6xx-9xx status the outcome is the unknown-error exception whatever the body and the readers |
| CreateOrderHelper.IncompleteSuccessIsUnknown | src/main/java/com/rey/Stripe_Provider_Service/helper/CreateOrderHelper.java:63-99 | a 2xx with a null or incomplete intent throws code 1003, message "UNKNOWN STRIPE EXCEPTION", status 500 |
| CreateOrderHelper.ErrorClassIgnoresNestedError | src/main/java/com/rey/Stripe_Provider_Service/helper/CreateOrderHelper.java:79-92 | a readable 4xx or 5xx body throws code "1002" with its flat message and the response's status; two bodies with the same flat message give the same outcome, whatever their nested `error` |
| ConfirmOrderHelper.PrepareHttpRequest | src/main/java/com/rey/Stripe_Provider_Service/helper/ConfirmOrderHelper.java:28-55 | a malformed URL template escapes first, then a refused API key; otherwise a POST to the formatted URL whose credentials split back into (API key, empty password), form-urlencoded, with the two-pair body |
| ConfirmOrderHelper.UrlSubstitutesOrderId | src/main/java/com/rey/Stripe_Provider_Service/helper/ConfirmOrderHelper.java:30-33 | under a template with one `%s` and no other directive, the URL is the template with the order id in place of `%s`, verbatim |
| ConfirmOrderHelper.ConfirmUrlExample | src/main/java/com/rey/Stripe_Provider_Service/helper/ConfirmOrderHelper.java:30-33 | the template .../payment_intents/%s/confirm with pi_3T2C4CAb9G6FKXYx gives .../payment_intents/pi_3T2C4CAb9G6FKXYx/confirm |
| ConfirmOrderHelper.DistinctOrdersDistinctUrls | src/main/java/com/rey/Stripe_Provider_Service/helper/ConfirmOrderHelper.java:33 | under such a template distinct order ids give distinct requests |
| ConfirmOrderHelper.ConfirmOrderBodyShape | src/main/java/com/rey/Stripe_Provider_Service/helper/ConfirmOrderHelper.java:44-46 | the body is payment_method=pm_card_visa then return_url with the caller's URL unchanged, two distinct keys |
| ConfirmOrderHelper.ToCreateConfirmOrderResponse | src/main/java/com/rey/Stripe_Provider_Service/helper/ConfirmOrderHelper.java:57-103 | returns exactly for a 2xx whose body reads as an intent with id and status, returning it unchanged; an unreadable 2xx body escapes; any other 2xx, and any status outside 2xx/4xx/5xx, throws 1003 with 502; a 4xx or 5xx throws 1002 with the body's flat message and the response's status, and an unreadable or null error body or an unnamed status escapes |
| ConfirmOrderHelper.SuccessClassIgnoresErrorReader | src/main/java/com/rey/Stripe_Provider_Service/helper/ConfirmOrderHelper.java:60-75 | the outcome of a 2xx does not depend on the error reader |
| ConfirmOrderHelper.ErrorClassIgnoresIntentReader | src/main/java/com/rey/Stripe_Provider_Service/helper/ConfirmOrderHelper.java:78-94 | the outcome of a 4xx or 5xx does not depend on the intent reader |
| ConfirmOrderHelper.ClientSecretNotRequired | src/main/java/com/rey/Stripe_Provider_Service/helper/ConfirmOrderHelper.java:67-72 | every 2xx intent with an id and a status is returned unchanged, whatever its client secret, including none |
| ConfirmOrderHelper.FallbackIsBadGateway | src/main/java/com/rey/Stripe_Provider_Service/helper/ConfirmOrderHelper.java:96-101 | a readable but null or incomplete 2xx intent, or any status outside 2xx/4xx/5xx whatever its body, throws code 1003, message "UNKNOWN STRIPE EXCEPTION", status 502 |
| ConfirmOrderHelper.ErrorClassIgnoresNestedError | src/main/java/com/rey/Stripe_Provider_Service/helper/ConfirmOrderHelper.java:82-93 | a readable 4xx or 5xx body throws code "1002" with its flat message and the response's status; the nested `error` is never consulted |
| ErrorCodes.Ordinal | src/main/java/com/rey/Stripe_Provider_Service/constants/ErrorCodeEnum.java:8-18 | each entry sits at its declaration position among the eleven |
| ErrorCodes.FromCode | src/main/java/com/rey/Stripe_Provider_Service/constants/ErrorCodeEnum.java:8-25 | the inverse of the code: finds an entry carrying the given code, or reports that no entry carries it |
| ErrorCodes.ValuesAreTheEntries | src/main/java/com/rey/Stripe_Provider_Service/constants/ErrorCodeEnum.java:8-18 | there are exactly eleven entries, each listed once |
| ErrorCodes.CodesFollowDeclarationOrder | src/main/java/com/rey/Stripe_Provider_Service/constants/ErrorCodeEnum.java:8-18 | the n-th entry's code is the numeral 1000 + n |
| ErrorCodes.CodeInjective | src/main/java/com/rey/Stripe_Provider_Service/constants/ErrorCodeEnum.java:8-18 | an entry is determined by its code |
| ErrorCodes.FromCodeRoundTrip | src/main/java/com/rey/Stripe_Provider_Service/constants/ErrorCodeEnum.java:8-25 | looking an entry up by its own code finds it |
| ErrorCodes.InvalidRequestEntriesDiffer | src/main/java/com/rey/Stripe_Provider_Service/constants/ErrorCodeEnum.java:9-17 | INVALID_REQUEST and INVALID_REQUEST_ERROR differ in code and in message |
| ErrorCodes.UnknownErrorEntry | src/main/java/com/rey/Stripe_Provider_Service/constants/ErrorCodeEnum.java:11 | the unknown-error entry is 1003 with a non-empty message |
| LegacyErrorCodes.LegacyErrorCode.Counterpart | src/main/java/com/rey/Stripe_Provider_Service/Constants/ErrorCodeEnum.java:8-11 | each of the four older entries names one of the first four main entries |
| LegacyErrorCodes.CodesAgree | src/main/java/com/rey/Stripe_Provider_Service/Constants/ErrorCodeEnum.java:8-11 | each older entry has the code of its namesake |
| LegacyErrorCodes.MessagesAgreeExceptUnknown | src/main/java/com/rey/Stripe_Provider_Service/Constants/ErrorCodeEnum.java:8-11 | messages agree with the namesake's exactly except for the unknown error |
| LegacyErrorCodes.CounterpartOnto | src/main/java/com/rey/Stripe_Provider_Service/Constants/ErrorCodeEnum.java:8-11 | each of the first four main entries has an older namesake |
| StripeTypes.LegacyEntryException | src/main/java/com/rey/Stripe_Provider_Service/helper/CreateOrderHelper.java:95-99 | an exception built from an older entry renders that entry's code and carries its message and the given status |
| StripeTypes.ErrorCode.Rendered | src/main/java/com/rey/Stripe_Provider_Service/helper/StripeErrorHandler.java:69-93 | `String.valueOf` of an error code: four characters exactly for a taxonomy entry; a status name renders longer, with a space after its three digits |
| StripeTypes.RenderedInjective | src/main/java/com/rey/Stripe_Provider_Service/helper/StripeErrorHandler.java:69-93 | distinct error codes (taxonomy entries or status names) render to distinct texts |
| StripeTypes.InternalIsNotStatus | src/main/java/com/rey/Stripe_Provider_Service/helper/StripeErrorHandler.java:69-93 | no taxonomy code renders like an HTTP status name |
| Http.BasicUserPass | src/main/java/com/rey/Stripe_Provider_Service/helper/CreateOrderHelper.java:35 | succeeds exactly when the user name has no colon and both parts are ISO-8859-1; the result holds the colon separator and splits back at it into the user name and password |
| Http.SplitNeedsColon | src/main/java/com/rey/Stripe_Provider_Service/helper/CreateOrderHelper.java:35 | a user-pass string is read back exactly when it holds a colon, so a string without the separator is never taken for credentials |
| Http.NamedStatusValueInjective | src/main/java/com/rey/Stripe_Provider_Service/helper/StripeErrorHandler.java:106-118 | the HttpStatus constants the model names have distinct values |
| Http.NamedStatus.Text | src/main/java/com/rey/Stripe_Provider_Service/helper/StripeErrorHandler.java:93 | `HttpStatus.toString`: the text starts with the three-digit numeral of the value, then a space, and is longer than four characters |
| Http.NamedStatusTextInjective | src/main/java/com/rey/Stripe_Provider_Service/helper/StripeErrorHandler.java:93 | distinct status names render differently |
| Http.StatusClass | src/main/java/com/rey/Stripe_Provider_Service/helper/CreateOrderHelper.java:56-76 | the class of a status is the digit c with 100c <= status < 100(c+1) |
| Http.StatusClassesDisjoint | src/main/java/com/rey/Stripe_Provider_Service/helper/CreateOrderHelper.java:56-76 | a status is in at most one of the classes 2xx, 4xx and 5xx |
| Http.StatusClassRanges | src/main/java/com/rey/Stripe_Provider_Service/helper/ConfirmOrderHelper.java:60-79 | 2xx, 4xx and 5xx are the ranges 200-299, 400-499 and 500-599 |
| JavaFormat.Format | src/main/java/com/rey/Stripe_Provider_Service/helper/ConfirmOrderHelper.java:33 | `String.format` with one argument: a template without `%` comes back unchanged |
| JavaFormat.NoDirective | src/main/java/com/rey/Stripe_Provider_Service/helper/ConfirmOrderHelper.java:33 | a template without `%` is copied unchanged and the order id is ignored |
| JavaFormat.SingleHole | src/main/java/com/rey/Stripe_Provider_Service/helper/ConfirmOrderHelper.java:33 | a template with one `%s` is filled with the argument verbatim |
| JavaFormat.SingleHoleInjective | src/main/java/com/rey/Stripe_Provider_Service/helper/ConfirmOrderHelper.java:33 | under a one-`%s` template distinct arguments give distinct results |
| JavaFormat.SecondHoleIsIllegal | src/main/java/com/rey/Stripe_Provider_Service/helper/ConfirmOrderHelper.java:33 | a template with two `%s` has no argument for the second and is an illegal format |
| BigDecimals.ToString | src/main/java/com/rey/Stripe_Provider_Service/helper/CreateOrderHelper.java:39 | `String.valueOf` of the amount: a non-empty text that starts with a minus sign exactly for a negative value |
| BigDecimals.PlainTextReads | src/main/java/com/rey/Stripe_Provider_Service/helper/CreateOrderHelper.java:39 | any digit string placed around a point at any scale reads back as its value and that scale |
| BigDecimals.ExponentReads | src/main/java/com/rey/Stripe_Provider_Service/helper/CreateOrderHelper.java:39 | a non-zero exponent is written `E+` or `E-` with its digits and reads back as itself |
| BigDecimals.WithExponentReads | src/main/java/com/rey/Stripe_Provider_Service/helper/CreateOrderHelper.java:39 | plain digits followed by an exponent read back as the digits' value and the scale less the exponent |
| BigDecimals.UnsignedRoundTrip | src/main/java/com/rey/Stripe_Provider_Service/helper/CreateOrderHelper.java:39 | the unsigned text of any decimal starts with a digit and reads back as its magnitude and scale |
| BigDecimals.RoundTrip | src/main/java/com/rey/Stripe_Provider_Service/helper/CreateOrderHelper.java:39 | the text of every decimal, plain or in E-notation, reads back as the same unscaled value and scale |
| BigDecimals.FractionDigitsAreScale | src/main/java/com/rey/Stripe_Provider_Service/helper/CreateOrderHelper.java:39 | in plain notation with a positive scale, the text has a point and exactly `scale` characters follow it |
| BigDecimals.CurrencyAmountIsPlain | src/main/java/com/rey/Stripe_Provider_Service/dto/StripeRequestDto.java:13-16 | a positive amount whose scale is 0, 1 or 2 is written in plain notation, with no exponent |
| BigDecimals.NegativeScaleIsScientific | src/main/java/com/rey/Stripe_Provider_Service/dto/StripeRequestDto.java:13-16 | a negative scale, which the amount's validation does not exclude, is written with an exponent: one hundred at scale -2 is `1E+2` |

## Left out

- Logging is left out. Every `log.*` call only writes text.
- The base64 step of the Authorization header is left out. Headers keep the
  RFC 7617 user-pass string that Spring then encodes.
- The transport (`HttpServiceEngine`, RestClient) is not part of this model.
  This includes its rule that a 503 or 504 answer never reaches a helper: the
  transport throws instead, with "STRIPE SERVICE UNAVAILABLE" as both code and
  message and status 503. The helpers take the response as a value.
- Jackson is not part of this model. Each reader is a parameter that may fail
  or yield null, and its field mapping is taken as given.
- A reader failure becomes the escaping fault `JsonConversion`. The
  `RuntimeException` wrapping is not modelled.
- The controller, the service layer, the global exception handler and
  configuration loading are not part of this model. The properties are a
  value.
- Bean Validation on the request DTOs is not modelled. The amount and currency
  are taken as given, non-null. The amount text is proved to read back for
  every value, so nothing depends on which amounts validation lets through.
- The model gives `StripeProperties` a confirm-order URL, which
  ConfirmOrderHelper.java:30 reads. `config/StripeProperties.java:11-12`
  declares only the API key and the create-order URL.
- The confirm-order response DTO (`dto.StripeConfirmOrderResponse`, imported
  at ConfirmOrderHelper.java:6) is not modelled; it is taken to have the
  create-order DTO's id, status and client-secret shape.
- `dto/StripeErrorResponse.java` declares only the nested `error`. The helpers
  read a flat top-level `message`, so the modelled error body has that optional
  field too. The classifier never reads it.
- The helpers use `Constant.PAYMENT_METHOD`, `PM_VISA_CARD` and `RETURN_URL`
  from a package whose `Constant` class lacks them. The values come from
  `constants/Constant.java`.
- JavaFormat.Format: only `%s`, `%%` and `%n` are recognised. Every other
  conversion, including flags, widths and indexed arguments, is treated as an
  illegal format. `%n` is taken as a Unix line break.
- BigDecimals.Parse reads only the forms `toString` writes (an upper-case `E`
  with an explicit sign); the other spellings `new BigDecimal(String)` accepts
  are not modelled.
- Http.StatusCode: a status outside 100-999 is not modelled. Spring refuses to
  build such a status code.
- StripeErrorHandler.HandleStripeError requires a status that `HttpStatus.valueOf`
  names. For any other status the source throws before its try block, and the
  model does not cover that case.
- The helpers do call `HttpStatus.valueOf` on an unnamed 4xx or 5xx, and the
  model gives `Crashed(IllegalStatus)` there.
- The processor's own HTTP semantics are not modelled: which statuses it sends,
  and which bodies go with them.
