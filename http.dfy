/**
 * The HTTP vocabulary the helpers work in: status codes and their classes
 * (section 15 of RFC 9110), the response handed over by the transport, the
 * outcome of reading its JSON body, and the outgoing request descriptor with
 * its HTTP Basic credentials (section 2 of RFC 7617).
 */
module Http {
  import opened Options
  import opened Text
  import Numerals

  /** The value of a Spring HttpStatusCode, which accepts three-digit codes only. */
  type StatusCode = s: int | 100 <= s <= 999 witness 200

  /** The class of a status is its first digit. */
  function StatusClass(s: StatusCode): (c: int)
    ensures 1 <= c <= 9
    ensures 100 * c <= s < 100 * (c + 1)
  {
    s / 100
  }

  predicate Is2xxSuccessful(s: StatusCode) {
    StatusClass(s) == 2
  }

  predicate Is4xxClientError(s: StatusCode) {
    StatusClass(s) == 4
  }

  predicate Is5xxServerError(s: StatusCode) {
    StatusClass(s) == 5
  }

  /** The values `HttpStatus.valueOf` resolves: the constants of Spring's HttpStatus enumeration. */
  const StandardStatuses: set<int> := {
    100, 101, 102, 103,
    200, 201, 202, 203, 204, 205, 206, 207, 208, 226,
    300, 301, 302, 303, 304, 305, 307, 308,
    400, 401, 402, 403, 404, 405, 406, 407, 408, 409, 410, 411, 412, 413, 414, 415, 416, 417, 418,
    419, 420, 421, 422, 423, 424, 425, 426, 428, 429, 431, 451,
    500, 501, 502, 503, 504, 505, 506, 507, 508, 509, 510, 511
  }

  predicate IsStandard(s: int) {
    s in StandardStatuses
  }

  /**
   * The HttpStatus constants this model names: the eight that the error
   * classifier's status table and the helpers' fallbacks produce.
   */
  datatype NamedStatus =
    | BadRequest
    | Unauthorized
    | PaymentRequired
    | Forbidden
    | NotFound
    | RequestTimeout
    | InternalServerError
    | BadGateway
  {
    function Value(): (s: StatusCode)
      ensures IsStandard(s)
    {
      match this
      case BadRequest => 400
      case Unauthorized => 401
      case PaymentRequired => 402
      case Forbidden => 403
      case NotFound => 404
      case RequestTimeout => 408
      case InternalServerError => 500
      case BadGateway => 502
    }

    function Name(): (r: string)
      ensures |r| > 0
    {
      match this
      case BadRequest => "BAD_REQUEST"
      case Unauthorized => "UNAUTHORIZED"
      case PaymentRequired => "PAYMENT_REQUIRED"
      case Forbidden => "FORBIDDEN"
      case NotFound => "NOT_FOUND"
      case RequestTimeout => "REQUEST_TIMEOUT"
      case InternalServerError => "INTERNAL_SERVER_ERROR"
      case BadGateway => "BAD_GATEWAY"
    }

    /** `HttpStatus.toString()`: the value, a space, the constant's name. */
    function Text(): (t: string)
      ensures |t| > 4 && t[3] == ' '
      ensures t[..3] == Numerals.Numeral(Value())
    {
      Numerals.ThreeDigitNumeral(Value());
      HeadBeforeSpace(Numerals.Numeral(Value()), Name());
      Numerals.Numeral(Value()) + " " + Name()
    }
  }

  /** Distinct named statuses have distinct values. */
  lemma NamedStatusValueInjective(a: NamedStatus, b: NamedStatus)
    requires a.Value() == b.Value()
    ensures a == b
  {
  }

  /** Rendered texts of distinct named statuses differ. */
  lemma NamedStatusTextInjective(a: NamedStatus, b: NamedStatus)
    requires a.Text() == b.Text()
    ensures a == b
  {
    Numerals.NumeralInjective(a.Value(), b.Value());
    NamedStatusValueInjective(a, b);
  }

  /** A response as the transport returns it: a status and a body that may be null. */
  datatype HttpResponse = HttpResponse(status: StatusCode, body: Option<string>)

  /**
   * What reading a body as JSON gives: the reader failed (it throws), or it
   * produced an object, which is null for a body holding the literal `null`.
   */
  datatype ParseResult<+T> = ParseFailed | Parsed(value: Option<T>)

  datatype HttpMethod = Post

  const FormUrlEncoded: string := "application/x-www-form-urlencoded"

  /**
   * The two headers the helpers set. `basicUserPass` is the `user-pass`
   * string of RFC 7617 (user-id, a colon, the password) that the
   * Authorization header carries in base64 after the word "Basic".
   */
  datatype Headers = Headers(basicUserPass: string, contentType: string)

  /** The outgoing POST descriptor: method, resolved URL, headers and ordered form body. */
  datatype WireRequest = WireRequest(httpMethod: HttpMethod, url: string, headers: Headers, body: seq<(string, string)>)

  /**
   * What `HttpHeaders.encodeBasicAuth` accepts as a user name or password:
   * a user name has no colon, and both are ISO-8859-1 text.
   */
  predicate IsLatin1(s: string) {
    forall i :: 0 <= i < |s| ==> s[i] as int <= 0xFF
  }

  predicate AcceptsBasicAuth(username: string, password: string) {
    ':' !in username && IsLatin1(username) && IsLatin1(password)
  }

  /**
   * `HttpHeaders.setBasicAuth(username, password)`: the user-pass string, or
   * None where Spring throws IllegalArgumentException.
   */
  function BasicUserPass(username: string, password: string): (r: Option<string>)
    ensures r.Some? <==> AcceptsBasicAuth(username, password)
    ensures r.Some? ==> SplitUserPass(r.value) == Some((username, password))
  {
    if AcceptsBasicAuth(username, password) then
      var userPass := username + ":" + password;
      assert userPass == username + (":" + password);
      IndexOfAfterPrefix(username, ":" + password, ':');
      assert userPass[|username| + 1..] == password;
      Some(userPass)
    else
      None
  }

  /**
   * How a server reads a user-pass string (section 2 of RFC 7617): the user-id
   * ends at the first colon and the password is the rest; a string without a
   * colon is not a user-pass string.
   */
  function SplitUserPass(userPass: string): Option<(string, string)> {
    var colon := IndexOf(userPass, ':');
    if colon < |userPass| then Some((userPass[..colon], userPass[colon + 1..])) else None
  }

  /** A string without the separator is rejected, so an accepted one always had a colon. */
  lemma SplitNeedsColon(userPass: string)
    ensures SplitUserPass(userPass).Some? <==> ':' in userPass
  {
    if ':' !in userPass {
      Text.NotFound(userPass, ':');
    } else {
      IndexOfIsFirst(userPass, ':');
    }
  }

  /** The three status classes a helper branches on are pairwise disjoint. */
  lemma StatusClassesDisjoint(s: StatusCode)
    ensures !(Is2xxSuccessful(s) && (Is4xxClientError(s) || Is5xxServerError(s)))
    ensures !(Is4xxClientError(s) && Is5xxServerError(s))
  {
  }

  /** A class is decided by the range a status falls in. */
  lemma StatusClassRanges(s: StatusCode)
    ensures Is2xxSuccessful(s) <==> 200 <= s <= 299
    ensures Is4xxClientError(s) <==> 400 <= s <= 499
    ensures Is5xxServerError(s) <==> 500 <= s <= 599
  {
  }
}
