/**
 * The older four-entry error taxonomy that the two order helpers import.
 * Its codes coincide with the first four entries of the main taxonomy; its
 * unknown-error message does not.
 */
module LegacyErrorCodes {
  import ErrorCodes

  datatype LegacyErrorCode =
    | GenericError
    | InvalidRequest
    | StripeServiceUnavailable
    | StripeUnknownError
  {
    /** The entry's external code. */
    function Code(): string {
      match this
      case GenericError => "1000"
      case InvalidRequest => "1001"
      case StripeServiceUnavailable => "1002"
      case StripeUnknownError => "1003"
    }

    /** The entry's default message. */
    function Message(): string {
      match this
      case GenericError => "Ooops, Something Went Wrong!!!"
      case InvalidRequest => "INVALID REQUEST"
      case StripeServiceUnavailable => "STRIPE SERVICE UNAVAILABLE"
      case StripeUnknownError => "UNKNOWN STRIPE EXCEPTION"
    }

    /** The main-taxonomy entry of the same name. */
    function Counterpart(): (e: ErrorCodes.ErrorCodeEnum)
      ensures ErrorCodes.Ordinal(e) < 4
    {
      match this
      case GenericError => ErrorCodes.GenericError
      case InvalidRequest => ErrorCodes.InvalidRequest
      case StripeServiceUnavailable => ErrorCodes.StripeServiceUnavailable
      case StripeUnknownError => ErrorCodes.StripeUnknownError
    }
  }

  /**
   * Each entry carries the same code as its namesake in the main taxonomy, so
   * an exception's code text does not depend on which taxonomy made it.
   */
  lemma CodesAgree(e: LegacyErrorCode)
    ensures e.Code() == e.Counterpart().Code()
  {
  }

  /** The messages agree for every entry except the unknown error. */
  lemma MessagesAgreeExceptUnknown(e: LegacyErrorCode)
    ensures e.Message() == e.Counterpart().Message() <==> e != StripeUnknownError
  {
  }

  /** Every main-taxonomy entry among the first four has a namesake here. */
  lemma CounterpartOnto(f: ErrorCodes.ErrorCodeEnum)
    requires ErrorCodes.Ordinal(f) < 4
    ensures exists e: LegacyErrorCode :: e.Counterpart() == f
  {
    match f
    case GenericError => assert GenericError.Counterpart() == f;
    case InvalidRequest => assert InvalidRequest.Counterpart() == f;
    case StripeServiceUnavailable => assert StripeServiceUnavailable.Counterpart() == f;
    case StripeUnknownError => assert StripeUnknownError.Counterpart() == f;
    case _ => assert false;
  }
}
