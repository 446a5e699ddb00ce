/**
 * The error values the core passes around: the context sentinels, the two
 * error types of the repository (errCode.ErrCode and *statusError.StatusError),
 * the errors gRPC's status package produces, and errors that wrap others.
 * The operations on them live in ErrCodes, StatusErrors, StatusCodes and
 * GrpcStatus.
 */
module GoErrors {
  import opened Wrappers
  import opened Strconv

  /** An opaque detail payload (an anypb.Any, or an interface{} value). */
  type Detail = string

  /** Go's int32(x): the value wrapped into the 32-bit two's-complement range. */
  function ToInt32(x: int): (r: int)
    ensures MinInt32 <= r <= MaxInt32
    ensures (r - x) % 0x1_0000_0000 == 0
  {
    (x - MinInt32) % 0x1_0000_0000 + MinInt32
  }

  /** A value already in range is unchanged by the conversion. */
  lemma ToInt32InRange(x: int)
    requires MinInt32 <= x <= MaxInt32
    ensures ToInt32(x) == x
  {
  }

  /**
   * The google.rpc Status an ErrCode points to.  Code and message are set
   * by errCode.New and never change; WithDetails appends to the details.
   */
  class RpcStatus {
    const code: int
    const message: string
    var details: seq<Detail>

    constructor (code: int, message: string)
      ensures this.code == code && this.message == message && details == []
    {
      this.code := code;
      this.message := message;
      details := [];
    }
  }

  /** errCode.ErrCode: a value holding a pointer, so copies share one status; the zero value holds nil. */
  datatype ErrCode = ErrCode(s: RpcStatus?)

  /** statusError.StatusError; code and reason are fixed, WithDetails appends to the details. */
  class StatusError {
    const code: int
    const reason: string
    var details: seq<Detail>

    constructor (code: int, reason: string, details: seq<Detail>)
      ensures this.code == code && this.reason == reason && this.details == details
    {
      this.code := code;
      this.reason := reason;
      this.details := details;
    }
  }

  /** A non-nil Go error value. */
  datatype Error =
    | DeadlineExceeded              // context.DeadlineExceeded
    | Canceled                      // context.Canceled
    | Code(ec: ErrCode)             // an errCode.ErrCode value
    | Status(se: StatusError?)      // a *statusError.StatusError, possibly a typed nil
    | Grpc(code: int, message: string)  // an error from grpc's status.Err()
    | Wrapped(msg: string, inner: Error)  // an error whose Unwrap yields `inner`
    | Other(msg: string)

  /** errors.As(err, &se) for se of type *StatusError: the first StatusError along the Unwrap chain. */
  function AsStatusError(err: Error): Option<StatusError?>
  {
    match err
    case Status(se) => Some(se)
    case Wrapped(_, inner) => AsStatusError(inner)
    case _ => None
  }
}
