/**
 * errCode.ErrCode (pkg/errCode/errCode.go): an error carrying a numeric code
 * and a message.  Codes below 1000 are the built-in ones and compare by
 * code alone; from 1000 on (business errors) the messages must match too.
 */
module ErrCodes {
  import opened Wrappers
  import GoErrors

  type ErrCode = GoErrors.ErrCode

  const OKCode := 200
  const BadRequestCode := 400
  const UnauthorizedCode := 401
  const ForbiddenCode := 403
  const NotFoundCode := 404
  const PreconditionRequiredCode := 428
  const LimitExceedCode := 429
  const ServerClosedCode := 444
  const ClientClosedCode := 499
  const InternalCode := 500
  const NotImplementedCode := 501
  const ServiceUnavailableCode := 503
  const DeadlineCode := 504
  /** The boundary between built-in and business codes. */
  const CustomErrCode := 1000

  /** The messages of the predefined values. */
  const OKMessage := "200 OK"
  const BadRequestMessage := "400 Bad Request"
  const UnauthorizedMessage := "401 Unauthorized"
  const ForbiddenMessage := "403 Forbidden"
  const NotFoundMessage := "404 Not Found"
  const PreconditionRequiredMessage := "428 Precondition Required"
  const LimitExceedMessage := "429 Too Many Requests"
  const ServerClosedMessage := "444 Server Closed"
  const ClientClosedMessage := "499 Client Closed"
  const InternalMessage := "500 Internal Server Error"
  const NotImplementedMessage := "501 Not Implemented"
  const ServiceUnavailableMessage := "503 Service Unavailable"
  const DeadlineMessage := "504 Timeout"
  const CustomErrMessage := "1000 CustomErr"

  /** New: a fresh status with the code truncated to 32 bits and the (already formatted) message. */
  method New(code: int, message: string) returns (ec: ErrCode)
    ensures ec.s != null && fresh(ec.s)
    ensures ec.s.code == GoErrors.ToInt32(code) && ec.s.message == message && ec.s.details == []
  {
    var st := new GoErrors.RpcStatus(GoErrors.ToInt32(code), message);
    ec := GoErrors.ErrCode(st);
  }

  /** Code: 200 for the zero value. */
  function Code(ec: ErrCode): int
  {
    if ec.s == null then OKCode else ec.s.code
  }

  /** Error: "" for the zero value. */
  function Message(ec: ErrCode): string
  {
    if ec.s == null then "" else ec.s.message
  }

  /** Equal: nil matches code 200; otherwise only an ErrCode with the same code, whose message must match too from 1000 on. */
  function Equal(ec: ErrCode, err: Option<GoErrors.Error>): bool
  {
    match err
    case None => Code(ec) == OKCode
    case Some(e) =>
      if e.Code? && Code(ec) == Code(e.ec) then
        if Code(ec) < CustomErrCode then true else Message(ec) == Message(e.ec)
      else false
  }

  /** Details: nil for the zero value. */
  function Details(ec: ErrCode): (r: Option<seq<GoErrors.Detail>>)
    reads ec.s
    ensures r.None? <==> ec.s == null
    ensures r.Some? ==> r.value == ec.s.details
  {
    if ec.s == null then None else Some(ec.s.details)
  }

  /** WithDetails: appended in order to the shared status; nothing happens on the zero value. */
  method WithDetails(ec: ErrCode, details: seq<GoErrors.Detail>)
    modifies ec.s
    ensures ec.s != null ==> ec.s.details == old(ec.s.details) + details
  {
    if ec.s != null {
      ec.s.details := ec.s.details + details;
    }
  }

  /** The zero value reports code 200 and an empty message, and equals nil. */
  lemma ZeroValue()
    ensures Code(GoErrors.ErrCode(null)) == 200 && Message(GoErrors.ErrCode(null)) == ""
    ensures Equal(GoErrors.ErrCode(null), None)
  {
  }

  /** Equal(nil) holds iff the code is 200. */
  lemma EqualNil(ec: ErrCode)
    ensures Equal(ec, None) <==> Code(ec) == OKCode
  {
  }

  /** Equal is false for an error that is not an ErrCode, and for an ErrCode of another code. */
  lemma EqualOnlySameCode(ec: ErrCode, e: GoErrors.Error)
    ensures Equal(ec, Some(e)) ==> e.Code? && Code(e.ec) == Code(ec)
  {
  }

  /** Below 1000 messages are ignored; from 1000 on they must match. */
  lemma EqualMessages(a: ErrCode, b: ErrCode)
    requires Code(a) == Code(b)
    ensures Code(a) < CustomErrCode ==> Equal(a, Some(GoErrors.Code(b)))
    ensures Code(a) >= CustomErrCode ==> (Equal(a, Some(GoErrors.Code(b))) <==> Message(a) == Message(b))
  {
  }

  /** Equal is reflexive and symmetric on ErrCode values. */
  lemma EqualReflexiveSymmetric(a: ErrCode, b: ErrCode)
    ensures Equal(a, Some(GoErrors.Code(a)))
    ensures Equal(a, Some(GoErrors.Code(b))) == Equal(b, Some(GoErrors.Code(a)))
  {
  }
}
