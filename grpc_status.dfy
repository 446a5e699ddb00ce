/**
 * Conversion between ErrCode errors and gRPC status errors
 * (pkg/grpc/status/status.go).  gRPC status codes are the numeric codes of
 * the gRPC status-code specification; a status error's text is
 * "rpc error: code = <name> desc = <message>" as grpc-go prints it.  The
 * JSON encoding of an ErrCode is a caller-supplied function.
 */
module GrpcStatus {
  import opened Wrappers
  import opened Strconv
  import GoErrors
  import ErrCodes

  const GrpcOK := 0
  const GrpcCanceled := 1
  const GrpcUnknown := 2
  const GrpcInvalidArgument := 3
  const GrpcDeadlineExceeded := 4
  const GrpcNotFound := 5
  const GrpcAlreadyExists := 6
  const GrpcPermissionDenied := 7
  const GrpcResourceExhausted := 8
  const GrpcFailedPrecondition := 9
  const GrpcAborted := 10
  const GrpcOutOfRange := 11
  const GrpcUnimplemented := 12
  const GrpcInternal := 13
  const GrpcUnavailable := 14
  const GrpcDataLoss := 15
  const GrpcUnauthenticated := 16

  /** codes.Code's String. */
  function CodeName(c: int): string
  {
    if c == GrpcOK then "OK"
    else if c == GrpcCanceled then "Canceled"
    else if c == GrpcUnknown then "Unknown"
    else if c == GrpcInvalidArgument then "InvalidArgument"
    else if c == GrpcDeadlineExceeded then "DeadlineExceeded"
    else if c == GrpcNotFound then "NotFound"
    else if c == GrpcAlreadyExists then "AlreadyExists"
    else if c == GrpcPermissionDenied then "PermissionDenied"
    else if c == GrpcResourceExhausted then "ResourceExhausted"
    else if c == GrpcFailedPrecondition then "FailedPrecondition"
    else if c == GrpcAborted then "Aborted"
    else if c == GrpcOutOfRange then "OutOfRange"
    else if c == GrpcUnimplemented then "Unimplemented"
    else if c == GrpcInternal then "Internal"
    else if c == GrpcUnavailable then "Unavailable"
    else if c == GrpcDataLoss then "DataLoss"
    else if c == GrpcUnauthenticated then "Unauthenticated"
    else "Code(" + FormatInt(c) + ")"
  }

  /** The text of a gRPC status error. */
  function ErrorText(code: int, message: string): string
  {
    "rpc error: code = " + CodeName(code) + " desc = " + message
  }

  /** errCodeToGrpcCode: the fixed table; every unlisted code is Internal. */
  function ToGrpcCode(code: int): (r: int)
    ensures code == ErrCodes.ServerClosedCode || code == ErrCodes.ClientClosedCode ==> r == GrpcAborted
    ensures code !in {200, 400, 401, 403, 404, 428, 429, 444, 499, 500, 501, 503, 504} ==> r == GrpcInternal
  {
    if code == ErrCodes.OKCode then GrpcOK
    else if code == ErrCodes.BadRequestCode then GrpcInvalidArgument
    else if code == ErrCodes.UnauthorizedCode then GrpcUnauthenticated
    else if code == ErrCodes.ForbiddenCode then GrpcPermissionDenied
    else if code == ErrCodes.NotFoundCode then GrpcNotFound
    else if code == ErrCodes.PreconditionRequiredCode then GrpcFailedPrecondition
    else if code == ErrCodes.LimitExceedCode then GrpcResourceExhausted
    else if code == ErrCodes.ServerClosedCode || code == ErrCodes.ClientClosedCode then GrpcAborted
    else if code == ErrCodes.InternalCode then GrpcInternal
    else if code == ErrCodes.NotImplementedCode then GrpcUnimplemented
    else if code == ErrCodes.ServiceUnavailableCode then GrpcUnavailable
    else if code == ErrCodes.DeadlineCode then GrpcDeadlineExceeded
    else GrpcInternal
  }

  /** The ErrCode code FromGrpcStatus gives a gRPC code other than OK and Unknown: the listed ones map back, the rest to 500. */
  function FromGrpcCode(g: int): int
  {
    if g == GrpcInvalidArgument then ErrCodes.BadRequestCode
    else if g == GrpcNotFound then ErrCodes.NotFoundCode
    else if g == GrpcPermissionDenied then ErrCodes.ForbiddenCode
    else if g == GrpcUnauthenticated then ErrCodes.UnauthorizedCode
    else if g == GrpcResourceExhausted then ErrCodes.LimitExceedCode
    else if g == GrpcUnimplemented then ErrCodes.NotImplementedCode
    else if g == GrpcAborted then ErrCodes.ServerClosedCode
    else if g == GrpcDeadlineExceeded then ErrCodes.DeadlineCode
    else if g == GrpcUnavailable then ErrCodes.ServiceUnavailableCode
    else if g == GrpcFailedPrecondition then ErrCodes.PreconditionRequiredCode
    else ErrCodes.InternalCode
  }

  /**
   * ToGrpcStatus: an ErrCode becomes nil for code 200, a status with the
   * table's code and the message up to code 1000, and an Unknown status
   * carrying the JSON encoding above it.  Any other error is returned as is.
   */
  function ToGrpcStatus(err: Option<GoErrors.Error>, marshal: GoErrors.ErrCode -> string): (r: Option<GoErrors.Error>)
    ensures (err.None? || !err.value.Code?) ==> r == err
    ensures err.Some? && err.value.Code? && ErrCodes.Code(err.value.ec) == ErrCodes.OKCode ==> r.None?
    ensures err.Some? && err.value.Code? && ErrCodes.Code(err.value.ec) != ErrCodes.OKCode ==> r.Some? && r.value.Grpc?
  {
    match err
    case Some(Code(ec)) =>
      var c := ErrCodes.Code(ec);
      if c == ErrCodes.OKCode then None
      else if c <= ErrCodes.CustomErrCode then Some(GoErrors.Grpc(ToGrpcCode(c), ErrCodes.Message(ec)))
      else Some(GoErrors.Grpc(GrpcUnknown, marshal(ec)))
    case _ => err
  }

  /**
   * FromGrpcStatus: a non-status error (or nil) is returned as is; OK
   * becomes nil; Unknown comes back unchanged, because decoding into the
   * nil *ErrCode the source declares always fails; any other code becomes
   * an ErrCode whose message is the status error's text.
   */
  method FromGrpcStatus(err: Option<GoErrors.Error>) returns (r: Option<GoErrors.Error>)
    ensures (err.None? || !err.value.Grpc?) ==> r == err
    ensures err.Some? && err.value.Grpc? && err.value.code == GrpcOK ==> r.None?
    ensures err.Some? && err.value.Grpc? && err.value.code == GrpcUnknown ==> r == err
    ensures err.Some? && err.value.Grpc? && err.value.code != GrpcOK && err.value.code != GrpcUnknown ==>
      && r.Some? && r.value.Code? && r.value.ec.s != null
      && ErrCodes.Code(r.value.ec) == FromGrpcCode(err.value.code)
      && ErrCodes.Message(r.value.ec) == ErrorText(err.value.code, err.value.message)
  {
    if err.None? || !err.value.Grpc? {
      return err;
    }
    var g := err.value.code;
    if g == GrpcOK {
      return None;
    }
    if g == GrpcUnknown {
      return err;
    }
    var ec := ErrCodes.New(FromGrpcCode(g), ErrorText(g, err.value.message));
    return Some(GoErrors.Code(ec));
  }

  /** The codes that survive ToGrpcStatus followed by FromGrpcStatus. */
  lemma RoundTripCodes(c: int)
    requires c in {400, 401, 403, 404, 428, 429, 444, 500, 501, 503, 504}
    ensures FromGrpcCode(ToGrpcCode(c)) == c
  {
  }

  /** 499 comes back as 444, since both map to Aborted; other built-in codes off the table come back as 500. */
  lemma RoundTripLossy(c: int)
    requires c <= ErrCodes.CustomErrCode && c !in {200, 400, 401, 403, 404, 428, 429, 444, 499, 500, 501, 503, 504}
    ensures FromGrpcCode(ToGrpcCode(ErrCodes.ClientClosedCode)) == ErrCodes.ServerClosedCode
    ensures FromGrpcCode(ToGrpcCode(c)) == ErrCodes.InternalCode
  {
  }

  /** Every error code gRPC does not list, other than OK and Unknown, comes back as 500. */
  lemma UnlistedGrpcIsInternal(g: int)
    requires g !in {GrpcOK, GrpcUnknown, GrpcInvalidArgument, GrpcNotFound, GrpcPermissionDenied, GrpcUnauthenticated,
                    GrpcResourceExhausted, GrpcUnimplemented, GrpcAborted, GrpcDeadlineExceeded, GrpcUnavailable,
                    GrpcFailedPrecondition}
    ensures FromGrpcCode(g) == ErrCodes.InternalCode
  {
  }
}
