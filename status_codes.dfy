/**
 * The StatusError codes, constructors and IsX predicates of
 * pkg/statusError/code.go.  The fourteen constructors differ only in
 * their code, so they are one constructor indexed by a Kind.
 */
module StatusCodes {
  import opened Wrappers
  import GoErrors
  import StatusErrors

  datatype Kind =
    | OK | BadRequest | Unauthorized | Forbidden | NotFound | PreconditionRequired | LimitExceed
    | ServerClosed | ClientClosed | Internal | NotImplemented | ServiceUnavailable | Deadline | Unknown

  /** The code each constructor uses. */
  function CodeOf(k: Kind): int
  {
    match k
    case OK => 200
    case BadRequest => 400
    case Unauthorized => 401
    case Forbidden => 403
    case NotFound => 404
    case PreconditionRequired => 428
    case LimitExceed => 429
    case ServerClosed => 444
    case ClientClosed => 499
    case Internal => 500
    case NotImplemented => 501
    case ServiceUnavailable => 503
    case Deadline => 504
    case Unknown => 520
  }

  /** The fourteen codes are pairwise distinct. */
  lemma CodesDistinct(a: Kind, b: Kind)
    ensures CodeOf(a) == CodeOf(b) <==> a == b
  {
  }

  /** The constructor of kind k (OK, BadRequest, ..., Unknown). */
  method Make(k: Kind, reason: string, details: seq<GoErrors.Detail>) returns (se: GoErrors.StatusError)
    ensures fresh(se) && se.code == CodeOf(k) && se.reason == reason && se.details == details
  {
    se := StatusErrors.New(CodeOf(k), reason, details);
  }

  /**
   * IsX: the first StatusError along the wrap chain carries code X (a typed
   * nil reads as 200).  IsOK alone also accepts a nil error.
   */
  function IsKind(k: Kind, err: Option<GoErrors.Error>): bool
  {
    match err
    case None => k == OK
    case Some(e) =>
      match GoErrors.AsStatusError(e)
      case None => false
      case Some(se) => StatusErrors.Code(se) == CodeOf(k)
  }

  /** A nil error is OK and nothing else. */
  lemma NilIsOnlyOK(k: Kind)
    ensures IsKind(k, None) <==> k == OK
  {
  }

  /** A StatusError of kind k, however deeply wrapped, is of kind k. */
  lemma {:induction false} WrappedKind(k: Kind, se: GoErrors.StatusError, wraps: seq<string>)
    requires se.code == CodeOf(k)
    ensures IsKind(k, Some(WrapAll(GoErrors.Status(se), wraps)))
    decreases |wraps|
  {
    if |wraps| > 0 {
      WrappedKind(k, se, wraps[1..]);
    }
  }

  /** An error wrapped once per message, outermost first. */
  function WrapAll(e: GoErrors.Error, wraps: seq<string>): GoErrors.Error
    decreases |wraps|
  {
    if |wraps| == 0 then e else GoErrors.Wrapped(wraps[0], WrapAll(e, wraps[1..]))
  }

  /** At most one IsX holds for a non-nil error. */
  lemma AtMostOneKind(a: Kind, b: Kind, e: GoErrors.Error)
    requires IsKind(a, Some(e)) && IsKind(b, Some(e))
    ensures a == b
  {
  }

  /** An error without a StatusError in its chain is of no kind. */
  lemma NoStatusNoKind(k: Kind, e: GoErrors.Error)
    requires GoErrors.AsStatusError(e).None?
    ensures !IsKind(k, Some(e))
  {
  }

  /** A BadRequest error is never NotFound. */
  lemma BadRequestIsNotNotFound(se: GoErrors.StatusError)
    requires se.code == CodeOf(BadRequest)
    ensures !IsKind(NotFound, Some(GoErrors.Status(se))) && IsKind(BadRequest, Some(GoErrors.Status(se)))
  {
  }
}
