/**
 * *statusError.StatusError (pkg/statusError/status.go): a code, a reason and
 * free-form details.  Every accessor accepts a nil receiver.
 */
module StatusErrors {
  import opened Wrappers
  import opened Strconv
  import GoErrors

  const CodeOK := 200

  /** New: a fresh error holding exactly the given code, reason and details. */
  method New(code: int, reason: string, details: seq<GoErrors.Detail>) returns (se: GoErrors.StatusError)
    ensures fresh(se) && se.code == code && se.reason == reason && se.details == details
  {
    se := new GoErrors.StatusError(code, reason, details);
  }

  /** Code: 200 on a nil receiver. */
  function Code(se: GoErrors.StatusError?): int
  {
    if se == null then CodeOK else se.code
  }

  /** Reason: "OK" on a nil receiver. */
  function Reason(se: GoErrors.StatusError?): string
  {
    if se == null then "OK" else se.reason
  }

  /** Details: nil on a nil receiver. */
  function Details(se: GoErrors.StatusError?): (r: Option<seq<GoErrors.Detail>>)
    reads se
    ensures r.None? <==> se == null
    ensures r.Some? ==> r.value == se.details
  {
    if se == null then None else Some(se.details)
  }

  /** Error: the decimal code, a space and the reason. */
  function Message(se: GoErrors.StatusError?): string
  {
    FormatInt(Code(se)) + " " + Reason(se)
  }

  /** The outcome of Is: a verdict, or the nil dereference the source runs into. */
  datatype Verdict = Holds(b: bool) | NilDereference

  /**
   * Is: both nil is true, one nil is false; against another StatusError
   * code and reason must match (details never matter); any other target is
   * false.  A typed-nil target is read through `err.reason` once the codes
   * agree, which dereferences nil.
   */
  function Is(se: GoErrors.StatusError?, target: Option<GoErrors.Error>): (r: Verdict)
    ensures (se == null || target.None?) ==> r == Holds(se == null && target.None?)
    ensures se != null && target.Some? && !target.value.Status? ==> r == Holds(false)
    ensures se != null && target.Some? && target.value.Status? && target.value.se != null ==>
      r == Holds(se.code == target.value.se.code && se.reason == target.value.se.reason)
    ensures se != null && target.Some? && target.value.Status? && target.value.se == null ==>
      r == if se.code == CodeOK then NilDereference else Holds(false)
  {
    if se == null || target.None? then Holds(se == null && target.None?)
    else match target.value
      case Status(t) =>
        if Code(se) != Code(t) then Holds(false)
        else if t == null then NilDereference
        else Holds(se.reason == t.reason)
      case _ => Holds(false)
  }

  /** WithDetails: appended in order; nothing happens on a nil receiver. */
  method WithDetails(se: GoErrors.StatusError?, details: seq<GoErrors.Detail>)
    modifies se
    ensures se != null ==> se.details == old(se.details) + details
  {
    if se != null {
      se.details := se.details + details;
    }
  }

  /** A nil StatusError reports 200, "OK" and no details. */
  lemma NilAccessors()
    ensures Code(null) == 200 && Reason(null) == "OK" && Details(null).None?
  {
  }

  /** Is ignores details: two errors with the same code and reason are Is-equal in both directions. */
  lemma IsIgnoresDetails(a: GoErrors.StatusError, b: GoErrors.StatusError)
    ensures Is(a, Some(GoErrors.Status(b))) == Holds(a.code == b.code && a.reason == b.reason)
    ensures Is(a, Some(GoErrors.Status(b))) == Is(b, Some(GoErrors.Status(a)))
  {
  }
}
