/**
 * The tag-predicate engine (pkg/sys/tag): a tag tests one field of the
 * request's system or user metadata with an operator; a rule combines
 * tags with AND or OR.  The regular-expression engine is a foreign
 * component and comes in as a caller-supplied function.
 */
module Tag {
  import opened Wrappers
  import opened GoStrings
  import Meta

  const TypeSys: int := 0
  const TypeUser: int := 1

  const Equal := "EQUAL"
  const NotEqual := "NOT_EQUAL"
  const In := "IN"
  const NotIn := "NOT_IN"
  const Regex := "REGEX"

  /** What regexp.MatchString reports: a match result, or a pattern that does not compile. */
  datatype RegexOutcome = Compiled(matched: bool) | CompileError

  type RegexEngine = (string, string) -> RegexOutcome

  /** A tag; its type is Go's TagType, an int32 where 0 is system and any other value is user. */
  datatype Tag = Tag(tagType: int, field: string, operator: string, value: string)

  /**
   * The string a tag tests, or None when there is none: a system field
   * that is absent or not a string; a user field always reads as a
   * string, "" when missing.
   */
  function Target(t: Tag, ctx: Meta.Context): (r: Option<string>)
    ensures t.tagType != TypeSys ==> r == Some(Meta.User(ctx, t.field))
    ensures t.tagType == TypeSys ==> (r.Some? <==> Meta.Sys(ctx, t.field).Str?)
  {
    if t.tagType == TypeSys then
      match Meta.Sys(ctx, t.field)
      case Str(s) => Some(s)
      case _ => None
    else Some(Meta.User(ctx, t.field))
  }

  /** Tag.Hit. */
  function Hit(t: Tag, ctx: Meta.Context, re: RegexEngine): bool
  {
    match Target(t, ctx)
    case None => false
    case Some(target) =>
      if t.operator == Equal then target == t.value
      else if t.operator == NotEqual then !(target == t.value)
      else if t.operator == In then Contains(t.value, target)
      else if t.operator == NotIn then !Contains(t.value, target)
      else if t.operator == Regex then
        (match re(t.value, target) case Compiled(m) => m case CompileError => false)
      else false
  }

  /** A system tag on an absent or non-string field never hits, whatever the operator. */
  lemma SysMissingNeverHits(t: Tag, ctx: Meta.Context, re: RegexEngine)
    requires t.tagType == TypeSys && !Meta.Sys(ctx, t.field).Str?
    ensures !Hit(t, ctx, re)
  {
  }

  /** The operators, each stated against the tested string (present for every user tag). */
  lemma OperatorSemantics(t: Tag, ctx: Meta.Context, re: RegexEngine, target: string)
    requires Target(t, ctx) == Some(target)
    ensures t.operator == Equal ==> (Hit(t, ctx, re) <==> target == t.value)
    ensures t.operator == NotEqual ==> (Hit(t, ctx, re) <==> !Hit(t.(operator := Equal), ctx, re))
    ensures t.operator == In ==> (Hit(t, ctx, re) <==> Contains(t.value, target))
    ensures t.operator == NotIn ==> (Hit(t, ctx, re) <==> !Hit(t.(operator := In), ctx, re))
    ensures t.operator == Regex ==> (Hit(t, ctx, re) <==> re(t.value, target) == Compiled(true))
    ensures t.operator !in {Equal, NotEqual, In, NotIn, Regex} ==> !Hit(t, ctx, re)
  {
  }

  lemma ContainsEmpty(s: string)
    ensures Contains(s, "")
  {
    assert HasPrefix(s[0..], "");
  }

  /** A user tag with IN on a field the request lacks always hits, because every string contains "". */
  lemma UserInOnMissingFieldHits(t: Tag, ctx: Meta.Context, re: RegexEngine)
    requires t.tagType != TypeSys && t.operator == In
    requires ctx.user.None? || t.field !in ctx.user.value
    ensures Hit(t, ctx, re)
  {
    ContainsEmpty(t.value);
  }

  // ---- rule.go ----

  const AND: int := 0
  const OR: int := 1
  const COMPOSITE: int := 2

  /** A rule; its expression is Go's Relation, an int32. */
  datatype Rule = Rule(id: string, name: string, tags: seq<Tag>, expression: int)

  /** The AND loop: false at the first tag that misses. */
  function AllHit(tags: seq<Tag>, ctx: Meta.Context, re: RegexEngine): (b: bool)
    decreases |tags|
  {
    if |tags| == 0 then true
    else if !Hit(tags[0], ctx, re) then false
    else AllHit(tags[1..], ctx, re)
  }

  /** The OR loop: true at the first tag that hits. */
  function AnyHit(tags: seq<Tag>, ctx: Meta.Context, re: RegexEngine): (b: bool)
    decreases |tags|
  {
    if |tags| == 0 then false
    else if Hit(tags[0], ctx, re) then true
    else AnyHit(tags[1..], ctx, re)
  }

  lemma {:induction false} AllHitIff(tags: seq<Tag>, ctx: Meta.Context, re: RegexEngine)
    ensures AllHit(tags, ctx, re) <==> forall i :: 0 <= i < |tags| ==> Hit(tags[i], ctx, re)
    decreases |tags|
  {
    if |tags| > 0 {
      AllHitIff(tags[1..], ctx, re);
      assert forall i :: 0 < i < |tags| ==> tags[i] == tags[1..][i - 1];
    }
  }

  lemma {:induction false} AnyHitIff(tags: seq<Tag>, ctx: Meta.Context, re: RegexEngine)
    ensures AnyHit(tags, ctx, re) <==> exists i :: 0 <= i < |tags| && Hit(tags[i], ctx, re)
    decreases |tags|
  {
    if |tags| > 0 {
      AnyHitIff(tags[1..], ctx, re);
      assert forall i :: 0 < i < |tags| ==> tags[i] == tags[1..][i - 1];
    }
  }

  /**
   * Rule.Hit: an empty tag list always hits; AND needs every tag, OR some
   * tag; COMPOSITE (unimplemented) and any other expression never hit.
   */
  function RuleHit(r: Rule, ctx: Meta.Context, re: RegexEngine): (b: bool)
    ensures |r.tags| == 0 ==> b
    ensures |r.tags| > 0 && r.expression == AND ==> (b <==> forall i :: 0 <= i < |r.tags| ==> Hit(r.tags[i], ctx, re))
    ensures |r.tags| > 0 && r.expression == OR ==> (b <==> exists i :: 0 <= i < |r.tags| && Hit(r.tags[i], ctx, re))
    ensures |r.tags| > 0 && r.expression != AND && r.expression != OR ==> !b
  {
    AllHitIff(r.tags, ctx, re);
    AnyHitIff(r.tags, ctx, re);
    if |r.tags| == 0 then true
    else if r.expression == AND then AllHit(r.tags, ctx, re)
    else if r.expression == OR then AnyHit(r.tags, ctx, re)
    else if r.expression == COMPOSITE then false
    else false
  }
}
