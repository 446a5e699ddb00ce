/** Authentication rules and their conversion into tag rules (pkg/auth/authenticator/rule.go). */
module AuthRule {
  import opened GoStrings
  import opened Seqs
  import Tag
  import Meta

  datatype AuthConfig = AuthConfig(rules: seq<AuthRule>, authType: string)

  /** An auth rule; `tagRule` is the unexported field genTagRules fills. */
  datatype AuthRule = AuthRule(id: string, name: string, tags: seq<AuthTag>, tagRule: Tag.Rule)

  datatype AuthTag = AuthTag(id: string, tagType: string, field: string, operator: string, value: string)

  const SysType := "S"
  const NamespaceServiceField := "source.namespace.service.name"

  /**
   * The tags one auth tag turns into: a system namespace/service-name tag
   * is split at the first '/' into two (none without a '/'); any other tag
   * loses a leading "destination." and is a system tag iff its type is "S".
   */
  function Expand(t: AuthTag): (r: seq<Tag.Tag>)
    ensures t.tagType == SysType && t.field == NamespaceServiceField && '/' !in t.value ==> r == []
    ensures t.tagType == SysType && t.field == NamespaceServiceField && '/' in t.value ==>
      |r| == 2 &&
      r[0] == Tag.Tag(Tag.TypeSys, Meta.Namespace, t.operator, r[0].value) &&
      r[1] == Tag.Tag(Tag.TypeSys, Meta.ServiceName, t.operator, r[1].value) &&
      r[0].value + "/" + r[1].value == t.value && '/' !in r[0].value
    ensures !(t.tagType == SysType && t.field == NamespaceServiceField) ==>
      |r| == 1 && r[0].operator == t.operator && r[0].value == t.value &&
      (r[0].tagType == Tag.TypeSys <==> t.tagType == SysType) &&
      (r[0].tagType != Tag.TypeSys ==> r[0].tagType == Tag.TypeUser) &&
      (HasPrefix(t.field, Meta.PrefixDest) ==> Meta.PrefixDest + r[0].field == t.field) &&
      (!HasPrefix(t.field, Meta.PrefixDest) ==> r[0].field == t.field)
  {
    if t.tagType == SysType && t.field == NamespaceServiceField then
      var values := SplitTwo(t.value, '/');
      if |values| != 2 then []
      else
        var i := IndexOf(t.value, '/');
        assert t.value == t.value[..i] + "/" + t.value[i + 1..];
        [Tag.Tag(Tag.TypeSys, Meta.Namespace, t.operator, values[0]),
         Tag.Tag(Tag.TypeSys, Meta.ServiceName, t.operator, values[1])]
    else
      var field := if HasPrefix(t.field, Meta.PrefixDest) then TrimPrefix(t.field, Meta.PrefixDest) else t.field;
      [Tag.Tag(if t.tagType == SysType then Tag.TypeSys else Tag.TypeUser, field, t.operator, t.value)]
  }

  /**
   * genTagRules: builds the AND rule carrying the auth rule's ID and stores
   * it in `tagRule`; nothing else in the rule changes.
   */
  function GenTagRules(rule: AuthRule): (r: AuthRule)
    ensures r.id == rule.id && r.name == rule.name && r.tags == rule.tags
    ensures r.tagRule.id == rule.id && r.tagRule.expression == Tag.AND
    ensures r.tagRule.tags == FlatMap(rule.tags, Expand)
  {
    rule.(tagRule := Tag.Rule(rule.id, "", FlatMap(rule.tags, Expand), Tag.AND))
  }

  /** Regenerating is harmless: the tag rule depends only on the ID and the tags. */
  lemma GenTagRulesIdempotent(rule: AuthRule)
    ensures GenTagRules(GenTagRules(rule)) == GenTagRules(rule)
  {
  }

  /** Converted auth tags keep their order. */
  lemma ConversionKeepsOrder(a: seq<AuthTag>, b: seq<AuthTag>)
    ensures FlatMap(a + b, Expand) == FlatMap(a, Expand) + FlatMap(b, Expand)
  {
    FlatMapAppend(a, b, Expand);
  }
}
