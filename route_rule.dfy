/** Route (destination/weight) configuration documents and their conversion into tag rules (route/router/rule.go). */
module RouteRule {
  import opened GoStrings
  import opened Seqs
  import Tag
  import Meta

  datatype RuleGroup = RuleGroup(
    routeId: string,
    routeName: string,
    routeDesc: string,
    microserviceId: string,
    ruleList: seq<Rule>,
    namespaceId: string,
    microserviceName: string,
    fallbackStatus: bool)

  datatype Rule = Rule(routeRuleId: string, routeId: string, tagList: seq<TagRule>, destList: seq<Dest>)

  /** A destination; its weight is an int64 in the document. */
  datatype Dest = Dest(destId: string, destWeight: int, destItemList: seq<DestItem>, routeRuleId: string)

  datatype DestItem = DestItem(routeDestItemId: string, routeDestId: string, destItemField: string, destItemValue: string)

  datatype TagRule = TagRule(
    tagId: string,
    tagType: string,
    tagField: string,
    tagOperator: string,
    tagValue: string,
    routeRuleId: string)

  const UserType := "U"
  const NamespaceServiceField := "source.namespace.service.name"

  /** The renaming applied to the field of a system tag. */
  function SysField(field: string): string
  {
    if field == "source.application.id" then Meta.ApplicationID
    else if field == "source.group.id" then Meta.GroupID
    else if field == "source.connection.ip" then Meta.ConnectionIP
    else if field == "source.application.version" then Meta.ApplicationVersion
    else if field == "source.service.name" then Meta.ServiceName
    else field
  }

  /**
   * The tags one route tag turns into: one tag, or for a system
   * "source.namespace.service.name" tag two (namespace and service name,
   * split at the first '/'), or none when its value has no '/'.
   */
  function Expand(t: TagRule): (r: seq<Tag.Tag>)
    ensures t.tagType == UserType ==>
      r == [Tag.Tag(Tag.TypeUser, t.tagField, t.tagOperator, t.tagValue)]
    ensures t.tagType != UserType && t.tagField != NamespaceServiceField ==>
      r == [Tag.Tag(Tag.TypeSys, SysField(t.tagField), t.tagOperator, t.tagValue)]
    ensures t.tagType != UserType && t.tagField == NamespaceServiceField && '/' !in t.tagValue ==> r == []
    ensures t.tagType != UserType && t.tagField == NamespaceServiceField && '/' in t.tagValue ==>
      |r| == 2 &&
      r[0] == Tag.Tag(Tag.TypeSys, Meta.Namespace, t.tagOperator, r[0].value) &&
      r[1] == Tag.Tag(Tag.TypeSys, Meta.ServiceName, t.tagOperator, r[1].value) &&
      r[0].value + "/" + r[1].value == t.tagValue && '/' !in r[0].value
  {
    if t.tagType != UserType && t.tagField == NamespaceServiceField then
      var values := SplitTwo(t.tagValue, '/');
      if |values| != 2 then []
      else
        var i := IndexOf(t.tagValue, '/');
        assert t.tagValue == t.tagValue[..i] + "/" + t.tagValue[i + 1..];
        [Tag.Tag(Tag.TypeSys, Meta.Namespace, t.tagOperator, values[0]),
         Tag.Tag(Tag.TypeSys, Meta.ServiceName, t.tagOperator, values[1])]
    else
      var field := if t.tagType != UserType then SysField(t.tagField) else t.tagField;
      [Tag.Tag(if t.tagType == UserType then Tag.TypeUser else Tag.TypeSys, field, t.tagOperator, t.tagValue)]
  }

  /** toCommonTagRule: the expansions of the tags in order, always combined with AND. */
  function ToTagRule(rule: Rule): (r: Tag.Rule)
    ensures r.expression == Tag.AND
    ensures r.tags == FlatMap(rule.tagList, Expand)
  {
    Tag.Rule("", "", FlatMap(rule.tagList, Expand), Tag.AND)
  }

  /** Converting two tag lists one after the other gives the two conversions in that order. */
  lemma ConversionKeepsOrder(a: seq<TagRule>, b: seq<TagRule>)
    ensures FlatMap(a + b, Expand) == FlatMap(a, Expand) + FlatMap(b, Expand)
  {
    FlatMapAppend(a, b, Expand);
  }

  /** Each tag contributes 2 when it expands, 0 when it is dropped and 1 otherwise. */
  function Contribution(t: TagRule): nat
  {
    if t.tagType != UserType && t.tagField == NamespaceServiceField then
      (if '/' in t.tagValue then 2 else 0)
    else 1
  }

  function TotalContribution(ts: seq<TagRule>): nat
    decreases |ts|
  {
    if |ts| == 0 then 0 else Contribution(ts[0]) + TotalContribution(ts[1..])
  }

  /** Output length = inputs + expansions - drops. */
  lemma {:induction false} ConversionLength(ts: seq<TagRule>)
    ensures |FlatMap(ts, Expand)| == TotalContribution(ts)
    decreases |ts|
  {
    if |ts| > 0 {
      ConversionLength(ts[1..]);
      var _ := Expand(ts[0]);
    }
  }
}
