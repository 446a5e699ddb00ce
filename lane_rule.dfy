/** Lane (canary) configuration documents and their conversion into tag rules (pkg/route/lane/laneRule.go). */
module LaneRule {
  import Tag
  import Meta

  /** A lane rule; CreateTime is a point in time, as nanoseconds. */
  datatype LaneRule = LaneRule(
    id: string,
    name: string,
    enable: bool,
    laneId: string,
    priority: int,
    tagList: seq<TagRule>,
    relationship: string,
    createTime: int)

  datatype TagRule = TagRule(id: string, name: string, operator: string, value: string)

  datatype LaneInfo = LaneInfo(id: string, name: string, groupList: seq<LaneGroup>, createTime: int)

  datatype LaneGroup = LaneGroup(
    applicationId: string,
    applicationName: string,
    clusterType: string,
    entrance: bool,
    groupId: string,
    namespaceId: string,
    groupName: string)

  const RelationOr := "RELEATION_OR"

  function ToTag(t: TagRule): Tag.Tag
  {
    Tag.Tag(Tag.TypeUser, t.name, t.operator, t.value)
  }

  /** toCommonTagRule: every lane tag becomes a user tag; only "RELEATION_OR" gives OR. */
  function ToTagRule(rule: LaneRule): (r: Tag.Rule)
    ensures r.id == rule.id && r.name == ""
    ensures r.expression == Tag.OR <==> rule.relationship == RelationOr
    ensures r.expression == Tag.AND <==> rule.relationship != RelationOr
    ensures |r.tags| == |rule.tagList|
    ensures forall i :: 0 <= i < |r.tags| ==>
      && r.tags[i].tagType == Tag.TypeUser
      && r.tags[i].field == rule.tagList[i].name
      && r.tags[i].operator == rule.tagList[i].operator
      && r.tags[i].value == rule.tagList[i].value
  {
    Tag.Rule(rule.id, "",
      seq(|rule.tagList|, i requires 0 <= i < |rule.tagList| => ToTag(rule.tagList[i])),
      if rule.relationship == RelationOr then Tag.OR else Tag.AND)
  }

  /**
   * A lane rule matches a request iff its user fields match: all of them,
   * or one of them for "RELEATION_OR"; a rule without tags always matches.
   */
  lemma LaneRuleHit(rule: LaneRule, ctx: Meta.Context, re: Tag.RegexEngine)
    ensures var hits := Tag.RuleHit(ToTagRule(rule), ctx, re);
      && (|rule.tagList| == 0 ==> hits)
      && (|rule.tagList| > 0 && rule.relationship == RelationOr ==>
            (hits <==> exists i :: 0 <= i < |rule.tagList| && Tag.Hit(ToTag(rule.tagList[i]), ctx, re)))
      && (|rule.tagList| > 0 && rule.relationship != RelationOr ==>
            (hits <==> forall i :: 0 <= i < |rule.tagList| ==> Tag.Hit(ToTag(rule.tagList[i]), ctx, re)))
  {
    var r := ToTagRule(rule);
    assert forall i :: 0 <= i < |rule.tagList| ==> r.tags[i] == ToTag(rule.tagList[i]);
  }
}
