/**
 * The lane (canary) router of pkg/route/lane/lane.go.  A lane lists the
 * deployment groups that belong to it; a request tagged with a lane id is
 * sent to that lane's instances when the callee takes part in the lane,
 * and a request without one is kept away from instances of any lane.
 */
module Lane {
  import opened Wrappers
  import opened Seqs
  import Naming
  import Tag
  import Meta
  import ConfigData
  import opened LaneRule

  // ---- the derived views refreshLanes builds ----

  /** A lane takes effect in this process iff one of its groups is the local group with the entrance flag. */
  predicate IsEffective(lane: LaneInfo, localGroup: string)
  {
    exists j :: 0 <= j < |lane.groupList| && lane.groupList[j].groupId == localGroup && lane.groupList[j].entrance
  }

  /** Some non-entrance group of the lane lives in namespace `ns`. */
  predicate ListsNamespace(lane: LaneInfo, ns: string)
  {
    exists j :: 0 <= j < |lane.groupList| && !lane.groupList[j].entrance && lane.groupList[j].namespaceId == ns
  }

  /** Some group of the lane has id `gid`. */
  predicate ListsGroup(lane: LaneInfo, gid: string)
  {
    exists j :: 0 <= j < |lane.groupList| && lane.groupList[j].groupId == gid
  }

  /** The same three facts in the shape of the group loop. */
  function HasEntrance(gl: seq<LaneGroup>, localGroup: string): bool
    decreases |gl|
  {
    if |gl| == 0 then false
    else HasEntrance(gl[..|gl| - 1], localGroup) || (gl[|gl| - 1].groupId == localGroup && gl[|gl| - 1].entrance)
  }

  function NamespaceKeys(gl: seq<LaneGroup>): seq<string>
    decreases |gl|
  {
    if |gl| == 0 then []
    else NamespaceKeys(gl[..|gl| - 1]) + (if gl[|gl| - 1].entrance then [] else [gl[|gl| - 1].namespaceId])
  }

  function GroupKeys(gl: seq<LaneGroup>): seq<string>
    decreases |gl|
  {
    if |gl| == 0 then [] else GroupKeys(gl[..|gl| - 1]) + [gl[|gl| - 1].groupId]
  }

  lemma {:induction false} HasEntranceSpec(gl: seq<LaneGroup>, localGroup: string)
    ensures HasEntrance(gl, localGroup) <==> exists j :: 0 <= j < |gl| && gl[j].groupId == localGroup && gl[j].entrance
    decreases |gl|
  {
    if |gl| > 0 {
      HasEntranceSpec(gl[..|gl| - 1], localGroup);
      assert forall j :: 0 <= j < |gl| - 1 ==> gl[..|gl| - 1][j] == gl[j];
    }
  }

  lemma {:induction false} NamespaceKeysSpec(gl: seq<LaneGroup>, ns: string)
    ensures ns in NamespaceKeys(gl) <==> exists j :: 0 <= j < |gl| && !gl[j].entrance && gl[j].namespaceId == ns
    decreases |gl|
  {
    if |gl| > 0 {
      NamespaceKeysSpec(gl[..|gl| - 1], ns);
      assert forall j :: 0 <= j < |gl| - 1 ==> gl[..|gl| - 1][j] == gl[j];
    }
  }

  lemma {:induction false} GroupKeysSpec(gl: seq<LaneGroup>, gid: string)
    ensures gid in GroupKeys(gl) <==> exists j :: 0 <= j < |gl| && gl[j].groupId == gid
    decreases |gl|
  {
    if |gl| > 0 {
      GroupKeysSpec(gl[..|gl| - 1], gid);
      assert forall j :: 0 <= j < |gl| - 1 ==> gl[..|gl| - 1][j] == gl[j];
    }
  }

  lemma KeysSnoc(gl: seq<LaneGroup>, j: nat, localGroup: string)
    requires j < |gl|
    ensures HasEntrance(gl[..j + 1], localGroup) == (HasEntrance(gl[..j], localGroup) || (gl[j].groupId == localGroup && gl[j].entrance))
    ensures NamespaceKeys(gl[..j + 1]) == NamespaceKeys(gl[..j]) + (if gl[j].entrance then [] else [gl[j].namespaceId])
    ensures GroupKeys(gl[..j + 1]) == GroupKeys(gl[..j]) + [gl[j].groupId]
  {
    assert gl[..j + 1][..j] == gl[..j];
  }

  function SetAt(m: map<string, set<string>>, k: string): set<string>
  {
    if k in m then m[k] else {}
  }

  /** Adding lane `id` to the set under each key of `keys`, creating the sets that are missing. */
  function Spread(m: map<string, set<string>>, keys: seq<string>, id: string): map<string, set<string>>
    decreases |keys|
  {
    if |keys| == 0 then m
    else
      var m' := Spread(m, keys[..|keys| - 1], id);
      m'[keys[|keys| - 1] := SetAt(m', keys[|keys| - 1]) + {id}]
  }

  /** Spreading touches exactly the listed keys and adds only `id`. */
  lemma {:induction false} SpreadSpec(m: map<string, set<string>>, keys: seq<string>, id: string, k: string)
    ensures k in Spread(m, keys, id) <==> k in m || k in keys
    ensures SetAt(Spread(m, keys, id), k) == SetAt(m, k) + (if k in keys then {id} else {})
    decreases |keys|
  {
    if |keys| > 0 {
      SpreadSpec(m, keys[..|keys| - 1], id, k);
      assert keys == keys[..|keys| - 1] + [keys[|keys| - 1]];
    }
  }

  lemma SpreadSnoc(m: map<string, set<string>>, keys: seq<string>, k: string, id: string)
    ensures Spread(m, keys + [k], id) == Spread(m, keys, id)[k := SetAt(Spread(m, keys, id), k) + {id}]
  {
    assert (keys + [k])[..|keys|] == keys;
  }

  /** The effective-lane map, over the lanes with ids in `done`. */
  ghost predicate EffectiveView(eff: map<string, LaneInfo>, all: map<string, LaneInfo>, localGroup: string, done: set<string>)
  {
    && (forall id :: id in eff <==> id in done && id in all && IsEffective(all[id], localGroup))
    && (forall id :: id in eff ==> eff[id] == all[id])
  }

  /** The namespace map: each namespace to the lanes one of whose non-entrance groups lives there. */
  ghost predicate NamespaceView(nss: map<string, set<string>>, all: map<string, LaneInfo>, done: set<string>)
  {
    && (forall ns :: ns in nss <==> exists id :: id in done && id in all && ListsNamespace(all[id], ns))
    && (forall ns, id :: ns in nss ==> (id in nss[ns] <==> id in done && id in all && ListsNamespace(all[id], ns)))
  }

  /** The group map: each group id to the lanes that list it. */
  ghost predicate GroupView(gs: map<string, set<string>>, all: map<string, LaneInfo>, done: set<string>)
  {
    && (forall gid :: gid in gs <==> exists id :: id in done && id in all && ListsGroup(all[id], gid))
    && (forall gid, id :: gid in gs ==> (id in gs[gid] <==> id in done && id in all && ListsGroup(all[id], gid)))
  }

  /** The group loop of refreshLanes for one lane. */
  method AddLaneGroups(lane: LaneInfo, localGroup: string, eff: map<string, LaneInfo>,
                       nss: map<string, set<string>>, gs: map<string, set<string>>)
    returns (eff': map<string, LaneInfo>, nss': map<string, set<string>>, gs': map<string, set<string>>)
    ensures eff' == if IsEffective(lane, localGroup) then eff[lane.id := lane] else eff
    ensures nss' == Spread(nss, NamespaceKeys(lane.groupList), lane.id)
    ensures gs' == Spread(gs, GroupKeys(lane.groupList), lane.id)
  {
    eff', nss', gs' := eff, nss, gs;
    var gl := lane.groupList;
    ghost var entered, nk, gk := false, [], [];
    var j := 0;
    while j < |gl|
      invariant 0 <= j <= |gl|
      invariant entered == HasEntrance(gl[..j], localGroup) && nk == NamespaceKeys(gl[..j]) && gk == GroupKeys(gl[..j])
      invariant eff' == if entered then eff[lane.id := lane] else eff
      invariant nss' == Spread(nss, nk, lane.id)
      invariant gs' == Spread(gs, gk, lane.id)
    {
      var g := gl[j];
      KeysSnoc(gl, j, localGroup);
      if g.groupId == localGroup && g.entrance {
        assert eff'[lane.id := lane] == eff[lane.id := lane];
        eff' := eff'[lane.id := lane];
        entered := true;
      }
      if !g.entrance {
        SpreadSnoc(nss, nk, g.namespaceId, lane.id);
        nss' := nss'[g.namespaceId := SetAt(nss', g.namespaceId) + {lane.id}];
        nk := nk + [g.namespaceId];
      } else {
        assert nk + [] == nk;
      }
      SpreadSnoc(gs, gk, g.groupId, lane.id);
      gs' := gs'[g.groupId := SetAt(gs', g.groupId) + {lane.id}];
      gk := gk + [g.groupId];
      j := j + 1;
    }
    assert gl[..j] == gl;
    HasEntranceSpec(gl, localGroup);
  }

  /** One more lane visited: the effective-lane view grows by that lane when it is effective. */
  lemma EffectiveViewStep(eff: map<string, LaneInfo>, all: map<string, LaneInfo>, localGroup: string,
                          done: set<string>, k: string)
    requires k in all && all[k].id == k
    requires EffectiveView(eff, all, localGroup, done)
    ensures EffectiveView(if IsEffective(all[k], localGroup) then eff[k := all[k]] else eff, all, localGroup, done + {k})
  {
  }

  /** One more lane visited: the namespace view. */
  lemma NamespaceViewStep(nss: map<string, set<string>>, all: map<string, LaneInfo>, done: set<string>, k: string)
    requires k in all && all[k].id == k
    requires NamespaceView(nss, all, done)
    ensures NamespaceView(Spread(nss, NamespaceKeys(all[k].groupList), k), all, done + {k})
  {
    var nss' := Spread(nss, NamespaceKeys(all[k].groupList), k);
    forall ns
      ensures ns in nss' <==> ns in nss || ListsNamespace(all[k], ns)
      ensures SetAt(nss', ns) == SetAt(nss, ns) + (if ListsNamespace(all[k], ns) then {k} else {})
    {
      SpreadSpec(nss, NamespaceKeys(all[k].groupList), k, ns);
      NamespaceKeysSpec(all[k].groupList, ns);
    }
  }

  /** One more lane visited: the group view. */
  lemma GroupViewStep(gs: map<string, set<string>>, all: map<string, LaneInfo>, done: set<string>, k: string)
    requires k in all && all[k].id == k
    requires GroupView(gs, all, done)
    ensures GroupView(Spread(gs, GroupKeys(all[k].groupList), k), all, done + {k})
  {
    var gs' := Spread(gs, GroupKeys(all[k].groupList), k);
    forall gid
      ensures gid in gs' <==> gid in gs || ListsGroup(all[k], gid)
      ensures SetAt(gs', gid) == SetAt(gs, gid) + (if ListsGroup(all[k], gid) then {k} else {})
    {
      SpreadSpec(gs, GroupKeys(all[k].groupList), k, gid);
      GroupKeysSpec(all[k].groupList, gid);
    }
  }

  // ---- the filters Select applies ----

  /** The instance's group belongs to the lane: its group id maps to a lane set holding `laneId`. */
  predicate InLane(groups: map<string, set<string>>, laneId: string, node: Naming.Instance)
  {
    var gid := node.Meta(Naming.GroupIdKey);
    gid in groups && |groups[gid]| > 0 && laneId in groups[gid]
  }

  /** The instance's (non-empty) group id belongs to some lane. */
  predicate Colored(groups: map<string, set<string>>, node: Naming.Instance)
  {
    var gid := node.Meta(Naming.GroupIdKey);
    gid != "" && gid in groups && |groups[gid]| > 0
  }

  /** Under the group view, an instance is in a lane iff that lane lists the instance's group. */
  lemma InLaneListed(groups: map<string, set<string>>, all: map<string, LaneInfo>, laneId: string, node: Naming.Instance)
    requires GroupView(groups, all, all.Keys)
    ensures InLane(groups, laneId, node) <==> laneId in all && ListsGroup(all[laneId], node.Meta(Naming.GroupIdKey))
  {
    var gid := node.Meta(Naming.GroupIdKey);
    if laneId in all && ListsGroup(all[laneId], gid) {
      assert gid in groups;
      assert laneId in groups[gid];
    }
  }

  /** selectColor's result: the instances of the lane, in order. */
  function ColorNodes(nodes: seq<Naming.Instance>, groups: map<string, set<string>>, laneId: string): seq<Naming.Instance>
    decreases |nodes|
  {
    if |nodes| == 0 then []
    else
      var last := nodes[|nodes| - 1];
      ColorNodes(nodes[..|nodes| - 1], groups, laneId) + (if InLane(groups, laneId, last) then [last] else [])
  }

  /** The instances of no lane, in order. */
  function Uncolored(nodes: seq<Naming.Instance>, groups: map<string, set<string>>): seq<Naming.Instance>
    decreases |nodes|
  {
    if |nodes| == 0 then []
    else
      var last := nodes[|nodes| - 1];
      Uncolored(nodes[..|nodes| - 1], groups) + (if Colored(groups, last) then [] else [last])
  }

  /** selectNormal's result: all nodes when the callee's namespace has no lanes, else the instances of no lane. */
  function NormalNodes(nodes: seq<Naming.Instance>, namespaces: map<string, set<string>>,
                       groups: map<string, set<string>>, ns: string): seq<Naming.Instance>
  {
    if ns !in namespaces || |namespaces[ns]| == 0 then nodes else Uncolored(nodes, groups)
  }

  /** selectColor keeps exactly the lane's instances, in input order. */
  lemma {:induction false} ColorNodesSpec(nodes: seq<Naming.Instance>, groups: map<string, set<string>>, laneId: string)
    ensures IsSubsequence(ColorNodes(nodes, groups, laneId), nodes)
    ensures forall x :: x in ColorNodes(nodes, groups, laneId) <==> x in nodes && InLane(groups, laneId, x)
    decreases |nodes|
  {
    if |nodes| > 0 {
      var prefix := nodes[..|nodes| - 1];
      var last := nodes[|nodes| - 1];
      ColorNodesSpec(prefix, groups, laneId);
      SubsequenceSnoc(ColorNodes(prefix, groups, laneId), prefix, last);
      assert nodes == prefix + [last];
      if !InLane(groups, laneId, last) {
        assert ColorNodes(nodes, groups, laneId) == ColorNodes(prefix, groups, laneId);
      }
    }
  }

  /** selectNormal's filter drops exactly the instances of some lane, keeping order. */
  lemma {:induction false} UncoloredSpec(nodes: seq<Naming.Instance>, groups: map<string, set<string>>)
    ensures IsSubsequence(Uncolored(nodes, groups), nodes)
    ensures forall x :: x in Uncolored(nodes, groups) <==> x in nodes && !Colored(groups, x)
    decreases |nodes|
  {
    if |nodes| > 0 {
      var prefix := nodes[..|nodes| - 1];
      var last := nodes[|nodes| - 1];
      UncoloredSpec(prefix, groups);
      SubsequenceSnoc(Uncolored(prefix, groups), prefix, last);
      assert nodes == prefix + [last];
      if Colored(groups, last) {
        assert Uncolored(nodes, groups) == Uncolored(prefix, groups);
      }
    }
  }

  /** Whether the callee takes part in a lane: some instance shares application and namespace with one of its groups. */
  predicate Serves(g: LaneGroup, node: Naming.Instance)
  {
    g.applicationId == node.Meta(Naming.ApplicationIdKey) && g.namespaceId == node.Meta(Naming.NamespaceIdKey)
  }

  predicate Participates(lane: LaneInfo, nodes: seq<Naming.Instance>)
  {
    exists i, j :: 0 <= i < |nodes| && 0 <= j < |lane.groupList| && Serves(lane.groupList[j], nodes[i])
  }

  /** The search loops of Select: stop at the first instance served by a group of the lane. */
  method Participation(lane: LaneInfo, nodes: seq<Naming.Instance>) returns (hit: bool)
    ensures hit == Participates(lane, nodes)
  {
    hit := false;
    var i := 0;
    while i < |nodes|
      invariant 0 <= i <= |nodes|
      invariant !hit
      invariant forall i', j :: 0 <= i' < i && 0 <= j < |lane.groupList| ==> !Serves(lane.groupList[j], nodes[i'])
    {
      var node := nodes[i];
      var j := 0;
      while j < |lane.groupList|
        invariant 0 <= j <= |lane.groupList|
        invariant forall j' :: 0 <= j' < j ==> !Serves(lane.groupList[j'], node)
      {
        var group := lane.groupList[j];
        if group.applicationId == node.Meta(Naming.ApplicationIdKey) && group.namespaceId == node.Meta(Naming.NamespaceIdKey) {
          hit := true;
          return;
        }
        j := j + 1;
      }
      i := i + 1;
    }
  }

  // ---- the effective rules ----

  /** Lane rule `a` sorts before `b`: lower priority first, then earlier creation. */
  predicate RuleBefore(a: LaneRule, b: LaneRule)
  {
    a.priority < b.priority || (a.priority == b.priority && a.createTime < b.createTime)
  }

  predicate SortedRules(s: seq<LaneRule>)
  {
    forall i, j :: 0 <= i < j < |s| ==> !RuleBefore(s[j], s[i])
  }

  /** The rules of `rules` whose lane id is in `ids`, in order. */
  function RulesOf(rules: seq<LaneRule>, ids: set<string>): seq<LaneRule>
    decreases |rules|
  {
    if |rules| == 0 then []
    else
      var last := rules[|rules| - 1];
      RulesOf(rules[..|rules| - 1], ids) + (if last.laneId in ids then [last] else [])
  }

  /** Collecting lane by lane gives the rules of every lane visited, whatever the order. */
  lemma {:induction false} RulesOfAddLane(rules: seq<LaneRule>, ids: set<string>, id: string)
    requires id !in ids
    ensures multiset(RulesOf(rules, ids + {id})) == multiset(RulesOf(rules, ids)) + multiset(RulesOf(rules, {id}))
    decreases |rules|
  {
    if |rules| > 0 {
      RulesOfAddLane(rules[..|rules| - 1], ids, id);
    }
  }

  lemma {:induction false} RulesOfNone(rules: seq<LaneRule>)
    ensures RulesOf(rules, {}) == []
    decreases |rules|
  {
    if |rules| > 0 {
      RulesOfNone(rules[..|rules| - 1]);
    }
  }

  lemma {:induction false} RulesOfMembers(rules: seq<LaneRule>, ids: set<string>, x: LaneRule)
    ensures x in RulesOf(rules, ids) <==> x in rules && x.laneId in ids
    decreases |rules|
  {
    if |rules| > 0 {
      RulesOfMembers(rules[..|rules| - 1], ids, x);
      assert rules == rules[..|rules| - 1] + [rules[|rules| - 1]];
    }
  }

  /** Inserting into a sorted list right before the first element that sorts after `x`. */
  method InsertRule(s: seq<LaneRule>, x: LaneRule) returns (r: seq<LaneRule>)
    requires SortedRules(s)
    ensures SortedRules(r) && multiset(r) == multiset(s) + multiset{x}
  {
    var p := 0;
    while p < |s| && !RuleBefore(x, s[p])
      invariant 0 <= p <= |s|
      invariant forall i :: 0 <= i < p ==> !RuleBefore(x, s[i])
    {
      p := p + 1;
    }
    r := s[..p] + [x] + s[p..];
    InsertSorted(s, x, p);
    assert s == s[..p] + s[p..];
  }

  /** x placed before the first element that sorts after it keeps the list sorted. */
  lemma InsertSorted(s: seq<LaneRule>, x: LaneRule, p: nat)
    requires SortedRules(s) && p <= |s|
    requires forall i :: 0 <= i < p ==> !RuleBefore(x, s[i])
    requires p < |s| ==> RuleBefore(x, s[p])
    ensures SortedRules(s[..p] + [x] + s[p..])
  {
    var r := s[..p] + [x] + s[p..];
    forall i, j | 0 <= i < j < |r|
      ensures !RuleBefore(r[j], r[i])
    {
      if j < p {
        assert r[i] == s[i] && r[j] == s[j];
      } else if j == p {
        assert r[i] == s[i] && r[j] == x;
      } else if i < p {
        assert r[i] == s[i] && r[j] == s[j - 1];
      } else if i == p {
        assert r[i] == x && r[j] == s[j - 1];
      } else {
        assert r[i] == s[i - 1] && r[j] == s[j - 1];
      }
    }
  }

  /** Sorting by priority, then creation time; the order of ties is unspecified. */
  method SortRules(s: seq<LaneRule>) returns (r: seq<LaneRule>)
    ensures SortedRules(r) && multiset(r) == multiset(s)
  {
    r := [];
    var i := 0;
    while i < |s|
      invariant 0 <= i <= |s|
      invariant SortedRules(r) && multiset(r) == multiset(s[..i])
    {
      r := InsertRule(r, s[i]);
      assert s[..i + 1] == s[..i] + [s[i]];
      i := i + 1;
    }
    assert s[..i] == s;
  }

  /** The rules of one lane, in order: the inner loop of refreshRules. */
  method RulesForLane(all: seq<LaneRule>, id: string) returns (s: seq<LaneRule>)
    ensures s == RulesOf(all, {id})
  {
    s := [];
    var j := 0;
    while j < |all|
      invariant 0 <= j <= |all|
      invariant s == RulesOf(all[..j], {id})
    {
      assert all[..j + 1][..j] == all[..j];
      if all[j].laneId == id {
        s := s + [all[j]];
      }
      j := j + 1;
    }
    assert all[..j] == all;
  }

  /** The outer loop of refreshRules: lane by lane in map order, the rules of every effective lane. */
  method CollectRules(all: seq<LaneRule>, lanes: map<string, LaneInfo>) returns (collected: seq<LaneRule>)
    requires forall k :: k in lanes ==> lanes[k].id == k
    ensures multiset(collected) == multiset(RulesOf(all, lanes.Keys))
  {
    collected := [];
    RulesOfNone(all);
    var rest := lanes.Keys;
    ghost var done: set<string> := {};
    while rest != {}
      invariant rest + done == lanes.Keys && rest !! done
      invariant multiset(collected) == multiset(RulesOf(all, done))
      decreases |rest|
    {
      var k :| k in rest;
      var lane := lanes[k];
      var more := RulesForLane(all, lane.id);
      RulesOfAddLane(all, done, k);
      collected := collected + more;
      rest := rest - {k};
      done := done + {k};
    }
  }

  /** The three views after visiting the lanes of `order`, in that order. */
  function EffectiveFold(all: map<string, LaneInfo>, localGroup: string, order: seq<string>): map<string, LaneInfo>
    requires forall i :: 0 <= i < |order| ==> order[i] in all
    decreases |order|
  {
    if |order| == 0 then map[]
    else
      var e := EffectiveFold(all, localGroup, order[..|order| - 1]);
      var k := order[|order| - 1];
      if IsEffective(all[k], localGroup) then e[k := all[k]] else e
  }

  function NamespaceFold(all: map<string, LaneInfo>, order: seq<string>): map<string, set<string>>
    requires forall i :: 0 <= i < |order| ==> order[i] in all
    decreases |order|
  {
    if |order| == 0 then map[]
    else
      var k := order[|order| - 1];
      Spread(NamespaceFold(all, order[..|order| - 1]), NamespaceKeys(all[k].groupList), k)
  }

  function GroupFold(all: map<string, LaneInfo>, order: seq<string>): map<string, set<string>>
    requires forall i :: 0 <= i < |order| ==> order[i] in all
    decreases |order|
  {
    if |order| == 0 then map[]
    else
      var k := order[|order| - 1];
      Spread(GroupFold(all, order[..|order| - 1]), GroupKeys(all[k].groupList), k)
  }

  /** Whatever the visiting order, the folds are the views over the lanes visited. */
  lemma {:induction false} FoldViews(all: map<string, LaneInfo>, localGroup: string, order: seq<string>)
    requires forall k :: k in all ==> all[k].id == k
    requires forall i :: 0 <= i < |order| ==> order[i] in all
    ensures EffectiveView(EffectiveFold(all, localGroup, order), all, localGroup, set x | x in order)
    ensures NamespaceView(NamespaceFold(all, order), all, set x | x in order)
    ensures GroupView(GroupFold(all, order), all, set x | x in order)
    decreases |order|
  {
    if |order| > 0 {
      var prefix := order[..|order| - 1];
      var k := order[|order| - 1];
      FoldViews(all, localGroup, prefix);
      assert order == prefix + [k];
      var seen := set x | x in prefix;
      assert (set x | x in order) == seen + {k};
      EffectiveViewStep(EffectiveFold(all, localGroup, prefix), all, localGroup, seen, k);
      NamespaceViewStep(NamespaceFold(all, prefix), all, seen, k);
      GroupViewStep(GroupFold(all, prefix), all, seen, k);
    }
  }

  /** The outer loop of refreshLanes: lane by lane in map order, the three views over every lane. */
  method BuildViews(all: map<string, LaneInfo>, localGroup: string)
    returns (eff: map<string, LaneInfo>, nss: map<string, set<string>>, gs: map<string, set<string>>)
    requires forall k :: k in all ==> all[k].id == k
    ensures EffectiveView(eff, all, localGroup, all.Keys)
    ensures NamespaceView(nss, all, all.Keys)
    ensures GroupView(gs, all, all.Keys)
  {
    eff, nss, gs := map[], map[], map[];
    var rest := all.Keys;
    ghost var order: seq<string> := [];
    while rest != {}
      invariant rest <= all.Keys
      invariant forall i :: 0 <= i < |order| ==> order[i] in all
      invariant forall x :: x in all ==> (x in rest <==> x !in order)
      invariant eff == EffectiveFold(all, localGroup, order)
      invariant nss == NamespaceFold(all, order)
      invariant gs == GroupFold(all, order)
      decreases |rest|
    {
      var k :| k in rest;
      var lane := all[k];
      eff, nss, gs := AddLaneGroups(lane, localGroup, eff, nss, gs);
      rest := rest - {k};
      order := order + [k];
    }
    FoldViews(all, localGroup, order);
    assert (set x | x in order) == all.Keys;
  }

  /** The rule GetLaneID acts on: its lane is known and its tag rule hits. */
  predicate LaneRuleHits(rule: LaneRule, allLanes: map<string, LaneInfo>, ctx: Meta.Context, re: Tag.RegexEngine)
  {
    rule.laneId in allLanes && Tag.RuleHit(ToTagRule(rule), ctx, re)
  }

  /** The first rule (in effective order) whose lane is known and whose tags hit. */
  function FirstLaneHit(rules: seq<LaneRule>, allLanes: map<string, LaneInfo>, ctx: Meta.Context, re: Tag.RegexEngine): (r: Option<nat>)
    ensures r.Some? ==> r.value < |rules| && LaneRuleHits(rules[r.value], allLanes, ctx, re)
    ensures r.Some? ==> forall j :: 0 <= j < r.value ==> !LaneRuleHits(rules[j], allLanes, ctx, re)
    ensures r.None? ==> forall j :: 0 <= j < |rules| ==> !LaneRuleHits(rules[j], allLanes, ctx, re)
    decreases |rules|
  {
    if |rules| == 0 then None
    else if LaneRuleHits(rules[0], allLanes, ctx, re) then Some(0)
    else
      assert forall j :: 1 <= j < |rules| ==> rules[j] == rules[1..][j - 1];
      match FirstLaneHit(rules[1..], allLanes, ctx, re)
      case None => None
      case Some(k) => Some(k + 1)
  }

  /** The lane id a request carries in its system metadata, when it is a non-empty string. */
  function RequestLane(ctx: Meta.Context): (r: Option<string>)
    ensures r.Some? <==> Meta.Sys(ctx, Meta.LaneID).Str? && Meta.Sys(ctx, Meta.LaneID).s != ""
    ensures r.Some? ==> r.value == Meta.Sys(ctx, Meta.LaneID).s
  {
    var v := Meta.Sys(ctx, Meta.LaneID);
    if v.Str? && v.s != "" then Some(v.s) else None
  }

  /** The last decoded item of a batch loop (lane rules or lane infos), and the "last spec failed" flag. */
  function Decoded<T>(specs: seq<ConfigData.Spec>, decode: ConfigData.Data -> Option<T>): (r: seq<T>)
    ensures |r| <= |specs|
    decreases |specs|
  {
    if |specs| == 0 then []
    else
      var d := decode(specs[|specs| - 1].data);
      Decoded(specs[..|specs| - 1], decode) + (if d.Some? then [d.value] else [])
  }

  predicate LastFailed<T>(specs: seq<ConfigData.Spec>, decode: ConfigData.Data -> Option<T>)
  {
    |specs| > 0 && decode(specs[|specs| - 1].data).None?
  }

  /** allLanes as refreshAllLane builds it: every decoded lane under its id, later ones winning. */
  function LaneTable(lanes: seq<LaneInfo>): (m: map<string, LaneInfo>)
    ensures forall k :: k in m ==> m[k].id == k
    decreases |lanes|
  {
    if |lanes| == 0 then map[]
    else LaneTable(lanes[..|lanes| - 1])[lanes[|lanes| - 1].id := lanes[|lanes| - 1]]
  }

  /** Every decoded lane is in the table, and the table holds only decoded lanes. */
  lemma {:induction false} LaneTableSpec(lanes: seq<LaneInfo>)
    ensures forall i :: 0 <= i < |lanes| ==> lanes[i].id in LaneTable(lanes)
    ensures forall k :: k in LaneTable(lanes) ==> LaneTable(lanes)[k] in lanes
    decreases |lanes|
  {
    if |lanes| > 0 {
      LaneTableSpec(lanes[..|lanes| - 1]);
      assert forall i :: 0 <= i < |lanes| - 1 ==> lanes[i] == lanes[..|lanes| - 1][i];
    }
  }

  /** The decode loop of refreshAllRule and refreshAllLane: undecodable specs are skipped; `failed` tells whether the last one was. */
  method DecodeAll<T>(specs: seq<ConfigData.Spec>, decode: ConfigData.Data -> Option<T>) returns (decoded: seq<T>, failed: bool)
    ensures decoded == Decoded(specs, decode) && failed == LastFailed(specs, decode)
  {
    decoded := [];
    failed := false;
    var i := 0;
    while i < |specs|
      invariant 0 <= i <= |specs|
      invariant decoded == Decoded(specs[..i], decode)
      invariant failed == LastFailed(specs[..i], decode)
    {
      assert specs[..i + 1][..i] == specs[..i];
      var d := decode(specs[i].data);
      failed := d.None?;
      if d.Some? {
        decoded := decoded + [d.value];
      }
      i := i + 1;
    }
    assert specs[..i] == specs;
  }

  /** allLanes[lane.ID] = lane for each decoded lane, in order. */
  method KeyById(lanes: seq<LaneInfo>) returns (table: map<string, LaneInfo>)
    ensures table == LaneTable(lanes)
  {
    table := map[];
    var i := 0;
    while i < |lanes|
      invariant 0 <= i <= |lanes|
      invariant table == LaneTable(lanes[..i])
    {
      assert lanes[..i + 1][..i] == lanes[..i];
      table := table[lanes[i].id := lanes[i]];
      i := i + 1;
    }
    assert lanes[..i] == lanes;
  }

  class Lane {
    /** The deployment group this process belongs to. */
    const localGroup: string
    var allRules: seq<LaneRule>
    var allLanes: map<string, LaneInfo>
    var namespaces: map<string, set<string>>
    var groups: map<string, set<string>>
    /** The effective lane rules, sorted. */
    var rules: seq<LaneRule>
    /** The effective lanes. */
    var lanes: map<string, LaneInfo>
    /** Per lane id, whether a callee service takes part in the lane (computed on first use). */
    var services: map<string, map<Naming.Service, bool>>

    /** Both lane maps are keyed by lane id. */
    ghost predicate Valid()
      reads this
    {
      && (forall k :: k in allLanes ==> allLanes[k].id == k)
      && (forall k :: k in lanes ==> lanes[k].id == k)
    }

    constructor (localGroup: string)
      ensures this.localGroup == localGroup && Valid()
      ensures allRules == [] && allLanes == map[] && rules == [] && lanes == map[]
      ensures namespaces == map[] && groups == map[] && services == map[]
    {
      this.localGroup := localGroup;
      allRules := [];
      allLanes := map[];
      namespaces := map[];
      groups := map[];
      rules := [];
      lanes := map[];
      services := map[];
    }

    /** GetLaneID: the id of the lane of the first effective rule whose lane is known and whose tags hit, else "". */
    method GetLaneID(ctx: Meta.Context, re: Tag.RegexEngine) returns (id: string)
      ensures match FirstLaneHit(rules, allLanes, ctx, re)
        case None => id == ""
        case Some(i) => id == allLanes[rules[i].laneId].id
    {
      var i := 0;
      while i < |rules|
        invariant 0 <= i <= |rules|
        invariant forall j :: 0 <= j < i ==> !LaneRuleHits(rules[j], allLanes, ctx, re)
      {
        var rule := rules[i];
        if rule.laneId in allLanes {
          var lane := allLanes[rule.laneId];
          if Tag.RuleHit(ToTagRule(rule), ctx, re) {
            var _ := FirstLaneHit(rules, allLanes, ctx, re);
            assert FirstLaneHit(rules, allLanes, ctx, re) == Some(i);
            return lane.id;
          }
        }
        i := i + 1;
      }
      return "";
    }

    /** selectColor: the instances whose group's lanes include the lane. */
    method SelectColor(nodes: seq<Naming.Instance>, lane: LaneInfo) returns (colors: seq<Naming.Instance>)
      ensures colors == ColorNodes(nodes, groups, lane.id)
    {
      colors := [];
      var i := 0;
      while i < |nodes|
        invariant 0 <= i <= |nodes|
        invariant colors == ColorNodes(nodes[..i], groups, lane.id)
      {
        var node := nodes[i];
        assert nodes[..i + 1][..i] == nodes[..i];
        var groupID := node.Meta(Naming.GroupIdKey);
        if groupID in groups && |groups[groupID]| > 0 {
          if lane.id in groups[groupID] {
            colors := colors + [node];
          }
        }
        i := i + 1;
      }
      assert nodes[..i] == nodes;
    }

    /** selectNormal: unchanged when the namespace has no lanes, else without the instances of any lane. */
    method SelectNormal(svc: Naming.Service, nodes: seq<Naming.Instance>) returns (normal: seq<Naming.Instance>)
      ensures normal == NormalNodes(nodes, namespaces, groups, svc.namespace)
    {
      if svc.namespace !in namespaces || |namespaces[svc.namespace]| == 0 {
        return nodes;
      }
      normal := [];
      var i := 0;
      while i < |nodes|
        invariant 0 <= i <= |nodes|
        invariant normal == Uncolored(nodes[..i], groups)
      {
        var node := nodes[i];
        assert nodes[..i + 1][..i] == nodes[..i];
        var groupID := node.Meta(Naming.GroupIdKey);
        if groupID != "" && groupID in groups && |groups[groupID]| > 0 {
          // a colored instance: skipped
        } else {
          normal := normal + [node];
        }
        i := i + 1;
      }
      assert nodes[..i] == nodes;
    }

    /** The cached participation of `svc` in lane `id`, if any. */
    function Cached(id: string, svc: Naming.Service): Option<bool>
      reads this
    {
      if id in services && svc in services[id] then Some(services[id][svc]) else None
    }

    /**
     * What Select returns in the current state.  Empty input: unchanged.  No
     * lane id: selectNormal.  An unknown lane id: unchanged.  Otherwise a
     * callee that takes part in the lane (as cached, or as computed from the
     * instances) gets the lane's instances, any other selectNormal.
     */
    function Selection(ctx: Meta.Context, svc: Naming.Service, nodes: seq<Naming.Instance>): (r: seq<Naming.Instance>)
      reads this
      ensures IsSubsequence(r, nodes)
    {
      SubsequenceRefl(nodes);
      UncoloredSpec(nodes, groups);
      if |nodes| == 0 then nodes
      else match RequestLane(ctx)
        case None => NormalNodes(nodes, namespaces, groups, svc.namespace)
        case Some(id) =>
          if id !in allLanes then nodes
          else
            var hit := if Cached(id, svc).Some? then Cached(id, svc).value else Participates(allLanes[id], nodes);
            ColorNodesSpec(nodes, groups, allLanes[id].id);
            if hit then ColorNodes(nodes, groups, allLanes[id].id) else NormalNodes(nodes, namespaces, groups, svc.namespace)
    }

    /**
     * Select: returns Selection in the state it starts from.  A lane
     * request for a known lane whose participation is not yet cached
     * computes it and caches it; nothing else changes.
     */
    method Select(ctx: Meta.Context, svc: Naming.Service, nodes: seq<Naming.Instance>) returns (r: seq<Naming.Instance>)
      modifies this
      ensures r == old(Selection(ctx, svc, nodes))
      ensures allRules == old(allRules) && allLanes == old(allLanes) && rules == old(rules) && lanes == old(lanes)
      ensures namespaces == old(namespaces) && groups == old(groups)
      ensures (|nodes| == 0 || RequestLane(ctx).None? || RequestLane(ctx).value !in allLanes || old(Cached(RequestLane(ctx).value, svc)).Some?) ==>
        services == old(services)
      ensures |nodes| > 0 && RequestLane(ctx).Some? && RequestLane(ctx).value in allLanes && old(Cached(RequestLane(ctx).value, svc)).None? ==>
        var id := RequestLane(ctx).value;
        && services == old(services)[id := (if id in old(services) then old(services)[id] else map[])[svc := Participates(allLanes[id], nodes)]]
        && Cached(id, svc) == Some(Participates(allLanes[id], nodes))
    {
      if |nodes| == 0 {
        return nodes;
      }
      var lid := Meta.Sys(ctx, Meta.LaneID);
      if !lid.Str? || lid.s == "" {
        r := SelectNormal(svc, nodes);
        return;
      }
      var laneID := lid.s;
      if laneID !in allLanes {
        return nodes;
      }
      var lane := allLanes[laneID];
      var serviceHit := if laneID in services then services[laneID] else map[];
      var hit: bool;
      if svc in serviceHit {
        hit := serviceHit[svc];
      } else {
        hit := Participation(lane, nodes);
        services := services[laneID := serviceHit[svc := hit]];
      }
      if hit {
        ColorNodesSpec(nodes, groups, lane.id);
        r := SelectColor(nodes, lane);
      } else {
        r := SelectNormal(svc, nodes);
      }
    }

    /**
     * refreshLanes: the effective lanes, the namespace and group views of
     * allLanes; the services cache is cleared.
     */
    method RefreshLanes()
      requires Valid()
      modifies this
      ensures Valid()
      ensures allRules == old(allRules) && allLanes == old(allLanes) && rules == old(rules)
      ensures EffectiveView(lanes, allLanes, localGroup, allLanes.Keys)
      ensures NamespaceView(namespaces, allLanes, allLanes.Keys)
      ensures GroupView(groups, allLanes, allLanes.Keys)
      ensures services == map[]
    {
      var eff, nss, gs := BuildViews(allLanes, localGroup);
      lanes := eff;
      namespaces := nss;
      groups := gs;
      services := map[];
    }

    /**
     * refreshRules: for each effective lane the rules of that lane, then
     * sorted by priority and creation time.
     */
    method RefreshRules()
      requires Valid()
      modifies this
      ensures Valid()
      ensures allRules == old(allRules) && allLanes == old(allLanes) && lanes == old(lanes)
      ensures namespaces == old(namespaces) && groups == old(groups) && services == old(services)
      ensures SortedRules(rules)
      ensures multiset(rules) == multiset(RulesOf(allRules, lanes.Keys))
    {
      var collected := CollectRules(allRules, lanes);
      rules := SortRules(collected);
    }

    /**
     * One round of refreshAllRule after Watch returned: stop on a deadline
     * or a closed client, skip the round on any other error; otherwise the
     * decoded rules replace allRules (unless none decoded and the last spec
     * failed) and the effective rules are rebuilt.
     */
    method RefreshRuleStep(w: ConfigData.WatchOutcome, decode: ConfigData.Data -> Option<LaneRule>) returns (stop: bool)
      requires Valid()
      modifies this
      ensures Valid()
      ensures stop <==> w.DeadlineOrClosed?
      ensures allLanes == old(allLanes) && lanes == old(lanes)
      ensures namespaces == old(namespaces) && groups == old(groups) && services == old(services)
      ensures !w.Specs? ==> allRules == old(allRules) && rules == old(rules)
      ensures w.Specs? ==>
        var decoded := Decoded(w.specs, decode);
        if |decoded| == 0 && LastFailed(w.specs, decode) then allRules == old(allRules) && rules == old(rules)
        else allRules == decoded && SortedRules(rules) && multiset(rules) == multiset(RulesOf(decoded, lanes.Keys))
    {
      stop := w.DeadlineOrClosed?;
      if !w.Specs? {
        return;
      }
      var decoded, failed := DecodeAll(w.specs, decode);
      if |decoded| == 0 && failed {
        return;
      }
      allRules := decoded;
      RefreshRules();
    }

    /**
     * One round of refreshAllLane after Watch returned: stop on a deadline
     * or a closed client, skip the round on any other error; otherwise the
     * decoded lanes, keyed by id, replace allLanes (unless none decoded and
     * the last spec failed), then the views and the effective rules are
     * rebuilt.
     */
    method RefreshLaneStep(w: ConfigData.WatchOutcome, decode: ConfigData.Data -> Option<LaneInfo>) returns (stop: bool)
      requires Valid()
      modifies this
      ensures Valid()
      ensures stop <==> w.DeadlineOrClosed?
      ensures allRules == old(allRules)
      ensures (!w.Specs? || (|LaneTable(Decoded(w.specs, decode))| == 0 && LastFailed(w.specs, decode))) ==>
        && allLanes == old(allLanes) && lanes == old(lanes) && rules == old(rules)
        && namespaces == old(namespaces) && groups == old(groups) && services == old(services)
      ensures w.Specs? && !(|LaneTable(Decoded(w.specs, decode))| == 0 && LastFailed(w.specs, decode)) ==>
        && allLanes == LaneTable(Decoded(w.specs, decode))
        && EffectiveView(lanes, allLanes, localGroup, allLanes.Keys)
        && NamespaceView(namespaces, allLanes, allLanes.Keys)
        && GroupView(groups, allLanes, allLanes.Keys)
        && services == map[]
        && SortedRules(rules) && multiset(rules) == multiset(RulesOf(allRules, lanes.Keys))
    {
      stop := w.DeadlineOrClosed?;
      if !w.Specs? {
        return;
      }
      var decoded, failed := DecodeAll(w.specs, decode);
      var table := KeyById(decoded);
      if |table| == 0 && failed {
        return;
      }
      allLanes := table;
      RefreshLanes();
      RefreshRules();
    }
  }
}
