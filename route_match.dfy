/**
 * matchByRule of route/router/route.go: the instances a hit route rule
 * sends a request to.  Each node is tested against each destination of the
 * rule; a destination matches a node when every one of its items equals the
 * node's metadata value.  Matches are grouped by destination id into
 * weighted buckets, and one bucket is drawn with probability proportional
 * to its weight.
 */
module RouteMatch {
  import opened Seqs
  import Naming
  import RouteRule

  /** A bucket: the instances gathered under one destination id and its weight. */
  datatype Bucket = Bucket(inss: seq<Naming.Instance>, weight: int)

  /** The candidate table and the running weight total. */
  datatype Candidates = Candidates(buckets: map<string, Bucket>, sum: int)

  /** The outcome of matchByRule: the chosen instances (empty for "no match"), or a panic. */
  datatype MatchOutcome = Matched(inss: seq<Naming.Instance>) | Panicked

  /** A destination matches a node when each item's field reads its value in the node's metadata. */
  predicate DestMatches(dest: RouteRule.Dest, node: Naming.Instance)
  {
    forall k :: 0 <= k < |dest.destItemList| ==>
      node.Meta(dest.destItemList[k].destItemField) == dest.destItemList[k].destItemValue
  }

  /**
   * Recording a match of `node` with `dest`: the node joins the bucket of
   * the destination id, the bucket takes this destination's weight, and the
   * total grows by the weight only when the id is new.
   */
  function AddMatch(c: Candidates, node: Naming.Instance, dest: RouteRule.Dest): Candidates
  {
    var prev := if dest.destId in c.buckets then c.buckets[dest.destId] else Bucket([], 0);
    Candidates(c.buckets[dest.destId := Bucket(prev.inss + [node], dest.destWeight)],
               if dest.destId in c.buckets then c.sum else c.sum + dest.destWeight)
  }

  /** The inner loop over the destinations, for one node. */
  function AddNode(c: Candidates, node: Naming.Instance, dests: seq<RouteRule.Dest>): Candidates
    decreases |dests|
  {
    if |dests| == 0 then c
    else
      var c' := AddNode(c, node, dests[..|dests| - 1]);
      var d := dests[|dests| - 1];
      if DestMatches(d, node) then AddMatch(c', node, d) else c'
  }

  /** The outer loop over the nodes. */
  function Collect(nodes: seq<Naming.Instance>, dests: seq<RouteRule.Dest>): Candidates
    decreases |nodes|
  {
    if |nodes| == 0 then Candidates(map[], 0)
    else AddNode(Collect(nodes[..|nodes| - 1], dests), nodes[|nodes| - 1], dests)
  }

  /** The nodes a destination matches, in node order. */
  function Matching(nodes: seq<Naming.Instance>, dest: RouteRule.Dest): seq<Naming.Instance>
    decreases |nodes|
  {
    if |nodes| == 0 then []
    else
      Matching(nodes[..|nodes| - 1], dest)
      + (if DestMatches(dest, nodes[|nodes| - 1]) then [nodes[|nodes| - 1]] else [])
  }

  /** The sum of the bucket weights over a set of ids. */
  ghost function WeightSum(keys: set<string>, buckets: map<string, Bucket>): int
    requires keys <= buckets.Keys
    decreases |keys|
  {
    if keys == {} then 0
    else
      var k :| k in keys;
      buckets[k].weight + WeightSum(keys - {k}, buckets)
  }

  /** The running total equals the sum of the bucket weights: the draw then always lands in a bucket. */
  ghost predicate Consistent(c: Candidates)
  {
    c.sum == WeightSum(c.buckets.Keys, c.buckets)
  }

  predicate DistinctIds(dests: seq<RouteRule.Dest>)
  {
    forall i, j :: 0 <= i < j < |dests| ==> dests[i].destId != dests[j].destId
  }

  predicate NonNegativeWeights(dests: seq<RouteRule.Dest>)
  {
    forall i :: 0 <= i < |dests| ==> dests[i].destWeight >= 0
  }

  lemma {:induction false} WeightSumRemove(keys: set<string>, buckets: map<string, Bucket>, x: string)
    requires x in keys && keys <= buckets.Keys
    ensures WeightSum(keys, buckets) == buckets[x].weight + WeightSum(keys - {x}, buckets)
    decreases |keys|
  {
    var k :| k in keys && WeightSum(keys, buckets) == buckets[k].weight + WeightSum(keys - {k}, buckets);
    if k != x {
      WeightSumRemove(keys - {k}, buckets, x);
      WeightSumRemove(keys - {x}, buckets, k);
      assert keys - {k} - {x} == keys - {x} - {k};
    }
  }

  /** The weight sum only reads the weights of the ids it sums. */
  lemma {:induction false} WeightSumFrame(keys: set<string>, b1: map<string, Bucket>, b2: map<string, Bucket>)
    requires keys <= b1.Keys && keys <= b2.Keys
    requires forall k :: k in keys ==> b1[k].weight == b2[k].weight
    ensures WeightSum(keys, b1) == WeightSum(keys, b2)
    decreases |keys|
  {
    if keys != {} {
      var k :| k in keys && WeightSum(keys, b1) == b1[k].weight + WeightSum(keys - {k}, b1);
      WeightSumRemove(keys, b2, k);
      WeightSumFrame(keys - {k}, b1, b2);
    }
  }

  /** The table holds only destination ids. */
  predicate KeysAreIds(c: Candidates, dests: seq<RouteRule.Dest>)
  {
    forall k :: k in c.buckets ==> exists j :: 0 <= j < |dests| && dests[j].destId == k
  }

  /** The id of destination j is present iff `expected[j]` is non-empty, and then its bucket is `expected[j]` with j's weight. */
  predicate Gathered(c: Candidates, dests: seq<RouteRule.Dest>, expected: seq<seq<Naming.Instance>>)
    requires |expected| == |dests|
  {
    forall j :: 0 <= j < |dests| ==>
      (dests[j].destId in c.buckets <==> expected[j] != []) &&
      (dests[j].destId in c.buckets ==> c.buckets[dests[j].destId] == Bucket(expected[j], dests[j].destWeight))
  }

  /** The bookkeeping invariant of the loops, for distinct destination ids. */
  ghost predicate Tracks(c: Candidates, dests: seq<RouteRule.Dest>, expected: seq<seq<Naming.Instance>>)
    requires |expected| == |dests|
  {
    KeysAreIds(c, dests) && Gathered(c, dests, expected) && Consistent(c)
  }

  /** What each destination has gathered after the first m destinations were tried on `node`. */
  function Expected(prefix: seq<Naming.Instance>, node: Naming.Instance, dests: seq<RouteRule.Dest>, m: nat): (e: seq<seq<Naming.Instance>>)
    ensures |e| == |dests|
  {
    seq(|dests|, j requires 0 <= j < |dests| =>
      if j < m then Matching(prefix + [node], dests[j]) else Matching(prefix, dests[j]))
  }

  lemma MatchingSnoc(prefix: seq<Naming.Instance>, node: Naming.Instance, dest: RouteRule.Dest)
    ensures Matching(prefix + [node], dest) == Matching(prefix, dest) + (if DestMatches(dest, node) then [node] else [])
  {
    assert (prefix + [node])[..|prefix|] == prefix;
  }

  lemma OtherIds(dests: seq<RouteRule.Dest>, idx: nat)
    requires DistinctIds(dests) && idx < |dests|
    ensures forall j :: 0 <= j < |dests| && j != idx ==> dests[j].destId != dests[idx].destId
  {
    forall j | 0 <= j < |dests| && j != idx ensures dests[j].destId != dests[idx].destId {
      if j < idx {
        assert dests[j].destId != dests[idx].destId;
      } else {
        assert dests[idx].destId != dests[j].destId;
      }
    }
  }

  /** Recording one match keeps the invariant, with that destination's expectation grown by the node. */
  lemma AddMatchTracks(c: Candidates, node: Naming.Instance, dests: seq<RouteRule.Dest>, idx: nat,
                       e0: seq<seq<Naming.Instance>>, e1: seq<seq<Naming.Instance>>)
    requires DistinctIds(dests) && idx < |dests|
    requires |e0| == |dests| && |e1| == |dests|
    requires e1[idx] == e0[idx] + [node]
    requires forall j :: 0 <= j < |dests| && j != idx ==> e1[j] == e0[j]
    requires Tracks(c, dests, e0)
    ensures Tracks(AddMatch(c, node, dests[idx]), dests, e1)
  {
    var d := dests[idx];
    var c1 := AddMatch(c, node, d);
    OtherIds(dests, idx);
    assert KeysAreIds(c1, dests) by {
      forall k | k in c1.buckets ensures exists j :: 0 <= j < |dests| && dests[j].destId == k {
        if k != d.destId {
          assert k in c.buckets;
        }
      }
    }
    assert Gathered(c1, dests, e1) by {
      forall j | 0 <= j < |dests|
        ensures (dests[j].destId in c1.buckets <==> e1[j] != [])
        ensures dests[j].destId in c1.buckets ==> c1.buckets[dests[j].destId] == Bucket(e1[j], dests[j].destWeight)
      {
        if j != idx {
          assert dests[j].destId != d.destId;
        } else if d.destId in c.buckets {
          assert c.buckets[d.destId] == Bucket(e0[idx], d.destWeight);
        } else {
          assert e0[idx] == [];
        }
      }
    }
    if d.destId in c.buckets {
      assert c.buckets[d.destId].weight == d.destWeight;
      assert c1.buckets.Keys == c.buckets.Keys;
      WeightSumFrame(c.buckets.Keys, c.buckets, c1.buckets);
    } else {
      assert c1.buckets.Keys - {d.destId} == c.buckets.Keys;
      WeightSumRemove(c1.buckets.Keys, c1.buckets, d.destId);
      WeightSumFrame(c.buckets.Keys, c.buckets, c1.buckets);
    }
  }

  lemma ExpectedStep(prefix: seq<Naming.Instance>, node: Naming.Instance, dests: seq<RouteRule.Dest>, m: nat)
    requires 0 < m <= |dests|
    ensures var e0 := Expected(prefix, node, dests, m - 1);
      var e1 := Expected(prefix, node, dests, m);
      && (forall j :: 0 <= j < |dests| && j != m - 1 ==> e1[j] == e0[j])
      && e0[m - 1] == Matching(prefix, dests[m - 1])
      && e1[m - 1] == Matching(prefix + [node], dests[m - 1])
  {
  }

  lemma SameExpected(e0: seq<seq<Naming.Instance>>, e1: seq<seq<Naming.Instance>>, idx: nat)
    requires |e0| == |e1| && idx < |e0| && e1[idx] == e0[idx] + []
    requires forall j :: 0 <= j < |e0| && j != idx ==> e1[j] == e0[j]
    ensures e1 == e0
  {
    assert e0[idx] + [] == e0[idx];
  }

  /** Trying destination idx on the node keeps the invariant, that destination's expectation growing iff it matches. */
  lemma TryDestTracks(c0: Candidates, node: Naming.Instance, dests: seq<RouteRule.Dest>, idx: nat,
                      e0: seq<seq<Naming.Instance>>, e1: seq<seq<Naming.Instance>>)
    requires DistinctIds(dests) && idx < |dests|
    requires |e0| == |dests| && |e1| == |dests|
    requires e1[idx] == e0[idx] + (if DestMatches(dests[idx], node) then [node] else [])
    requires forall j :: 0 <= j < |dests| && j != idx ==> e1[j] == e0[j]
    requires Tracks(c0, dests, e0)
    ensures Tracks(if DestMatches(dests[idx], node) then AddMatch(c0, node, dests[idx]) else c0, dests, e1)
  {
    if DestMatches(dests[idx], node) {
      AddMatchTracks(c0, node, dests, idx, e0, e1);
    } else {
      SameExpected(e0, e1, idx);
    }
  }

  /** Trying destination idx on the node keeps the invariant. */
  lemma AddNodeStep(c0: Candidates, prefix: seq<Naming.Instance>, node: Naming.Instance,
                    dests: seq<RouteRule.Dest>, idx: nat)
    requires DistinctIds(dests) && idx < |dests|
    requires Tracks(c0, dests, Expected(prefix, node, dests, idx))
    ensures Tracks(if DestMatches(dests[idx], node) then AddMatch(c0, node, dests[idx]) else c0,
                   dests, Expected(prefix, node, dests, idx + 1))
  {
    var e0 := Expected(prefix, node, dests, idx);
    var e1 := Expected(prefix, node, dests, idx + 1);
    ExpectedStep(prefix, node, dests, idx + 1);
    MatchingSnoc(prefix, node, dests[idx]);
    TryDestTracks(c0, node, dests, idx, e0, e1);
  }

  /** The inner loop keeps the invariant, destination by destination. */
  lemma {:induction false} AddNodeTracks(c: Candidates, prefix: seq<Naming.Instance>, node: Naming.Instance,
                                         dests: seq<RouteRule.Dest>, m: nat)
    requires DistinctIds(dests) && m <= |dests|
    requires Tracks(c, dests, Expected(prefix, node, dests, 0))
    ensures Tracks(AddNode(c, node, dests[..m]), dests, Expected(prefix, node, dests, m))
    decreases m
  {
    if m > 0 {
      AddNodeTracks(c, prefix, node, dests, m - 1);
      assert dests[..m][..m - 1] == dests[..m - 1];
      AddNodeStep(AddNode(c, node, dests[..m - 1]), prefix, node, dests, m - 1);
    }
  }

  /** What each destination matches among `nodes`. */
  function Want(nodes: seq<Naming.Instance>, dests: seq<RouteRule.Dest>): (e: seq<seq<Naming.Instance>>)
    ensures |e| == |dests| && forall j :: 0 <= j < |dests| ==> e[j] == Matching(nodes, dests[j])
  {
    seq(|dests|, j requires 0 <= j < |dests| => Matching(nodes, dests[j]))
  }

  /** Before the inner loop every destination has what it matched in the prefix; after it, what it matched with the node too. */
  lemma ExpectedEnds(prefix: seq<Naming.Instance>, node: Naming.Instance, dests: seq<RouteRule.Dest>)
    ensures Expected(prefix, node, dests, 0) == Want(prefix, dests)
    ensures Expected(prefix, node, dests, |dests|) == Want(prefix + [node], dests)
  {
  }

  /** Collect keeps the invariant against the per-destination matches. */
  lemma {:induction false} CollectTracks(nodes: seq<Naming.Instance>, dests: seq<RouteRule.Dest>)
    requires DistinctIds(dests)
    ensures Tracks(Collect(nodes, dests), dests, Want(nodes, dests))
    decreases |nodes|
  {
    if |nodes| == 0 {
      assert Collect(nodes, dests).buckets == map[];
    } else {
      var prefix := nodes[..|nodes| - 1];
      var node := nodes[|nodes| - 1];
      CollectTracks(prefix, dests);
      ExpectedEnds(prefix, node, dests);
      AddNodeTracks(Collect(prefix, dests), prefix, node, dests, |dests|);
      assert dests[..|dests|] == dests;
      assert prefix + [node] == nodes;
    }
  }

  lemma {:induction false} MatchingIsSubsequence(nodes: seq<Naming.Instance>, dest: RouteRule.Dest)
    ensures IsSubsequence(Matching(nodes, dest), nodes)
    decreases |nodes|
  {
    if |nodes| > 0 {
      var prefix := nodes[..|nodes| - 1];
      var x := nodes[|nodes| - 1];
      MatchingIsSubsequence(prefix, dest);
      SubsequenceSnoc(Matching(prefix, dest), prefix, x);
      assert prefix + [x] == nodes;
      if !DestMatches(dest, x) {
        assert Matching(nodes, dest) == Matching(prefix, dest);
      }
    }
  }

  lemma {:induction false} MatchingMembers(nodes: seq<Naming.Instance>, dest: RouteRule.Dest, x: Naming.Instance)
    ensures x in Matching(nodes, dest) <==> x in nodes && DestMatches(dest, x)
    decreases |nodes|
  {
    if |nodes| > 0 {
      MatchingMembers(nodes[..|nodes| - 1], dest, x);
      assert nodes == nodes[..|nodes| - 1] + [nodes[|nodes| - 1]];
    }
  }

  /**
   * With distinct destination ids, the candidate table is the intended
   * one: destination j has a bucket iff it matches some node; the bucket
   * holds exactly the nodes it matches, in input order, with j's weight;
   * and the total is the sum of the bucket weights.
   */
  lemma CandidatesSpec(nodes: seq<Naming.Instance>, dests: seq<RouteRule.Dest>)
    requires DistinctIds(dests)
    ensures var c := Collect(nodes, dests);
      && Consistent(c)
      && (forall k :: k in c.buckets ==> exists j :: 0 <= j < |dests| && dests[j].destId == k)
      && (forall j :: 0 <= j < |dests| ==>
            (dests[j].destId in c.buckets <==> exists n :: n in nodes && DestMatches(dests[j], n)))
      && (forall j :: 0 <= j < |dests| && dests[j].destId in c.buckets ==>
            c.buckets[dests[j].destId] == Bucket(Matching(nodes, dests[j]), dests[j].destWeight))
  {
    CollectTracks(nodes, dests);
    forall j | 0 <= j < |dests|
      ensures Matching(nodes, dests[j]) != [] <==> exists n :: n in nodes && DestMatches(dests[j], n)
    {
      var s := Matching(nodes, dests[j]);
      if s != [] {
        MatchingMembers(nodes, dests[j], s[0]);
      }
      forall n | n in nodes && DestMatches(dests[j], n) ensures n in s {
        MatchingMembers(nodes, dests[j], n);
      }
    }
  }

  /** With distinct ids, every bucket is a subsequence of the input nodes. */
  lemma BucketsAreSubsequences(nodes: seq<Naming.Instance>, dests: seq<RouteRule.Dest>)
    requires DistinctIds(dests)
    ensures forall k :: k in Collect(nodes, dests).buckets ==> IsSubsequence(Collect(nodes, dests).buckets[k].inss, nodes)
  {
    var c := Collect(nodes, dests);
    CandidatesSpec(nodes, dests);
    forall k | k in c.buckets ensures IsSubsequence(c.buckets[k].inss, nodes) {
      var j :| 0 <= j < |dests| && dests[j].destId == k;
      MatchingIsSubsequence(nodes, dests[j]);
    }
  }

  /** Every bucket in the table holds at least one instance. */
  predicate NonEmptyBuckets(c: Candidates)
  {
    forall k :: k in c.buckets ==> c.buckets[k].inss != []
  }

  lemma {:induction false} AddNodeNonEmpty(c: Candidates, node: Naming.Instance, dests: seq<RouteRule.Dest>)
    requires NonEmptyBuckets(c)
    ensures NonEmptyBuckets(AddNode(c, node, dests))
    decreases |dests|
  {
    if |dests| > 0 {
      AddNodeNonEmpty(c, node, dests[..|dests| - 1]);
    }
  }

  /** A bucket is created by its first match, so none is ever empty. */
  lemma {:induction false} CollectNonEmpty(nodes: seq<Naming.Instance>, dests: seq<RouteRule.Dest>)
    ensures NonEmptyBuckets(Collect(nodes, dests))
    decreases |nodes|
  {
    if |nodes| > 0 {
      CollectNonEmpty(nodes[..|nodes| - 1], dests);
      AddNodeNonEmpty(Collect(nodes[..|nodes| - 1], dests), nodes[|nodes| - 1], dests);
    }
  }

  /** The total only ever adds destination weights, so non-negative weights give a non-negative total. */
  lemma {:induction false} AddNodeSumNonNegative(c: Candidates, node: Naming.Instance, dests: seq<RouteRule.Dest>)
    requires NonNegativeWeights(dests) && c.sum >= 0
    ensures AddNode(c, node, dests).sum >= 0
    decreases |dests|
  {
    if |dests| > 0 {
      AddNodeSumNonNegative(c, node, dests[..|dests| - 1]);
    }
  }

  lemma {:induction false} CollectSumNonNegative(nodes: seq<Naming.Instance>, dests: seq<RouteRule.Dest>)
    requires NonNegativeWeights(dests)
    ensures Collect(nodes, dests).sum >= 0
    decreases |nodes|
  {
    if |nodes| > 0 {
      CollectSumNonNegative(nodes[..|nodes| - 1], dests);
      AddNodeSumNonNegative(Collect(nodes[..|nodes| - 1], dests), nodes[|nodes| - 1], dests);
    }
  }

  /**
   * A destination id listed twice with different weights breaks the
   * bookkeeping: the total keeps the first weight while the bucket keeps
   * the last, so the draw can fall past every bucket (matchByRule's
   * "impossible code reached" panic).
   */
  lemma DuplicateIdsInconsistent(node: Naming.Instance)
    ensures var dests := [RouteRule.Dest("a", 10, [], ""), RouteRule.Dest("a", 1, [], "")];
      var c := Collect([node], dests);
      c.sum == 10 && c.buckets.Keys == {"a"} && c.buckets["a"].weight == 1 && !Consistent(c)
  {
    var dests := [RouteRule.Dest("a", 10, [], ""), RouteRule.Dest("a", 1, [], "")];
    var empty := Candidates(map[], 0);
    assert [node][..0] == [];
    assert Collect([node], dests) == AddNode(empty, node, dests);
    assert dests[..1][..0] == [];
    assert DestMatches(dests[0], node) && DestMatches(dests[1], node);
    var c1 := AddNode(empty, node, dests[..1]);
    assert c1 == AddMatch(empty, node, dests[0]);
    assert [] + [node] == [node];
    assert c1 == Candidates(map["a" := Bucket([node], 10)], 10);
    assert dests[..2] == dests;
    assert dests[..2][..1] == dests[..1];
    var c := AddNode(empty, node, dests);
    assert c == AddMatch(c1, node, dests[1]);
    assert [node] + [node] == [node, node];
    assert c == Candidates(map["a" := Bucket([node, node], 1)], 10);
    WeightSumRemove(c.buckets.Keys, c.buckets, "a");
    assert c.buckets.Keys - {"a"} == {};
  }

  /** The item loop of matchByRule: every item is compared, with no early exit. */
  method ItemsMatch(dest: RouteRule.Dest, node: Naming.Instance) returns (matches: bool)
    ensures matches == DestMatches(dest, node)
  {
    matches := true;
    var k := 0;
    while k < |dest.destItemList|
      invariant 0 <= k <= |dest.destItemList|
      invariant matches <==> forall k' :: 0 <= k' < k ==>
        node.Meta(dest.destItemList[k'].destItemField) == dest.destItemList[k'].destItemValue
    {
      var item := dest.destItemList[k];
      if node.Meta(item.destItemField) != item.destItemValue {
        matches := false;
      }
      k := k + 1;
    }
  }

  /** The node and destination loops of matchByRule build Collect's table. */
  method BuildCandidates(nodes: seq<Naming.Instance>, dests: seq<RouteRule.Dest>) returns (c: Candidates)
    ensures c == Collect(nodes, dests)
  {
    c := Candidates(map[], 0);
    var i := 0;
    while i < |nodes|
      invariant 0 <= i <= |nodes|
      invariant c == Collect(nodes[..i], dests)
    {
      var node := nodes[i];
      var j := 0;
      while j < |dests|
        invariant 0 <= j <= |dests|
        invariant c == AddNode(Collect(nodes[..i], dests), node, dests[..j])
      {
        var dest := dests[j];
        var matches := ItemsMatch(dest, node);
        assert dests[..j + 1][..j] == dests[..j];
        if matches {
          var prev := if dest.destId in c.buckets then c.buckets[dest.destId] else Bucket([], 0);
          if dest.destId !in c.buckets {
            c := c.(sum := c.sum + dest.destWeight);
          }
          c := c.(buckets := c.buckets[dest.destId := Bucket(prev.inss + [node], dest.destWeight)]);
        }
        j := j + 1;
      }
      assert dests[..j] == dests;
      assert nodes[..i + 1][..i] == nodes[..i];
      i := i + 1;
    }
    assert nodes[..i] == nodes;
  }

  /** Every bucket weighs at least 0: the prefix sums of the draw loop then only grow. */
  predicate NonNegativeBuckets(c: Candidates)
  {
    forall k :: k in c.buckets ==> c.buckets[k].weight >= 0
  }

  /** The ids among the first n visited in `order`. */
  function Visited(order: seq<string>, n: nat): set<string>
    requires n <= |order|
  {
    if n == 0 then {} else Visited(order, n - 1) + {order[n - 1]}
  }

  lemma {:induction false} VisitedMembers(order: seq<string>, n: nat, k: string)
    requires n <= |order|
    ensures k in Visited(order, n) <==> exists i :: 0 <= i < n && order[i] == k
  {
    if n > 0 {
      VisitedMembers(order, n - 1, k);
    }
  }

  /**
   * What is left of the total in the draw loop after the weights of the
   * first n buckets visited in `order` are subtracted.
   */
  function Left(c: Candidates, order: seq<string>, n: nat): int
    requires n <= |order| && forall i :: 0 <= i < |order| ==> order[i] in c.buckets
  {
    if n == 0 then c.sum else Left(c, order, n - 1) - c.buckets[order[n - 1]].weight
  }

  /** Over a visiting order of every id, the remainder is the total minus the weights visited so far. */
  lemma {:induction false} LeftVisited(c: Candidates, order: seq<string>, n: nat)
    requires IsOrder(order, c.buckets.Keys) && n <= |order|
    ensures Visited(order, n) <= c.buckets.Keys
    ensures Left(c, order, n) == c.sum - WeightSum(Visited(order, n), c.buckets)
  {
    if n > 0 {
      LeftVisited(c, order, n - 1);
      var x := order[n - 1];
      var v := Visited(order, n - 1);
      assert x !in v by {
        VisitedMembers(order, n - 1, x);
      }
      WeightSumRemove(v + {x}, c.buckets, x);
      assert v + {x} - {x} == v;
    }
  }

  /** After the whole order the remainder is the total minus the weight sum: 0 exactly when the table is consistent. */
  lemma LeftAtEnd(c: Candidates, order: seq<string>)
    requires IsOrder(order, c.buckets.Keys)
    ensures Left(c, order, |order|) == c.sum - WeightSum(c.buckets.Keys, c.buckets)
  {
    LeftVisited(c, order, |order|);
    forall k | k in c.buckets.Keys
      ensures k in Visited(order, |order|)
    {
      var i :| 0 <= i < |order| && order[i] == k;
      VisitedMembers(order, |order|, k);
    }
    assert Visited(order, |order|) == c.buckets.Keys;
  }

  /** With non-negative weights the remainder never grows. */
  lemma {:induction false} LeftShrinks(c: Candidates, order: seq<string>, i: nat, j: nat)
    requires IsOrder(order, c.buckets.Keys) && NonNegativeBuckets(c)
    requires i <= j <= |order|
    ensures Left(c, order, j) <= Left(c, order, i)
    decreases j - i
  {
    if i < j {
      LeftShrinks(c, order, i, j - 1);
    }
  }

  /**
   * The draw `cur` takes the j-th bucket visited: subtracting its weight
   * brings the remainder to `cur` or below for the first time.
   */
  ghost predicate Draws(c: Candidates, order: seq<string>, cur: int, j: nat)
    requires IsOrder(order, c.buckets.Keys)
  {
    j < |order| && Left(c, order, j + 1) <= cur && forall i :: 0 < i <= j ==> Left(c, order, i) > cur
  }

  /**
   * The outcome of the draw loop for `cur` and the visiting order `order`:
   * the instances of the bucket `cur` takes, or a panic when the remainder
   * stays above `cur` to the end.
   */
  ghost predicate DrawOutcome(c: Candidates, order: seq<string>, cur: int, res: MatchOutcome)
    requires IsOrder(order, c.buckets.Keys)
  {
    && (res.Matched? ==> exists j: nat :: Draws(c, order, cur, j) && res.inss == c.buckets[order[j]].inss)
    && (res.Panicked? ==> forall i :: 0 < i <= |order| ==> Left(c, order, i) > cur)
  }

  /** With non-negative weights the j-th bucket is taken by exactly the draws in [Left(j + 1), Left(j)). */
  lemma DrawInterval(c: Candidates, order: seq<string>, cur: int, j: nat)
    requires IsOrder(order, c.buckets.Keys) && NonNegativeBuckets(c)
    requires 0 <= cur < c.sum && j < |order|
    ensures Draws(c, order, cur, j) <==> Left(c, order, j + 1) <= cur < Left(c, order, j)
  {
    if Left(c, order, j + 1) <= cur < Left(c, order, j) {
      forall i | 0 < i <= j
        ensures Left(c, order, i) > cur
      {
        LeftShrinks(c, order, i, j);
      }
    }
    if Draws(c, order, cur, j) && j > 0 {
      assert Left(c, order, j) > cur;
    }
  }

  /** How many of the draws 0, 1, ..., n - 1 take the j-th bucket visited. */
  ghost function DrawCount(c: Candidates, order: seq<string>, j: nat, n: int): nat
    requires IsOrder(order, c.buckets.Keys)
    decreases n
  {
    if n <= 0 then 0 else DrawCount(c, order, j, n - 1) + (if Draws(c, order, n - 1, j) then 1 else 0)
  }

  /** The number of draws in [0, n) that fall into the interval [lo, hi). */
  function Overlap(n: int, lo: int, hi: int): int
  {
    if n <= lo then 0 else if n <= hi then n - lo else hi - lo
  }

  lemma {:induction false} DrawCountBelow(c: Candidates, order: seq<string>, j: nat, n: nat)
    requires IsOrder(order, c.buckets.Keys) && NonNegativeBuckets(c)
    requires j < |order| && n <= c.sum && 0 <= Left(c, order, j + 1)
    ensures DrawCount(c, order, j, n) == Overlap(n, Left(c, order, j + 1), Left(c, order, j))
  {
    if n > 0 {
      DrawCountBelow(c, order, j, n - 1);
      DrawInterval(c, order, n - 1, j);
    }
  }

  /**
   * The weighted choice: when the total is the weight sum, whatever the
   * visiting order, the j-th bucket is taken by exactly as many of the
   * draws 0, 1, ..., total - 1 as its weight.
   */
  lemma DrawsProportional(c: Candidates, order: seq<string>, j: nat)
    requires Consistent(c) && NonNegativeBuckets(c)
    requires IsOrder(order, c.buckets.Keys) && j < |order|
    ensures DrawCount(c, order, j, c.sum) == c.buckets[order[j]].weight
  {
    LeftAtEnd(c, order);
    LeftShrinks(c, order, j + 1, |order|);
    LeftShrinks(c, order, 0, j);
    assert Left(c, order, j + 1) == Left(c, order, j) - c.buckets[order[j]].weight;
    DrawCountBelow(c, order, j, c.sum);
  }

  /**
   * The draw loop of matchByRule over a table with a positive total: the
   * buckets are visited in `order`, the map's iteration order, subtracting
   * weights from the total until the remainder is at most `cur`.  The
   * chosen bucket always had positive weight; the loop runs out (a panic)
   * only when the total is not the weight sum.
   */
  method Scan(c: Candidates, order: seq<string>, cur: int) returns (res: MatchOutcome)
    requires 0 <= cur < c.sum && IsOrder(order, c.buckets.Keys)
    ensures DrawOutcome(c, order, cur, res)
    ensures res.Matched? ==> exists k :: k in c.buckets && c.buckets[k].inss == res.inss && c.buckets[k].weight > 0
    ensures res.Panicked? ==> !Consistent(c)
  {
    var sum := c.sum;
    var i := 0;
    while i < |order|
      invariant 0 <= i <= |order|
      invariant sum == Left(c, order, i) && sum > cur
      invariant forall k :: 0 < k <= i ==> Left(c, order, k) > cur
    {
      var k := order[i];
      sum := sum - c.buckets[k].weight;
      if sum <= cur {
        assert Draws(c, order, cur, i);
        return Matched(c.buckets[k].inss);
      }
      i := i + 1;
    }
    LeftAtEnd(c, order);
    return Panicked;
  }

  /**
   * matchByRule.  A zero total gives no instances; a negative total panics
   * (the random draw rejects it); otherwise `draw` picks `cur` in
   * [0, total) and the scan over the iteration order `orderOf` gives for
   * the table's ids picks a bucket.
   */
  method MatchByRule(rule: RouteRule.Rule, nodes: seq<Naming.Instance>, draw: int -> int,
                     orderOf: set<string> -> seq<string>) returns (res: MatchOutcome)
    requires forall n :: n > 0 ==> 0 <= draw(n) < n
    requires forall keys :: IsOrder(orderOf(keys), keys)
    ensures var c := Collect(nodes, rule.destList);
      && (c.sum == 0 ==> res == Matched([]))
      && (c.sum < 0 ==> res == Panicked)
      && (c.sum > 0 ==> DrawOutcome(c, orderOf(c.buckets.Keys), draw(c.sum), res))
      && (c.sum > 0 && res.Matched? ==>
            res.inss != [] &&
            exists k :: k in c.buckets && c.buckets[k].inss == res.inss && c.buckets[k].weight > 0)
      && (c.sum > 0 && res.Panicked? ==> !Consistent(c))
  {
    var c := BuildCandidates(nodes, rule.destList);
    CollectNonEmpty(nodes, rule.destList);
    if c.sum == 0 {
      return Matched([]);
    }
    if c.sum < 0 {
      return Panicked;
    }
    var cur := draw(c.sum);
    res := Scan(c, orderOf(c.buckets.Keys), cur);
  }
}
