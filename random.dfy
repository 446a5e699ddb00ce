/**
 * The random pickers of pkg/balancer/random/random.go and
 * balancer/random/random.go, which differ only in their schema name.  The
 * draw rand.Intn(len(nodes)) is a parameter; the picker holds no state and
 * its done callback does nothing.
 */
module Random {
  import opened Wrappers
  import Naming

  /** Schema of pkg/balancer/random. */
  const Name := "random"
  /** Schema of balancer/random. */
  const TsfName := "tsf-random"

  /** Pick: no node for an empty list, else the node at the drawn index (as its index). */
  function Pick(nodes: seq<Naming.Instance>, draw: nat): (r: Option<nat>)
    requires |nodes| > 0 ==> draw < |nodes|
    ensures r.None? <==> |nodes| == 0
    ensures r.Some? ==> r.value < |nodes|
    ensures |nodes| > 0 ==> r == Some(draw)
  {
    if |nodes| == 0 then None else Some(draw)
  }

  /** Every node is picked by exactly one draw in range: the uniform pick of rand.Intn. */
  lemma EveryNodeReachable(nodes: seq<Naming.Instance>, i: nat)
    requires i < |nodes|
    ensures exists d: nat :: d < |nodes| && Pick(nodes, d) == Some(i)
    ensures forall d: nat :: d < |nodes| ==> (Pick(nodes, d) == Some(i) <==> d == i)
  {
    assert Pick(nodes, i) == Some(i);
  }
}
