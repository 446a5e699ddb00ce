/**
 * The smooth weighted round-robin balancer of pkg/balancer/wrr/wrr.go.  The
 * table of subConns is fixed at Build (Pick never adds to it), so it is a
 * map from address to the subConn's state, which the picker reassigns.
 * Weights and scores are reals; time, the compare-and-swap outcome, the
 * exponential decay and the map's iteration order are parameters.
 */
module Wrr {
  import opened Wrappers
  import opened Seqs
  import Naming
  import GoErrors
  import P2c

  const Name := "wrr"
  /** Time constants, in nanoseconds. */
  const Tau := 100_000_000
  const Penalty := 20_000_000_000
  const UpdateGap := 1_600_000_000
  /** health() is scaled by 1e7 (in uint64 arithmetic) to make a score. */
  const HealthScale := 10_000_000

  /** A subConn: its node, the statistics the done callback keeps, its score and its current weight. */
  datatype Conn = Conn(node: Naming.Instance, stats: P2c.Stats, score: real, cwt: real)

  /** newSubConn: the initial statistics, score 0 and weight 0. */
  function NewConn(node: Naming.Instance): Conn
  {
    Conn(node, P2c.Initial, 0.0, 0.0)
  }

  /** Every subConn has a call in flight or its initial 1, so EWT divides by a positive number. */
  predicate Flowing(conns: map<string, Conn>)
  {
    forall k :: k in conns ==> conns[k].stats.inflight > 0
  }

  /** EWT: 100/inflight while the score is 0, else score/inflight; positive for a non-negative score. */
  function EWT(c: Conn): (r: real)
    requires c.stats.inflight > 0
    ensures c.score >= 0.0 ==> r > 0.0
  {
    if c.score == 0.0 then 100.0 / c.stats.inflight as real else c.score / c.stats.inflight as real
  }

  /** A subConn's weight after the first loop of Pick: cwt grown by EWT. */
  function Bump(c: Conn): Conn
    requires c.stats.inflight > 0
  {
    c.(cwt := c.cwt + EWT(c))
  }

  function Bumped(conns: map<string, Conn>): (r: map<string, Conn>)
    requires Flowing(conns)
    ensures r.Keys == conns.Keys
  {
    map k | k in conns :: Bump(conns[k])
  }

  predicate InTable(order: seq<string>, conns: map<string, Conn>)
  {
    forall i :: 0 <= i < |order| ==> order[i] in conns
  }

  /** The sum of EWT over the first n keys of `order`: Pick's totalWeight. */
  function Total(conns: map<string, Conn>, order: seq<string>, n: nat): real
    requires Flowing(conns) && InTable(order, conns) && n <= |order|
  {
    if n == 0 then 0.0 else Total(conns, order, n - 1) + EWT(conns[order[n - 1]])
  }

  /** The sum of the current weights over the first n keys of `order`. */
  function CwtSum(conns: map<string, Conn>, order: seq<string>, n: nat): real
    requires InTable(order, conns) && n <= |order|
  {
    if n == 0 then 0.0 else CwtSum(conns, order, n - 1) + conns[order[n - 1]].cwt
  }

  /**
   * The winner among the first n keys of `order`: the position of the
   * largest grown weight, the first one among equals.
   */
  function FirstMax(conns: map<string, Conn>, order: seq<string>, n: nat): (i: nat)
    requires Flowing(conns) && InTable(order, conns) && 0 < n <= |order|
    ensures i < n
  {
    if n == 1 then 0
    else
      var j := FirstMax(conns, order, n - 1);
      if Bump(conns[order[j]]).cwt < Bump(conns[order[n - 1]]).cwt then n - 1 else j
  }

  /** FirstMax is a largest grown weight, and the first of the largest. */
  lemma {:induction false} FirstMaxSpec(conns: map<string, Conn>, order: seq<string>, n: nat)
    requires Flowing(conns) && InTable(order, conns) && 0 < n <= |order|
    ensures var i := FirstMax(conns, order, n);
      && (forall j :: 0 <= j < n ==> Bump(conns[order[j]]).cwt <= Bump(conns[order[i]]).cwt)
      && (forall j :: 0 <= j < i ==> Bump(conns[order[j]]).cwt < Bump(conns[order[i]]).cwt)
  {
    if n > 1 {
      FirstMaxSpec(conns, order, n - 1);
    }
  }

  /** The table after a Pick over `order`: every weight grown, the winner's lowered by the total, its inflight and reqs up by one. */
  function AfterPick(conns: map<string, Conn>, order: seq<string>): map<string, Conn>
    requires Flowing(conns) && InTable(order, conns) && |order| > 0
  {
    var b := Bumped(conns);
    var w := order[FirstMax(conns, order, |order|)];
    var c := b[w];
    b[w := c.(cwt := c.cwt - Total(conns, order, |order|),
              stats := c.stats.(inflight := c.stats.inflight + 1, reqs := c.stats.reqs + 1))]
  }

  /** Growing every weight adds the total to the sum of the weights. */
  lemma {:induction false} BumpedSum(conns: map<string, Conn>, order: seq<string>, n: nat)
    requires Flowing(conns) && InTable(order, conns) && n <= |order|
    ensures InTable(order, Bumped(conns))
    ensures CwtSum(Bumped(conns), order, n) == CwtSum(conns, order, n) + Total(conns, order, n)
  {
    if n > 0 {
      BumpedSum(conns, order, n - 1);
    }
  }

  /** Replacing one key's entry changes the sum over distinct keys by the change in its weight, if the key is among them. */
  lemma {:induction false} ReplaceSum(m: map<string, Conn>, order: seq<string>, n: nat, w: string, c: Conn)
    requires InTable(order, m) && Distinct(order) && w in m && n <= |order|
    ensures InTable(order, m[w := c])
    ensures CwtSum(m[w := c], order, n) == CwtSum(m, order, n) + (if w in order[..n] then c.cwt - m[w].cwt else 0.0)
  {
    if n > 0 {
      ReplaceSum(m, order, n - 1, w, c);
      assert order[..n] == order[..n - 1] + [order[n - 1]];
      if w == order[n - 1] {
        assert w !in order[..n - 1];
      }
    }
  }

  /** Pick conserves the sum of the current weights. */
  lemma PickConservesWeight(conns: map<string, Conn>, order: seq<string>)
    requires Flowing(conns) && IsOrder(order, conns.Keys) && |order| > 0
    ensures InTable(order, AfterPick(conns, order))
    ensures CwtSum(AfterPick(conns, order), order, |order|) == CwtSum(conns, order, |order|)
  {
    var b := Bumped(conns);
    var n := |order|;
    var t := Total(conns, order, n);
    var w := order[FirstMax(conns, order, n)];
    var c := b[w];
    var c' := c.(cwt := c.cwt - t, stats := c.stats.(inflight := c.stats.inflight + 1, reqs := c.stats.reqs + 1));
    assert AfterPick(conns, order) == b[w := c'];
    BumpedSum(conns, order, n);
    ReplaceSum(b, order, n, w, c');
    assert w in order[..n];
    var sb := CwtSum(b, order, n);
    assert CwtSum(b[w := c'], order, n) == sb + (c'.cwt - c.cwt);
  }

  /** The winner has the largest grown weight, earlier keys have strictly less, and only its entry differs from the grown table. */
  lemma PickWinner(conns: map<string, Conn>, order: seq<string>)
    requires Flowing(conns) && IsOrder(order, conns.Keys) && |order| > 0
    ensures var i := FirstMax(conns, order, |order|); var w := order[i];
      && (forall k :: k in conns ==> Bump(conns[k]).cwt <= Bump(conns[w]).cwt)
      && (forall j :: 0 <= j < i ==> Bump(conns[order[j]]).cwt < Bump(conns[w]).cwt)
      && AfterPick(conns, order).Keys == conns.Keys
      && (forall k :: k in conns && k != w ==> AfterPick(conns, order)[k] == Bump(conns[k]))
  {
    var i := FirstMax(conns, order, |order|);
    FirstMaxSpec(conns, order, |order|);
    forall k | k in conns
      ensures Bump(conns[k]).cwt <= Bump(conns[order[i]]).cwt
    {
      var j :| 0 <= j < |order| && order[j] == k;
    }
  }

  /** The table is empty exactly when its iteration order is. */
  lemma OrderEmpty(conns: map<string, Conn>, order: seq<string>)
    requires IsOrder(order, conns.Keys)
    ensures |order| == 0 <==> |conns| == 0
  {
    if |conns| > 0 {
      var k :| k in conns;
      assert k in order;
    }
    if |order| > 0 {
      assert order[0] in conns;
    }
  }

  /** Pick's first loop after n keys: the table with those keys' weights grown, in the loop's own order of updates. */
  function BumpN(conns: map<string, Conn>, order: seq<string>, n: nat): (r: map<string, Conn>)
    requires Flowing(conns) && InTable(order, conns) && n <= |order|
    ensures r.Keys == conns.Keys
  {
    if n == 0 then conns
    else
      var t := BumpN(conns, order, n - 1);
      var k := order[n - 1];
      t[k := Bump(conns[k])]
  }

  /** Over distinct keys, a key's entry after n steps is grown iff it is among the first n. */
  lemma {:induction false} BumpNAt(conns: map<string, Conn>, order: seq<string>, n: nat, k: string)
    requires Flowing(conns) && InTable(order, conns) && n <= |order| && k in conns
    ensures BumpN(conns, order, n)[k] == if k in order[..n] then Bump(conns[k]) else conns[k]
  {
    if n > 0 {
      BumpNAt(conns, order, n - 1, k);
      assert order[..n] == order[..n - 1] + [order[n - 1]];
    }
  }

  lemma BumpNEverything(conns: map<string, Conn>, order: seq<string>)
    requires Flowing(conns) && IsOrder(order, conns.Keys)
    ensures BumpN(conns, order, |order|) == Bumped(conns)
  {
    forall k | k in conns
      ensures BumpN(conns, order, |order|)[k] == Bumped(conns)[k]
    {
      BumpNAt(conns, order, |order|, k);
      assert order[..|order|] == order;
    }
  }

  /** Pick's pc after n keys: replaced whenever the grown weight of the key at hand is strictly larger. */
  function WinN(conns: map<string, Conn>, order: seq<string>, n: nat): (r: Option<nat>)
    requires Flowing(conns) && InTable(order, conns) && n <= |order|
    ensures r.Some? ==> r.value < n
    ensures n > 0 ==> r.Some?
  {
    if n == 0 then None
    else
      var t := BumpN(conns, order, n);
      var w := WinN(conns, order, n - 1);
      if w.None? || t[order[w.value]].cwt < t[order[n - 1]].cwt then Some(n - 1) else w
  }

  /** Over distinct keys, Pick's pc is FirstMax. */
  lemma {:induction false} WinNIsFirstMax(conns: map<string, Conn>, order: seq<string>, n: nat)
    requires Flowing(conns) && InTable(order, conns) && Distinct(order) && 0 < n <= |order|
    ensures WinN(conns, order, n) == Some(FirstMax(conns, order, n))
  {
    if n > 1 {
      WinNIsFirstMax(conns, order, n - 1);
      var j := FirstMax(conns, order, n - 1);
      var t := BumpN(conns, order, n);
      assert order[..n][j] == order[j] && order[..n][n - 1] == order[n - 1];
      BumpNAt(conns, order, n, order[j]);
      BumpNAt(conns, order, n, order[n - 1]);
      assert t[order[j]] == Bump(conns[order[j]]) && t[order[n - 1]] == Bump(conns[order[n - 1]]);
    }
  }

  /** The first loop of Pick over the table in `order`: grown weights, their total, and the winner's position. */
  method AddWeights(conns: map<string, Conn>, order: seq<string>) returns (bumped: map<string, Conn>, total: real, win: Option<nat>)
    requires Flowing(conns) && InTable(order, conns) && Distinct(order)
    ensures bumped == BumpN(conns, order, |order|) && total == Total(conns, order, |order|)
    ensures win == WinN(conns, order, |order|)
  {
    bumped, total, win := conns, 0.0, None;
    var i := 0;
    while i < |order|
      invariant 0 <= i <= |order|
      invariant bumped == BumpN(conns, order, i)
      invariant total == Total(conns, order, i)
      invariant win == WinN(conns, order, i)
    {
      var k := order[i];
      BumpNAt(conns, order, i, k);
      var sc := bumped[k];
      var ewt := EWT(sc);
      total := total + ewt;
      bumped := bumped[k := sc.(cwt := sc.cwt + ewt)];
      if win.None? || bumped[order[win.value]].cwt < bumped[k].cwt {
        win := Some(i);
      }
      i := i + 1;
    }
  }

  /** The first loop's outcome over a whole iteration order: every weight grown, and the pc at the first largest one. */
  lemma FirstLoopResult(conns: map<string, Conn>, order: seq<string>)
    requires Flowing(conns) && IsOrder(order, conns.Keys) && |order| > 0
    ensures BumpN(conns, order, |order|) == Bumped(conns)
    ensures WinN(conns, order, |order|) == Some(FirstMax(conns, order, |order|))
  {
    BumpNEverything(conns, order);
    WinNIsFirstMax(conns, order, |order|);
  }

  /** Every weight grown, then the winner's lowered by the total and its counters raised: AfterPick keeps the table flowing. */
  lemma AfterPickFlowing(conns: map<string, Conn>, order: seq<string>)
    requires Flowing(conns) && InTable(order, conns) && |order| > 0
    ensures AfterPick(conns, order).Keys == conns.Keys && Flowing(AfterPick(conns, order))
  {
  }

  /** The weighted round-robin step of Pick on a non-empty table: the winner's key and node and the new table. */
  method Step(conns: map<string, Conn>, order: seq<string>) returns (w: string, node: Naming.Instance, next: map<string, Conn>)
    requires Flowing(conns) && IsOrder(order, conns.Keys) && |order| > 0
    ensures w == order[FirstMax(conns, order, |order|)] && node == conns[w].node
    ensures next == AfterPick(conns, order)
  {
    var bumped, total, win := AddWeights(conns, order);
    FirstLoopResult(conns, order);
    w := order[win.value];
    var c := bumped[w];
    next := bumped[w := c.(cwt := c.cwt - total,
                           stats := c.stats.(inflight := c.stats.inflight + 1, reqs := c.stats.reqs + 1))];
    node := c.node;
  }

  /** load(): lag + 1 in uint64 arithmetic, or the penalty when that wraps to 0. */
  function Load(s: P2c.Stats): (r: nat)
    ensures r > 0
  {
    var l := P2c.U64(s.lag + 1);
    if l == 0 then Penalty else l
  }

  /** The score the recompute gives a subConn: health·1e7, divided by the load unless lag is ignored. */
  function RawScore(c: Conn, withoutLag: bool): (r: real)
    ensures r >= 0.0
    ensures r > 0.0 <==> P2c.U64(c.stats.success * HealthScale) > 0
  {
    var h := P2c.U64(c.stats.success * HealthScale) as real;
    if withoutLag then h else h / Load(c.stats) as real
  }

  function Raw(conns: map<string, Conn>, withoutLag: bool): (r: map<string, Conn>)
    ensures r.Keys == conns.Keys
  {
    map k | k in conns :: conns[k].(score := RawScore(conns[k], withoutLag))
  }

  /** The number of the first n keys whose raw score is positive. */
  function PosCount(conns: map<string, Conn>, order: seq<string>, n: nat, withoutLag: bool): nat
    requires InTable(order, conns) && n <= |order|
  {
    if n == 0 then 0
    else PosCount(conns, order, n - 1, withoutLag) + (if RawScore(conns[order[n - 1]], withoutLag) > 0.0 then 1 else 0)
  }

  /** The sum of the positive raw scores of the first n keys. */
  function PosTotal(conns: map<string, Conn>, order: seq<string>, n: nat, withoutLag: bool): real
    requires InTable(order, conns) && n <= |order|
  {
    if n == 0 then 0.0
    else
      var r := RawScore(conns[order[n - 1]], withoutLag);
      PosTotal(conns, order, n - 1, withoutLag) + (if r > 0.0 then r else 0.0)
  }

  /** The score after the second loop: a non-positive score becomes a quarter of the average. */
  function Fill(c: Conn, avg: real): Conn
  {
    if c.score <= 0.0 then c.(score := avg / 4.0) else c
  }

  /**
   * The table after a recompute: every score recomputed; then, when at
   * least two are positive, each of the others set to a quarter of the
   * positive ones' average.
   */
  function Rescored(conns: map<string, Conn>, order: seq<string>, withoutLag: bool): map<string, Conn>
    requires InTable(order, conns)
  {
    var raw := Raw(conns, withoutLag);
    var n := PosCount(conns, order, |order|, withoutLag);
    if n < 2 then raw
    else
      var avg := PosTotal(conns, order, |order|, withoutLag) / n as real;
      map k | k in raw :: Fill(raw[k], avg)
  }

  /** With a positive score somewhere, the total of the positive scores is positive. */
  lemma {:induction false} PosTotalPositive(conns: map<string, Conn>, order: seq<string>, n: nat, withoutLag: bool)
    requires InTable(order, conns) && n <= |order|
    ensures PosTotal(conns, order, n, withoutLag) >= 0.0
    ensures PosCount(conns, order, n, withoutLag) > 0 ==> PosTotal(conns, order, n, withoutLag) > 0.0
  {
    if n > 0 {
      PosTotalPositive(conns, order, n - 1, withoutLag);
    }
  }

  /**
   * A recompute keeps every key, node, statistics and weight, and leaves
   * no score negative.
   */
  lemma RescoredKeeps(conns: map<string, Conn>, order: seq<string>, withoutLag: bool)
    requires InTable(order, conns)
    ensures Rescored(conns, order, withoutLag).Keys == conns.Keys
    ensures forall k :: k in conns ==> var c := Rescored(conns, order, withoutLag)[k];
      c.node == conns[k].node && c.stats == conns[k].stats && c.cwt == conns[k].cwt && c.score >= 0.0
  {
    PosTotalPositive(conns, order, |order|, withoutLag);
  }

  /**
   * When at least two scores are positive a recompute leaves every score
   * positive (so no EWT falls back to the fixed 100); otherwise every
   * score is the raw one.
   */
  lemma RescoredScores(conns: map<string, Conn>, order: seq<string>, withoutLag: bool)
    requires InTable(order, conns)
    ensures PosCount(conns, order, |order|, withoutLag) >= 2 ==>
      forall k :: k in conns ==> Rescored(conns, order, withoutLag)[k].score > 0.0
    ensures PosCount(conns, order, |order|, withoutLag) < 2 ==>
      forall k :: k in conns ==> Rescored(conns, order, withoutLag)[k].score == RawScore(conns[k], withoutLag)
  {
    var n := PosCount(conns, order, |order|, withoutLag);
    PosTotalPositive(conns, order, |order|, withoutLag);
    if n >= 2 {
      var avg := PosTotal(conns, order, |order|, withoutLag) / n as real;
      assert avg > 0.0;
    }
  }

  /** The recompute's first loop after n keys: those keys' scores recomputed. */
  function RawN(conns: map<string, Conn>, order: seq<string>, n: nat, withoutLag: bool): (r: map<string, Conn>)
    requires InTable(order, conns) && n <= |order|
    ensures r.Keys == conns.Keys
  {
    if n == 0 then conns
    else
      var k := order[n - 1];
      RawN(conns, order, n - 1, withoutLag)[k := conns[k].(score := RawScore(conns[k], withoutLag))]
  }

  lemma {:induction false} RawNAt(conns: map<string, Conn>, order: seq<string>, n: nat, withoutLag: bool, k: string)
    requires InTable(order, conns) && n <= |order| && k in conns
    ensures RawN(conns, order, n, withoutLag)[k] ==
      if k in order[..n] then conns[k].(score := RawScore(conns[k], withoutLag)) else conns[k]
  {
    if n > 0 {
      RawNAt(conns, order, n - 1, withoutLag, k);
      assert order[..n] == order[..n - 1] + [order[n - 1]];
    }
  }

  /** The recompute's second loop after n keys: those keys' scores filled in. */
  function FillN(raw: map<string, Conn>, order: seq<string>, n: nat, avg: real): (r: map<string, Conn>)
    requires InTable(order, raw) && n <= |order|
    ensures r.Keys == raw.Keys
  {
    if n == 0 then raw
    else
      var k := order[n - 1];
      FillN(raw, order, n - 1, avg)[k := Fill(raw[k], avg)]
  }

  lemma {:induction false} FillNAt(raw: map<string, Conn>, order: seq<string>, n: nat, avg: real, k: string)
    requires InTable(order, raw) && n <= |order| && k in raw
    ensures FillN(raw, order, n, avg)[k] == if k in order[..n] then Fill(raw[k], avg) else raw[k]
  {
    if n > 0 {
      FillNAt(raw, order, n - 1, avg, k);
      assert order[..n] == order[..n - 1] + [order[n - 1]];
    }
  }

  /** The first loop over every key recomputes every score. */
  lemma RawLoopDone(conns: map<string, Conn>, order: seq<string>, withoutLag: bool)
    requires IsOrder(order, conns.Keys)
    ensures RawN(conns, order, |order|, withoutLag) == Raw(conns, withoutLag)
  {
    assert order[..|order|] == order;
    forall k | k in conns
      ensures RawN(conns, order, |order|, withoutLag)[k] == Raw(conns, withoutLag)[k]
    {
      RawNAt(conns, order, |order|, withoutLag, k);
    }
  }

  /** The second loop over every key fills in every non-positive score. */
  lemma FillLoopDone(raw: map<string, Conn>, order: seq<string>, avg: real)
    requires IsOrder(order, raw.Keys)
    ensures FillN(raw, order, |order|, avg) == map k | k in raw :: Fill(raw[k], avg)
  {
    assert order[..|order|] == order;
    forall k | k in raw
      ensures FillN(raw, order, |order|, avg)[k] == Fill(raw[k], avg)
    {
      FillNAt(raw, order, |order|, avg, k);
    }
  }

  /** The recompute's first loop: every score recomputed, with the count and the total of the positive ones. */
  method RawScores(conns: map<string, Conn>, order: seq<string>, withoutLag: bool) returns (m: map<string, Conn>, count: nat, total: real)
    requires InTable(order, conns) && Distinct(order)
    ensures m == RawN(conns, order, |order|, withoutLag)
    ensures count == PosCount(conns, order, |order|, withoutLag)
    ensures total == PosTotal(conns, order, |order|, withoutLag)
  {
    m, count, total := conns, 0, 0.0;
    var i := 0;
    while i < |order|
      invariant 0 <= i <= |order|
      invariant m == RawN(conns, order, i, withoutLag)
      invariant count == PosCount(conns, order, i, withoutLag)
      invariant total == PosTotal(conns, order, i, withoutLag)
    {
      var k := order[i];
      RawNAt(conns, order, i, withoutLag, k);
      var score := RawScore(m[k], withoutLag);
      m := m[k := m[k].(score := score)];
      if score > 0.0 {
        total := total + score;
        count := count + 1;
      }
      i := i + 1;
    }
  }

  /** The recompute's second loop: every non-positive score set to a quarter of the average. */
  method FillScores(raw: map<string, Conn>, order: seq<string>, avg: real) returns (m: map<string, Conn>)
    requires InTable(order, raw) && Distinct(order)
    ensures m == FillN(raw, order, |order|, avg)
  {
    m := raw;
    var i := 0;
    while i < |order|
      invariant 0 <= i <= |order|
      invariant m == FillN(raw, order, i, avg)
    {
      var k := order[i];
      FillNAt(raw, order, i, avg, k);
      if m[k].score <= 0.0 {
        m := m[k := m[k].(score := avg / 4.0)];
      }
      i := i + 1;
    }
  }

  /** The recompute's two loops over the table in `order`. */
  method Rescore(conns: map<string, Conn>, order: seq<string>, withoutLag: bool) returns (r: map<string, Conn>)
    requires IsOrder(order, conns.Keys)
    ensures r == Rescored(conns, order, withoutLag)
  {
    var m, count, total := RawScores(conns, order, withoutLag);
    RawLoopDone(conns, order, withoutLag);
    if count < 2 {
      return m;
    }
    var avg := total / count as real;
    r := FillScores(m, order, avg);
    FillLoopDone(m, order, avg);
  }

  /** Replacing one entry by one with calls in flight keeps the table flowing. */
  lemma KeepsFlowing(conns: map<string, Conn>, key: string, c: Conn)
    requires Flowing(conns) && c.stats.inflight > 0
    ensures Flowing(conns[key := c])
  {
  }

  datatype PickOutcome = NoNode | Picked(key: string, node: Naming.Instance) | NilDereference

  class Picker {
    var conns: map<string, Conn>
    var updateAt: int
    const errHandler: Option<GoErrors.Error -> bool>
    /** Recorded by Build and never consulted. */
    const withoutFlight: bool
    const withoutLag: bool

    /** Build: one new subConn per address, a later node with the same address replacing the earlier one. */
    constructor Build(nodes: seq<Naming.Instance>, errHandler: Option<GoErrors.Error -> bool>,
                      withoutFlight: bool, withoutLag: bool, now: int)
      ensures this.errHandler == errHandler && this.withoutFlight == withoutFlight && this.withoutLag == withoutLag
      ensures updateAt == now && Flowing(conns)
      ensures forall k :: k in conns <==> exists i :: 0 <= i < |nodes| && nodes[i].Addr() == k
      ensures forall k :: k in conns ==> conns[k].node.Addr() == k && conns[k].node in nodes && conns[k] == NewConn(conns[k].node)
    {
      var m: map<string, Conn> := map[];
      var i := 0;
      while i < |nodes|
        invariant 0 <= i <= |nodes|
        invariant forall k :: k in m <==> exists j :: 0 <= j < i && nodes[j].Addr() == k
        invariant forall k :: k in m ==> m[k].node.Addr() == k && m[k].node in nodes && m[k] == NewConn(m[k].node)
      {
        Naming.AddrKeysSnoc(m, m[nodes[i].Addr() := NewConn(nodes[i])], nodes, i);
        m := m[nodes[i].Addr() := NewConn(nodes[i])];
        i := i + 1;
      }
      conns := m;
      updateAt := now;
      this.errHandler := errHandler;
      this.withoutFlight := withoutFlight;
      this.withoutLag := withoutLag;
    }

    /**
     * Pick: no node for an empty list; otherwise the smooth weighted
     * round-robin step over the whole table (not over `nodes`), which
     * dereferences nil when the table is empty.
     */
    method Pick(nodes: seq<Naming.Instance>, order: seq<string>) returns (out: PickOutcome)
      requires Flowing(conns) && IsOrder(order, conns.Keys)
      modifies this
      ensures Flowing(conns) && conns.Keys == old(conns).Keys && updateAt == old(updateAt)
      ensures |nodes| == 0 ==> out == NoNode && conns == old(conns)
      ensures |nodes| > 0 && |old(conns)| == 0 ==> out == NilDereference && conns == old(conns)
      ensures |nodes| > 0 && |old(conns)| > 0 ==>
        && |order| > 0
        && var w := order[FirstMax(old(conns), order, |order|)];
           out == Picked(w, old(conns)[w].node) && conns == AfterPick(old(conns), order)
    {
      if |nodes| == 0 {
        return NoNode;
      }
      OrderEmpty(conns, order);
      if |order| == 0 {
        return NilDereference;
      }
      var w, node, next := Step(conns, order);
      AfterPickFlowing(conns, order);
      conns := next;
      out := Picked(w, node);
    }

    /**
     * The done callback of the pick of `key` that began at `start`: one
     * Record step on its statistics with the success sample as written
     * (the swapped errors.Is test; `decay` stands for td ↦
     * math.Exp(-td/tau)); then, when updateGap has passed since updateAt
     * and the compare-and-swap on updateAt wins, updateAt moves to `now`
     * and every score is recomputed.
     */
    method Done(key: string, start: int, now: int, err: Option<GoErrors.Error>, decay: nat -> real,
                casWins: bool, order: seq<string>)
      requires key in conns && conns[key].stats.inflight >= 2 && Flowing(conns) && IsOrder(order, conns.Keys)
      requires forall td: nat :: 0.0 <= decay(td) <= 1.0
      modifies this
      ensures Flowing(conns) && conns.Keys == old(conns).Keys
      ensures var c := old(conns)[key];
        var m := old(conns)[key := c.(stats := P2c.Record(c.stats, start, now, P2c.SuccessSampleAsWritten(err, errHandler), decay))];
        var gate := now - old(updateAt) >= UpdateGap && casWins;
        && conns == (if gate then Rescored(m, order, withoutLag) else m)
        && updateAt == (if gate then now else old(updateAt))
    {
      var c := conns[key];
      var sample := P2c.SuccessSampleAsWritten(err, errHandler);
      var st := P2c.Record(c.stats, start, now, sample, decay);
      KeepsFlowing(conns, key, c.(stats := st));
      conns := conns[key := c.(stats := st)];
      var u := updateAt;
      if now - u < UpdateGap {
        return;
      }
      if !casWins {
        return;
      }
      updateAt := now;
      RescoredKeeps(conns, order, withoutLag);
      conns := Rescore(conns, order, withoutLag);
    }
  }
}
