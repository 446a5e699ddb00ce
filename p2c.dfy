/**
 * The power-of-two-choices balancer of pkg/balancer/p2c/p2c.go.  Each
 * address has a subConn object holding its statistics; Pick draws two
 * distinct candidates, prefers the one with the lower load relative to its
 * health, and lets the other through when it has not been picked for
 * forceGap.  Time, the random draws and the outcome of compare-and-swap
 * are parameters; the exponential weight and the square root are
 * caller-supplied functions.
 */
module P2c {
  import opened Wrappers
  import Naming
  import GoErrors

  const Name := "p2c"
  /** Time constants, in nanoseconds. */
  const Tau := 800_000_000
  const Penalty := 20_000_000_000
  const ForceGap := 3_000_000_000
  /** A subConn is valid when its health is at least this. */
  const ValidHealth := 500
  const FullSuccess := 1000
  const Two64 := 0x1_0000_0000_0000_0000

  /** uint64 arithmetic: the value modulo 2^64. */
  function U64(x: int): (r: nat)
    ensures r < Two64
    ensures 0 <= x < Two64 ==> r == x
  {
    x % Two64
  }

  /** The statistics of a subConn at one moment. */
  datatype Stats = Stats(lag: nat, success: nat, inflight: int, stamp: int, pick: int, reqs: int)

  /** newSubConn's statistics. */
  const Initial := Stats(0, FullSuccess, 1, 0, 0, 0)

  /**
   * load(): the lag term uint64(sqrt(lag) + 1) times inflight, in uint64
   * arithmetic; when that is 0 the penalty times inflight is used instead.
   */
  function LoadOf(s: Stats, sqrtPlusOne: nat -> nat): nat
  {
    var load := U64(U64(sqrtPlusOne(s.lag)) * U64(s.inflight));
    if load == 0 then U64(Penalty * U64(s.inflight)) else load
  }

  /** Without wrap-around the penalty never applies: the load is 0 only when inflight is 0, and then so is the penalty. */
  lemma PenaltyNeverApplies(s: Stats, sqrtPlusOne: nat -> nat)
    requires sqrtPlusOne(s.lag) >= 1 && 0 <= s.inflight
    requires sqrtPlusOne(s.lag) * s.inflight < Two64
    ensures LoadOf(s, sqrtPlusOne) == sqrtPlusOne(s.lag) * s.inflight
  {
    var t, n := sqrtPlusOne(s.lag), s.inflight;
    if n > 0 {
      MulAtLeast(t, n);
      MulAtLeast(n, t);
      var p := t * n;
      assert U64(t) == t && U64(n) == n && U64(p) == p;
      assert U64(U64(t) * U64(n)) == p;
    } else {
      assert U64(s.inflight) == 0;
    }
  }

  lemma MulAtLeast(x: nat, y: nat)
    requires y >= 1
    ensures x <= x * y
  {
  }

  /** Node B is preferred iff loadA·healthB > loadB·healthA (in uint64 arithmetic); ties go to A. */
  predicate PrefersB(a: Stats, b: Stats, sqrtPlusOne: nat -> nat)
  {
    U64(LoadOf(a, sqrtPlusOne) * b.success) > U64(LoadOf(b, sqrtPlusOne) * a.success)
  }

  /** prePick's second index: drawn from [0, n-1) and shifted past the first. */
  function Shift(b: nat, a: nat): nat
  {
    if b >= a then b + 1 else b
  }

  /** The indices of round r of prePick over n nodes: draws 2r and 2r+1. */
  function Draws(intn: (nat, nat) -> nat, r: nat, n: nat): (nat, nat)
    requires n >= 1
  {
    var a := intn(2 * r, n);
    (a, Shift(intn(2 * r + 1, n - 1), a))
  }

  /** The two indices are distinct and in range. */
  lemma ShiftDistinct(a: nat, b: nat, n: nat)
    requires a < n && b < n - 1
    ensures Shift(b, a) < n && Shift(b, a) != a
  {
  }

  /** Every ordered pair of distinct indices comes from exactly one pair of draws. */
  lemma ShiftCovers(a: nat, c: nat, n: nat)
    requires a < n && c < n && c != a
    ensures var b := if c > a then c - 1 else c; b < n - 1 && Shift(b, a) == c
  {
  }

  lemma MulNonNegative(x: real, y: real)
    requires 0.0 <= x && 0.0 <= y
    ensures 0.0 <= x * y
  {
  }

  /** One EWMA step: the previous value weighted by w and the sample by 1 - w, truncated. */
  function Ewma(prev: nat, sample: nat, w: real): nat
    requires 0.0 <= w <= 1.0
  {
    var v := prev as real * w + sample as real * (1.0 - w);
    assert v >= 0.0 by {
      MulNonNegative(prev as real, w);
      MulNonNegative(sample as real, 1.0 - w);
    }
    v.Floor
  }

  /** The step lands between the old value and the sample. */
  lemma EwmaBetween(prev: nat, sample: nat, w: real)
    requires 0.0 <= w <= 1.0
    ensures prev <= sample ==> prev <= Ewma(prev, sample, w) <= sample
    ensures sample <= prev ==> sample <= Ewma(prev, sample, w) <= prev
  {
    var v := prev as real * w + sample as real * (1.0 - w);
    var d := sample as real - prev as real;
    assert v == sample as real - d * w;
    if prev <= sample {
      MulNonNegative(d, w);
      MulNonNegative(d, 1.0 - w);
      assert d - d * w == d * (1.0 - w);
    } else {
      MulNonNegative(-d, w);
      MulNonNegative(-d, 1.0 - w);
      assert d - d * w == d * (1.0 - w);
    }
  }

  /** With weight 0 the sample is taken as is. */
  lemma EwmaUndecayed(prev: nat, sample: nat)
    ensures Ewma(prev, sample, 0.0) == sample
  {
  }

  /** errors.Is(err, target) for a context sentinel: `target` somewhere along err's Unwrap chain. */
  predicate IsContextError(e: GoErrors.Error, target: GoErrors.Error)
  {
    e == target || (e.Wrapped? && IsContextError(e.inner, target))
  }

  /**
   * The success sample of a finished call as the done callback writes it:
   * errors.Is(context.DeadlineExceeded, di.Err) has its arguments swapped,
   * so it only holds when di.Err is the sentinel itself.
   */
  function SuccessSampleAsWritten(err: Option<GoErrors.Error>, errHandler: Option<GoErrors.Error -> bool>): (r: nat)
    ensures r == 0 || r == FullSuccess
  {
    match err
    case None => FullSuccess
    case Some(e) =>
      if e == GoErrors.DeadlineExceeded || e == GoErrors.Canceled then 0
      else if errHandler.Some? && errHandler.value(e) then 0
      else FullSuccess
  }

  /** A deadline error wrapped once is counted as a success. */
  lemma WrappedDeadlineCountsAsSuccess()
    ensures SuccessSampleAsWritten(Some(GoErrors.Wrapped("rpc", GoErrors.DeadlineExceeded)), None) == FullSuccess
    ensures SuccessSample(Some(GoErrors.Wrapped("rpc", GoErrors.DeadlineExceeded)), None) == 0
  {
  }

  /**
   * The success sample as intended: 0 when the call's error is, or wraps,
   * context.DeadlineExceeded or context.Canceled, or when the error handler
   * reports it; otherwise 1000.
   */
  function SuccessSample(err: Option<GoErrors.Error>, errHandler: Option<GoErrors.Error -> bool>): (r: nat)
    ensures r == 0 || r == FullSuccess
    ensures err.None? ==> r == FullSuccess
    ensures err.Some? && (IsContextError(err.value, GoErrors.DeadlineExceeded) || IsContextError(err.value, GoErrors.Canceled)) ==> r == 0
    ensures err.Some? && errHandler.Some? && errHandler.value(err.value) ==> r == 0
    ensures err.Some? && r == 0 ==> IsContextError(err.value, GoErrors.DeadlineExceeded) || IsContextError(err.value, GoErrors.Canceled) || (errHandler.Some? && errHandler.value(err.value))
  {
    match err
    case None => FullSuccess
    case Some(e) =>
      if IsContextError(e, GoErrors.DeadlineExceeded) || IsContextError(e, GoErrors.Canceled) then 0
      else if errHandler.Some? && errHandler.value(e) then 0
      else FullSuccess
  }

  /** The two agree on every error that is not a wrapped sentinel. */
  lemma SuccessSampleAgreesUnwrapped(err: Option<GoErrors.Error>, errHandler: Option<GoErrors.Error -> bool>)
    requires err.Some? ==> !err.value.Wrapped?
    ensures SuccessSample(err, errHandler) == SuccessSampleAsWritten(err, errHandler)
  {
  }

  /**
   * The done callback as written and as intended differ in the success
   * sample alone: the written test never records a failure the intended one
   * does not, and the two records agree on every field but success, and on
   * every error that is not a wrapped one.
   */
  lemma RecordAsWrittenVsIntended(s: Stats, start: int, now: int, err: Option<GoErrors.Error>,
                                  errHandler: Option<GoErrors.Error -> bool>, decay: nat -> real)
    requires forall td: nat :: 0.0 <= decay(td) <= 1.0
    ensures SuccessSampleAsWritten(err, errHandler) >= SuccessSample(err, errHandler)
    ensures var written := Record(s, start, now, SuccessSampleAsWritten(err, errHandler), decay);
      var intended := Record(s, start, now, SuccessSample(err, errHandler), decay);
      && written.(success := intended.success) == intended
      && ((err.Some? ==> !err.value.Wrapped?) ==> written == intended)
  {
    if err.Some? && !err.value.Wrapped? {
      SuccessSampleAgreesUnwrapped(err, errHandler);
    }
  }

  function Max0(x: int): nat
  {
    if x < 0 then 0 else x
  }

  /**
   * The statistics a done callback leaves: inflight one lower, the stamp
   * moved to `now`, and lag and success one EWMA step towards the call's
   * latency and `sample`, with weight decay(now - stamp), or 0 when no lag
   * was recorded yet.
   */
  function Record(s: Stats, start: int, now: int, sample: nat, decay: nat -> real): Stats
    requires forall td: nat :: 0.0 <= decay(td) <= 1.0
  {
    var w := if s.lag == 0 then 0.0 else decay(Max0(now - s.stamp));
    s.(inflight := s.inflight - 1, stamp := now,
       lag := Ewma(s.lag, Max0(now - start), w), success := Ewma(s.success, sample, w))
  }

  /** The first latency sample is taken as is, and so is the first success sample. */
  lemma RecordFirstSample(s: Stats, start: int, now: int, sample: nat, decay: nat -> real)
    requires forall td: nat :: 0.0 <= decay(td) <= 1.0
    requires s.lag == 0
    ensures Record(s, start, now, sample, decay).lag == Max0(now - start)
    ensures Record(s, start, now, sample, decay).success == sample
  {
    EwmaUndecayed(s.lag, Max0(now - start));
    EwmaUndecayed(s.success, sample);
  }

  /** Health stays within [0, 1000], and a success never lowers it. */
  lemma RecordHealthBounds(s: Stats, start: int, now: int, sample: nat, decay: nat -> real)
    requires forall td: nat :: 0.0 <= decay(td) <= 1.0
    requires s.success <= FullSuccess && sample <= FullSuccess
    ensures Record(s, start, now, sample, decay).success <= FullSuccess
    ensures sample == FullSuccess ==> Record(s, start, now, sample, decay).success >= s.success
    ensures sample == 0 ==> Record(s, start, now, sample, decay).success <= s.success
  {
    var w := if s.lag == 0 then 0.0 else decay(Max0(now - s.stamp));
    EwmaBetween(s.success, sample, w);
  }

  /** A pick (inflight + 1) followed by its done leaves inflight where it was, and touches neither pick nor reqs. */
  lemma RecordUndoesPick(s: Stats, start: int, now: int, sample: nat, decay: nat -> real)
    requires forall td: nat :: 0.0 <= decay(td) <= 1.0
    ensures var r := Record(s.(inflight := s.inflight + 1), start, now, sample, decay);
      r.inflight == s.inflight && r.pick == s.pick && r.reqs == s.reqs
  {
  }

  class SubConn {
    const node: Naming.Instance
    var lag: nat
    var success: nat
    var inflight: int
    var stamp: int
    var pick: int
    var reqs: int

    /** newSubConn. */
    constructor (node: Naming.Instance)
      ensures this.node == node && Snapshot() == Initial
    {
      this.node := node;
      lag := 0;
      success := FullSuccess;
      inflight := 1;
      stamp := 0;
      pick := 0;
      reqs := 0;
    }

    function Snapshot(): Stats
      reads this
    {
      Stats(lag, success, inflight, stamp, pick, reqs)
    }

    /** valid(): health at least 500. */
    predicate Valid()
      reads this
    {
      success >= ValidHealth
    }
  }

  class Picker {
    var subConns: map<string, SubConn>
    const errHandler: Option<GoErrors.Error -> bool>
    /** uint64(math.Sqrt(float64(x)) + 1). */
    const sqrtPlusOne: nat -> nat

    /** Build: one fresh subConn per address; a later node with the same address replaces the earlier one. */
    constructor Build(nodes: seq<Naming.Instance>, errHandler: Option<GoErrors.Error -> bool>, sqrtPlusOne: nat -> nat)
      ensures this.errHandler == errHandler && this.sqrtPlusOne == sqrtPlusOne
      ensures forall k :: k in subConns <==> exists i :: 0 <= i < |nodes| && nodes[i].Addr() == k
      ensures forall k :: k in subConns ==> fresh(subConns[k]) && subConns[k].Snapshot() == Initial
      ensures forall k :: k in subConns ==> subConns[k].node.Addr() == k && subConns[k].node in nodes
    {
      var m: map<string, SubConn> := map[];
      var i := 0;
      while i < |nodes|
        invariant 0 <= i <= |nodes|
        invariant forall k :: k in m ==> fresh(m[k]) && m[k].Snapshot() == Initial && m[k].node.Addr() == k && m[k].node in nodes
        invariant forall k :: k in m <==> exists j :: 0 <= j < i && nodes[j].Addr() == k
      {
        var sc := new SubConn(nodes[i]);
        Naming.AddrKeysSnoc(m, m[nodes[i].Addr() := sc], nodes, i);
        m := m[nodes[i].Addr() := sc];
        i := i + 1;
      }
      subConns := m;
      this.errHandler := errHandler;
      this.sqrtPlusOne := sqrtPlusOne;
    }

    /**
     * One round of prePick on the indices a and b: each side is the table's
     * subConn for its address, or a new one.  A new A is stored under its
     * address; a new B is stored under the address of A's node, not under
     * its own.
     */
    method Draw(nodes: seq<Naming.Instance>, a: nat, b: nat) returns (nodeA: SubConn, nodeB: SubConn)
      requires a < |nodes| && b < |nodes|
      modifies this
      ensures var ka := nodes[a].Addr();
        && (ka in old(subConns) ==> nodeA == old(subConns)[ka])
        && (ka !in old(subConns) ==> fresh(nodeA) && nodeA.node == nodes[a] && nodeA.Snapshot() == Initial)
      ensures var kb := nodes[b].Addr();
        && (kb in old(subConns) ==> nodeB == old(subConns)[kb])
        && (kb !in old(subConns) ==> fresh(nodeB) && nodeB.node == nodes[b] && nodeB.Snapshot() == Initial)
      ensures var ka, kb := nodes[a].Addr(), nodes[b].Addr();
        var t := if ka in old(subConns) then old(subConns) else old(subConns)[ka := nodeA];
        subConns == if kb in old(subConns) then t else t[nodeA.node.Addr() := nodeB]
    {
      var ka, kb := nodes[a].Addr(), nodes[b].Addr();
      var foundA, foundB := ka in subConns, kb in subConns;
      if foundA {
        nodeA := subConns[ka];
      }
      if foundB {
        nodeB := subConns[kb];
      }
      if !foundA {
        nodeA := new SubConn(nodes[a]);
        subConns := subConns[nodeA.node.Addr() := nodeA];
      }
      if !foundB {
        nodeB := new SubConn(nodes[b]);
        subConns := subConns[nodeA.node.Addr() := nodeB];
      }
    }

    /** Round r of prePick: its two draws, then the lookup or creation of both sides. */
    method Round(nodes: seq<Naming.Instance>, intn: (nat, nat) -> nat, r: nat)
      returns (a: nat, b: nat, nodeA: SubConn, nodeB: SubConn)
      requires |nodes| >= 2
      requires forall k: nat, n: nat :: n > 0 ==> intn(k, n) < n
      modifies this
      ensures (a, b) == Draws(intn, r, |nodes|)
      ensures a < |nodes| && b < |nodes| && a != b
      ensures Known(nodeA, old(subConns)) && Known(nodeB, old(subConns))
      ensures forall k :: k in subConns ==> Known(subConns[k], old(subConns))
    {
      a := intn(2 * r, |nodes|);
      var b0 := intn(2 * r + 1, |nodes| - 1);
      b := Shift(b0, a);
      ShiftDistinct(a, b0, |nodes|);
      nodeA, nodeB := Draw(nodes, a, b);
    }

    /**
     * prePick: at most two rounds, stopping after the first whose pair has
     * a valid side.  Round r draws intn(2r, n) and intn(2r+1, n-1).  No
     * subConn's statistics change.
     */
    method PrePick(nodes: seq<Naming.Instance>, intn: (nat, nat) -> nat)
      returns (nodeA: SubConn, nodeB: SubConn, ghost rounds: nat, ghost a: nat, ghost b: nat,
               ghost firstA: SubConn, ghost firstB: SubConn)
      requires |nodes| >= 2
      requires forall k: nat, n: nat :: n > 0 ==> intn(k, n) < n
      modifies this
      ensures rounds == 1 || rounds == 2
      ensures (a, b) == Draws(intn, rounds - 1, |nodes|)
      ensures a < |nodes| && b < |nodes| && a != b
      ensures rounds == 1 ==> firstA == nodeA && firstB == nodeB && (nodeA.Valid() || nodeB.Valid())
      ensures rounds == 2 ==> !firstA.Valid() && !firstB.Valid()
      ensures Known(nodeA, old(subConns)) && Known(nodeB, old(subConns))
      ensures forall k :: k in subConns ==> Known(subConns[k], old(subConns))
    {
      var i := 0;
      var pa: SubConn? := null;
      var pb: SubConn? := null;
      ghost var fa: SubConn? := null;
      ghost var fb: SubConn? := null;
      rounds, a, b := 0, 0, 0;
      while i < 2
        invariant 0 <= i <= 2 && rounds == i
        invariant i > 0 ==> pa != null && pb != null && fa != null && fb != null
        invariant i > 0 ==> (a, b) == Draws(intn, i - 1, |nodes|)
        invariant i > 0 ==> a < |nodes| && b < |nodes| && a != b
        invariant i > 0 ==> !fa.Valid() && !fb.Valid()
        invariant i > 0 ==> Known(pa, old(subConns)) && Known(pb, old(subConns))
        invariant forall k :: k in subConns ==> Known(subConns[k], old(subConns))
      {
        var ia, ib;
        ia, ib, pa, pb := Round(nodes, intn, i);
        a, b := ia, ib;
        if i == 0 {
          fa, fb := pa, pb;
        }
        i := i + 1;
        rounds := i;
        if pa.Valid() || pb.Valid() {
          break;
        }
      }
      nodeA, nodeB, firstA, firstB := pa, pb, fa, fb;
    }

    /**
     * Pick: nothing for no nodes; the table's subConn for a single node
     * (created if missing); otherwise of the pair prePick returns, B when
     * loadA·healthB > loadB·healthA and A otherwise, except that the one not
     * chosen is taken instead when it has not been picked for more than
     * forceGap and the compare-and-swap on its pick stamp succeeds.  The
     * chosen subConn's pick stamp becomes `start` unless the two sides are
     * one object and nothing was forced; its inflight and reqs grow by one.
     * `sa` and `sb` are the two sides' statistics when the pick began.
     */
    method Pick(nodes: seq<Naming.Instance>, intn: (nat, nat) -> nat, start: int, casWins: bool)
      returns (node: Option<Naming.Instance>, pc: SubConn?, ghost nodeA: SubConn?, ghost nodeB: SubConn?,
               ghost sa: Stats, ghost sb: Stats, ghost forced: bool)
      requires forall k: nat, n: nat :: n > 0 ==> intn(k, n) < n
      modifies this, subConns.Values
      ensures |nodes| == 0 ==> node == None && pc == null && subConns == old(subConns)
      ensures |nodes| == 1 ==> var k := nodes[0].Addr();
        && nodeA == pc && nodeB == pc && !forced
        && (k in old(subConns) ==> pc == old(subConns)[k] && subConns == old(subConns))
        && (k !in old(subConns) ==> pc != null && fresh(pc) && pc.node == nodes[0] && subConns == old(subConns)[k := pc])
      ensures |nodes| >= 1 ==> pc != null && nodeA != null && nodeB != null && node == Some(pc.node)
      ensures |nodes| >= 1 ==>
        && (nodeA in old(subConns).Values ==> sa == old(nodeA.Snapshot()))
        && (nodeA !in old(subConns).Values ==> fresh(nodeA) && sa == Initial)
        && (nodeB in old(subConns).Values ==> sb == old(nodeB.Snapshot()))
        && (nodeB !in old(subConns).Values ==> fresh(nodeB) && sb == Initial)
      ensures |nodes| >= 2 ==>
        var preferB := PrefersB(sa, sb, sqrtPlusOne);
        && forced == (casWins && start - (if preferB then sa.pick else sb.pick) > ForceGap)
        && pc == (if preferB != forced then nodeB else nodeA)
      ensures |nodes| >= 1 ==>
        var s := if pc == nodeA then sa else sb;
        var stamped := |nodes| == 1 || forced || nodeA != nodeB;
        pc.Snapshot() == s.(inflight := s.inflight + 1, reqs := s.reqs + 1, pick := if stamped then start else s.pick)
      ensures forall c :: c in old(subConns).Values && c != pc ==> c.Snapshot() == old(c.Snapshot())
    {
      nodeA, nodeB, forced := null, null, false;
      sa, sb := Initial, Initial;
      if |nodes| == 0 {
        return None, null, nodeA, nodeB, sa, sb, forced;
      }
      var upc: SubConn? := null;
      if |nodes| == 1 {
        var k := nodes[0].Addr();
        if k in subConns {
          pc := subConns[k];
        } else {
          pc := new SubConn(nodes[0]);
          subConns := subConns[k := pc];
        }
        nodeA, nodeB := pc, pc;
        sa := pc.Snapshot();
        sb := sa;
      } else {
        var c, u;
        c, u, nodeA, nodeB, sa, sb, forced := Choose(nodes, intn, start, casWins);
        pc, upc := c, u;
      }
      Account(pc, upc, start);
      node := Some(pc.node);
    }

    /**
     * Pick on two or more nodes up to the bookkeeping: prePick's pair, the
     * preferred side `pc` and the other side `upc`, with the forced swap
     * (which stamps upc's pick time) applied.
     */
    method Choose(nodes: seq<Naming.Instance>, intn: (nat, nat) -> nat, start: int, casWins: bool)
      returns (pc: SubConn, upc: SubConn, ghost nodeA: SubConn, ghost nodeB: SubConn,
               ghost sa: Stats, ghost sb: Stats, ghost forced: bool)
      requires |nodes| >= 2
      requires forall k: nat, n: nat :: n > 0 ==> intn(k, n) < n
      modifies this, subConns.Values
      ensures (nodeA in old(subConns).Values ==> sa == old(nodeA.Snapshot()))
        && (nodeA !in old(subConns).Values ==> fresh(nodeA) && sa == Initial)
      ensures (nodeB in old(subConns).Values ==> sb == old(nodeB.Snapshot()))
        && (nodeB !in old(subConns).Values ==> fresh(nodeB) && sb == Initial)
      ensures nodeA == nodeB ==> sa == sb
      ensures var preferB := PrefersB(sa, sb, sqrtPlusOne);
        && upc == (if preferB then nodeA else nodeB)
        && forced == (casWins && start - (if preferB then sa.pick else sb.pick) > ForceGap)
        && pc == (if forced then upc else if preferB then nodeB else nodeA)
      ensures nodeA.Snapshot() == if forced && nodeA == upc then sa.(pick := start) else sa
      ensures nodeB.Snapshot() == if forced && nodeB == upc then sb.(pick := start) else sb
      ensures forall c :: c in old(subConns).Values && c != nodeA && c != nodeB ==> c.Snapshot() == old(c.Snapshot())
    {
      var a, b, rounds, ia, ib, fa, fb := PrePick(nodes, intn);
      nodeA, nodeB := a, b;
      sa, sb := a.Snapshot(), b.Snapshot();
      if PrefersB(a.Snapshot(), b.Snapshot(), sqrtPlusOne) {
        pc, upc := b, a;
      } else {
        pc, upc := a, b;
      }
      var pick := upc.pick;
      forced := false;
      if start - pick > ForceGap && casWins {
        upc.pick := start;
        pc := upc;
        forced := true;
      }
    }

    /** The bookkeeping of Pick on the chosen subConn: pick stamp (unless it is also upc), inflight and reqs. */
    method Account(pc: SubConn, upc: SubConn?, start: int)
      modifies pc
      ensures var s := old(pc.Snapshot());
        pc.Snapshot() == s.(inflight := s.inflight + 1, reqs := s.reqs + 1, pick := if pc != upc then start else s.pick)
    {
      if pc != upc {
        pc.pick := start;
      }
      pc.inflight := pc.inflight + 1;
      pc.reqs := pc.reqs + 1;
    }

    /**
     * The done callback of a pick that began at `start` and finished at
     * `now`: one Record step with the success sample as written (the
     * swapped errors.Is test) and this picker's error handler.  `decay`
     * stands for td ↦ math.Exp(-td/tau).
     */
    method Done(pc: SubConn, start: int, now: int, err: Option<GoErrors.Error>, decay: nat -> real)
      requires forall td: nat :: 0.0 <= decay(td) <= 1.0
      modifies pc
      ensures pc.Snapshot() == Record(old(pc.Snapshot()), start, now, SuccessSampleAsWritten(err, errHandler), decay)
    {
      pc.inflight := pc.inflight - 1;
      var stamp := pc.stamp;
      pc.stamp := now;
      var td := Max0(now - stamp);
      var w := decay(td);
      var lag := Max0(now - start);
      var oldLag := pc.lag;
      if oldLag == 0 {
        w := 0.0;
      }
      pc.lag := Ewma(oldLag, lag, w);
      var sample := SuccessSampleAsWritten(err, errHandler);
      var oldSuc := pc.success;
      pc.success := Ewma(oldSuc, sample, w);
    }
  }

  /**
   * A subConn met during one Pick is either one the table held when the
   * pick began or a new one that nothing has updated yet.
   */
  twostate predicate Known(new c: SubConn, table: map<string, SubConn>)
    reads c
  {
    c in table.Values || (fresh(c) && c.Snapshot() == Initial)
  }
}
