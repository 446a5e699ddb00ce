/**
 * Call statistics (pkg/internal/monitor/stat.go) and the minute monitor
 * that groups them and summarises each group (pkg/sys/monitor/monitor.go).
 * Clock readings are parameters, in nanoseconds for call times and in
 * seconds for the report's timestamp.
 */
module StatMonitor {
  import opened Wrappers
  import opened GoStrings

  const CategoryMS: string := "MS"
  const KindClient: string := "CLIENT"
  const KindServer: string := "SERVER"

  datatype Endpoint = Endpoint(serviceName: string, interfaceName: string, verb: string, path: string)

  /** The local part of a hash code. */
  function LocalCode(category: string, kind: string, local: Endpoint): string
  {
    category + kind + local.serviceName + "/" + local.interfaceName
  }

  /** HashCode: the local part, and with a remote endpoint "-" and the remote service and interface. */
  function Code(category: string, kind: string, local: Endpoint, remote: Option<Endpoint>): string
  {
    var hc := LocalCode(category, kind, local);
    if remote.None? then hc else hc + "-" + remote.value.serviceName + "/" + remote.value.interfaceName
  }

  /** The code of a call with a remote endpoint extends the code of the same call without one. */
  lemma LocalCodeIsPrefix(category: string, kind: string, local: Endpoint, remote: Endpoint)
    ensures Code(category, kind, local, None) == LocalCode(category, kind, local)
    ensures HasPrefix(Code(category, kind, local, Some(remote)), Code(category, kind, local, None))
    ensures |Code(category, kind, local, Some(remote))| > |Code(category, kind, local, None)|
  {
    var hc := LocalCode(category, kind, local);
    var tail := "-" + remote.serviceName + "/" + remote.interfaceName;
    assert Code(category, kind, local, Some(remote)) == hc + tail;
    assert (hc + tail)[..|hc|] == hc;
  }

  /**
   * The parts are joined without escaping, so an interface name holding
   * "-" and "/" makes a call without a remote endpoint share its group with
   * one that has a remote endpoint.
   */
  lemma CodesCanCollide()
    ensures Code(CategoryMS, KindClient, Endpoint("a", "b-c/d", "", ""), None)
         == Code(CategoryMS, KindClient, Endpoint("a", "b", "", ""), Some(Endpoint("c", "d", "", "")))
  {
  }

  /** Stat: one call, its times in nanoseconds; End is 0 (the zero time) until Record. */
  class Stat {
    const begin: int
    var end: int
    const category: string
    const kind: string
    const local: Endpoint
    const remote: Option<Endpoint>
    var statusCode: int

    /** NewStat at clock reading `now`: StatusCode 0 and End the zero time. */
    constructor (category: string, kind: string, local: Endpoint, remote: Option<Endpoint>, now: int)
      ensures this.category == category && this.kind == kind && this.local == local && this.remote == remote
      ensures begin == now && end == 0 && statusCode == 0
    {
      begin := now;
      end := 0;
      this.category := category;
      this.kind := kind;
      this.local := local;
      this.remote := remote;
      statusCode := 0;
    }

    /** HashCode: the group the stat is saved under. */
    function HashCode(): string
    {
      Code(category, kind, local, remote)
    }

    /** Record at clock reading `now`: End and StatusCode are set, then the stat is saved with the monitor. */
    method Record(m: Monitor, statusCode: int, now: int)
      requires m.Valid()
      modifies this, m
      ensures end == now && this.statusCode == statusCode && m.Valid()
      ensures m.current == old(m.current)[HashCode() := m.Group(old(m.current), HashCode()) + [this]]
    {
      end := now;
      this.statusCode := statusCode;
      m.SaveStat(this);
    }
  }

  /** The monitor: the stats of the running minute, grouped by hash code. */
  class Monitor {
    var current: map<string, seq<Stat>>

    /** Every stat is filed under its own hash code. */
    predicate Valid()
      reads this
    {
      forall hc, i :: hc in current && 0 <= i < |current[hc]| ==> current[hc][i].HashCode() == hc
    }

    /** Go's m[hc] on a map of slices: nil for a missing key. */
    function Group(groups: map<string, seq<Stat>>, hc: string): seq<Stat>
    {
      if hc in groups then groups[hc] else []
    }

    /** New: nothing saved (the minute ticker is not part of this model). */
    constructor ()
      ensures current == map[] && Valid()
    {
      current := map[];
    }

    /** saveStat: appends to the stat's group, leaving the others untouched. */
    method SaveStat(s: Stat)
      requires Valid()
      modifies this
      ensures Valid()
      ensures current == old(current)[s.HashCode() := Group(old(current), s.HashCode()) + [s]]
    {
      var hc := s.HashCode();
      current := current[hc := Group(current, hc) + [s]];
    }

    /** The swap of run: the stats saved so far are handed over and a fresh empty map takes their place. */
    method Swap() returns (old_: map<string, seq<Stat>>)
      requires Valid()
      modifies this
      ensures old_ == old(current) && current == map[] && Valid()
    {
      old_ := current;
      current := map[];
    }
  }

  /** The stats saved under one code, in saving order, are those saved with that code. */
  lemma GroupsKeepCodes(m: Monitor, hc: string, i: nat)
    requires m.Valid() && hc in m.current && i < |m.current[hc]|
    ensures m.current[hc][i].HashCode() == hc
  {
  }

  /** What dump reads of a recorded stat. */
  datatype Record = Record(category: string, kind: string, local: Endpoint, remote: Option<Endpoint>,
                           statusCode: int, durationNs: int)

  function Snapshot(s: Stat): Record
    reads s
  {
    Record(s.category, s.kind, s.local, s.remote, s.statusCode, s.end - s.begin)
  }

  function Snapshots(stats: seq<Stat>): (r: seq<Record>)
    reads set s | s in stats
    ensures |r| == |stats| && forall i :: 0 <= i < |stats| ==> r[i] == Snapshot(stats[i])
  {
    if stats == [] then [] else Snapshots(stats[..|stats| - 1]) + [Snapshot(stats[|stats| - 1])]
  }

  const Millisecond: int := 1000000

  /** The upper bounds, in milliseconds, of the first ten duration buckets; the eleventh is unbounded. */
  const BoundsMs: seq<int> := [50, 100, 200, 300, 400, 500, 800, 1200, 1600, 2000]

  /** The bucket of a duration: the first whose bound it does not exceed, or the last. */
  function Bucket(durNs: int): (b: nat)
    ensures b <= 10
    ensures b < 10 ==> durNs <= BoundsMs[b] * Millisecond
    ensures 0 < b ==> durNs > BoundsMs[b - 1] * Millisecond
  {
    if durNs <= 50 * Millisecond then 0
    else if durNs <= 100 * Millisecond then 1
    else if durNs <= 200 * Millisecond then 2
    else if durNs <= 300 * Millisecond then 3
    else if durNs <= 400 * Millisecond then 4
    else if durNs <= 500 * Millisecond then 5
    else if durNs <= 800 * Millisecond then 6
    else if durNs <= 1200 * Millisecond then 7
    else if durNs <= 1600 * Millisecond then 8
    else if durNs <= 2000 * Millisecond then 9
    else 10
  }

  /** The bounds increase, so a duration lies in exactly one bucket. */
  lemma BucketIsUnique(durNs: int, b: nat)
    requires b <= 10
    requires b < 10 ==> durNs <= BoundsMs[b] * Millisecond
    requires 0 < b ==> durNs > BoundsMs[b - 1] * Millisecond
    ensures Bucket(durNs) == b
  {
  }

  /** The number of records in bucket b. */
  function BucketCount(rs: seq<Record>, b: nat): (n: nat)
    ensures n <= |rs|
  {
    if rs == [] then 0
    else BucketCount(rs[..|rs| - 1], b) + (if Bucket(rs[|rs| - 1].durationNs) == b then 1 else 0)
  }

  /** The counts of buckets 0 to k-1. */
  function BucketSum(rs: seq<Record>, k: nat): nat
  {
    if k == 0 then 0 else BucketSum(rs, k - 1) + BucketCount(rs, k - 1)
  }

  lemma {:induction false} BucketSumSnoc(rs: seq<Record>, r: Record, k: nat)
    ensures BucketSum(rs + [r], k) == BucketSum(rs, k) + (if Bucket(r.durationNs) < k then 1 else 0)
  {
    assert (rs + [r])[..|rs|] == rs;
    if k > 0 {
      BucketSumSnoc(rs, r, k - 1);
    }
  }

  lemma {:induction false} BucketSumNil(k: nat)
    ensures BucketSum([], k) == 0
  {
    if k > 0 {
      BucketSumNil(k - 1);
    }
  }

  /** The eleven bucket counts add up to the number of records. */
  lemma {:induction false} BucketsSumToCount(rs: seq<Record>)
    ensures BucketSum(rs, 11) == |rs|
  {
    if rs == [] {
      BucketSumNil(11);
    } else {
      var init := rs[..|rs| - 1];
      BucketsSumToCount(init);
      BucketSumSnoc(init, rs[|rs| - 1], 11);
      assert init + [rs[|rs| - 1]] == rs;
    }
  }

  /** The number of records with a status code. */
  function CodeCount(rs: seq<Record>, code: int): (n: nat)
    ensures n <= |rs|
  {
    if rs == [] then 0
    else CodeCount(rs[..|rs| - 1], code) + (if rs[|rs| - 1].statusCode == code then 1 else 0)
  }

  /** The distinct status codes of the records. */
  function CodesOf(rs: seq<Record>): set<int>
  {
    set r | r in rs :: r.statusCode
  }

  /** The status serial's classes. */
  datatype Class = Successful | ClientErr | ServerErr | Unavailable | Timeout | OtherErr

  /** The class of one status code. */
  function ClassOf(code: int): (k: Class)
    ensures k == Successful <==> code == 200
    ensures k == ClientErr <==> code == 400 || code == 499
    ensures k == ServerErr <==> code == 500
    ensures k == Unavailable <==> code == 503 || code == 429 || code == 444
    ensures k == Timeout <==> code == 504
  {
    if code == 200 then Successful
    else if code == 400 || code == 499 then ClientErr
    else if code == 500 then ServerErr
    else if code == 503 || code == 429 || code == 444 then Unavailable
    else if code == 504 then Timeout
    else OtherErr
  }

  /** StatusSerial; the informational, redirection and connect-error counts are never set. */
  datatype StatusSerial = StatusSerial(
    informational: nat, successful: nat, redirection: nat, clientErr: nat, serverErr: nat,
    connErr: nat, timeout: nat, unavailable: nat, otherErr: nat)

  /** The number of codes among `codes` of class k. */
  function ClassCount(codes: set<int>, k: Class): nat
  {
    |set c | c in codes && ClassOf(c) == k|
  }

  /** The serial of a set of codes: each distinct code counted once in its class, whatever its amount. */
  function SerialOf(codes: set<int>): StatusSerial
  {
    StatusSerial(0, ClassCount(codes, Successful), 0, ClassCount(codes, ClientErr), ClassCount(codes, ServerErr),
      0, ClassCount(codes, Timeout), ClassCount(codes, Unavailable), ClassCount(codes, OtherErr))
  }

  lemma ClassCountAdd(codes: set<int>, c: int, k: Class)
    requires c !in codes
    ensures ClassCount(codes + {c}, k) == ClassCount(codes, k) + (if ClassOf(c) == k then 1 else 0)
  {
    var before := set x | x in codes && ClassOf(x) == k;
    if ClassOf(c) == k {
      assert (set x | x in codes + {c} && ClassOf(x) == k) == before + {c};
    } else {
      assert (set x | x in codes + {c} && ClassOf(x) == k) == before;
    }
  }

  /** One entry of the invocation's status code list: the code and how many calls ended with it. */
  datatype StatusCode = StatusCode(code: int, amount: nat)

  /** The invocation block; the average and sum of the durations are floats of the source not modelled. */
  datatype Invocation = Invocation(sumAmount: nat, statusCodes: seq<StatusCode>, serial: StatusSerial, range50: nat)

  datatype MetricItem = MetricItem(
    category: string, kind: string, timestamp: int, period: int,
    local: Endpoint, remote: Option<Endpoint>, invocation: Invocation)

  /** Go's a % 60: the remainder takes the sign of a. */
  function GoRem60(a: int): (r: int)
    ensures -60 < r < 60
    ensures a >= 0 ==> r == a % 60
    ensures a < 0 ==> r == -((-a) % 60)
  {
    if a >= 0 then a % 60 else -((-a) % 60)
  }

  /**
   * The report's timestamp: the Unix time less its remainder by 60, a
   * multiple of 60 within a minute of it (below it for times after 1970,
   * above it for times before, as Go's remainder is truncated).
   */
  function MinuteStamp(now: int): (t: int)
    ensures t % 60 == 0
    ensures now >= 0 ==> t <= now < t + 60
    ensures now < 0 ==> now <= t < now + 60
  {
    var t := now - GoRem60(now);
    assert now < 0 ==> t == -((-now) / 60 * 60);
    t
  }

  /** The sum of the amounts of a status code list. */
  function AmountSum(sc: seq<StatusCode>): nat
  {
    if sc == [] then 0 else AmountSum(sc[..|sc| - 1]) + sc[|sc| - 1].amount
  }

  /** The codes a status code list holds. */
  function CodeSet(sc: seq<StatusCode>): set<int>
  {
    if sc == [] then {} else CodeSet(sc[..|sc| - 1]) + {sc[|sc| - 1].code}
  }

  lemma {:induction false} CodeSetMembers(sc: seq<StatusCode>)
    ensures forall c :: c in CodeSet(sc) <==> exists k :: 0 <= k < |sc| && sc[k].code == c
  {
    if sc != [] {
      var init := sc[..|sc| - 1];
      CodeSetMembers(init);
      assert forall k :: 0 <= k < |init| ==> init[k] == sc[k];
    }
  }

  /** The codes of a status code list never repeat and are exactly the codes of the records, each with its count. */
  predicate CodesCounted(rs: seq<Record>, sc: seq<StatusCode>)
  {
    && (forall i, j :: 0 <= i < j < |sc| ==> sc[i].code != sc[j].code)
    && CodeSet(sc) == CodesOf(rs)
    && (forall k :: 0 <= k < |sc| ==> sc[k].amount == CodeCount(rs, sc[k].code))
  }

  /** dump's metric for a non-empty group read at Unix time `now`. */
  predicate Summarizes(rs: seq<Record>, m: MetricItem, now: int)
  {
    && |rs| > 0
    && m.category == rs[0].category && m.kind == rs[0].kind && m.local == rs[0].local && m.remote == rs[0].remote
    && m.timestamp == MinuteStamp(now) && m.period == 60
    && m.invocation.sumAmount == |rs|
    && CodesCounted(rs, m.invocation.statusCodes)
    && m.invocation.serial == SerialOf(CodesOf(rs))
    && m.invocation.range50 == BucketCount(rs, 0)
  }

  /** The count of a code over sc, one per entry holding it. */
  function Occurrences(sc: seq<StatusCode>, c: int): nat
  {
    if sc == [] then 0 else Occurrences(sc[..|sc| - 1], c) + (if sc[|sc| - 1].code == c then 1 else 0)
  }

  /** Summing the counts over a list: adding a record adds the occurrences of its code. */
  function CountSum(rs: seq<Record>, sc: seq<StatusCode>): nat
  {
    if sc == [] then 0 else CountSum(rs, sc[..|sc| - 1]) + CodeCount(rs, sc[|sc| - 1].code)
  }

  lemma {:induction false} CountSumSnoc(rs: seq<Record>, r: Record, sc: seq<StatusCode>)
    ensures CountSum(rs + [r], sc) == CountSum(rs, sc) + Occurrences(sc, r.statusCode)
  {
    assert (rs + [r])[..|rs|] == rs;
    if sc != [] {
      CountSumSnoc(rs, r, sc[..|sc| - 1]);
    }
  }

  lemma {:induction false} OccursOnce(sc: seq<StatusCode>, c: int)
    requires forall i, j :: 0 <= i < j < |sc| ==> sc[i].code != sc[j].code
    ensures Occurrences(sc, c) == if exists k :: 0 <= k < |sc| && sc[k].code == c then 1 else 0
  {
    if sc != [] {
      var init := sc[..|sc| - 1];
      OccursOnce(init, c);
      if sc[|sc| - 1].code == c {
        assert forall k :: 0 <= k < |init| ==> init[k].code != c by {
          forall k | 0 <= k < |init|
            ensures init[k].code != c
          {
            assert sc[k] == init[k];
          }
        }
      } else {
        assert forall k :: 0 <= k < |init| ==> sc[k] == init[k];
      }
    }
  }

  /** Summing each code's count over a list that holds every code of the records once gives their number. */
  lemma {:induction false} CountSumCovers(rs: seq<Record>, sc: seq<StatusCode>)
    requires forall i, j :: 0 <= i < j < |sc| ==> sc[i].code != sc[j].code
    requires CodesOf(rs) <= CodeSet(sc)
    ensures CountSum(rs, sc) == |rs|
  {
    if rs == [] {
      CountSumZero(sc);
    } else {
      var init := rs[..|rs| - 1];
      var r := rs[|rs| - 1];
      assert init + [r] == rs;
      assert CodesOf(init) <= CodesOf(rs);
      CountSumCovers(init, sc);
      CountSumSnoc(init, r, sc);
      OccursOnce(sc, r.statusCode);
      assert r.statusCode in CodesOf(rs);
      CodeSetMembers(sc);
    }
  }

  lemma {:induction false} CountSumZero(sc: seq<StatusCode>)
    ensures CountSum([], sc) == 0
  {
    if sc != [] {
      CountSumZero(sc[..|sc| - 1]);
    }
  }

  lemma ClassCountEmpty()
    ensures forall k :: ClassCount({}, k) == 0
  {
    forall k: Class
      ensures ClassCount({}, k) == 0
    {
      assert (set x | x in {} && ClassOf(x) == k) == {};
    }
  }

  /**
   * Every distinct code is in exactly one class, so the class counts of a
   * list without repeated codes add up to its length.
   */
  lemma {:induction false} ClassesPartition(sc: seq<StatusCode>)
    requires forall i, j :: 0 <= i < j < |sc| ==> sc[i].code != sc[j].code
    ensures var codes := CodeSet(sc);
      ClassCount(codes, Successful) + ClassCount(codes, ClientErr) + ClassCount(codes, ServerErr)
      + ClassCount(codes, Unavailable) + ClassCount(codes, Timeout) + ClassCount(codes, OtherErr) == |sc|
  {
    if sc == [] {
      assert CodeSet(sc) == {};
      ClassCountEmpty();
    } else {
      var init := sc[..|sc| - 1];
      var c := sc[|sc| - 1].code;
      assert forall k :: 0 <= k < |init| ==> init[k] == sc[k];
      ClassesPartition(init);
      var codes := CodeSet(init);
      assert c !in codes by {
        CodeSetMembers(init);
      }
      assert CodeSet(sc) == codes + {c};
      ClassCountAdd(codes, c, Successful);
      ClassCountAdd(codes, c, ClientErr);
      ClassCountAdd(codes, c, ServerErr);
      ClassCountAdd(codes, c, Unavailable);
      ClassCountAdd(codes, c, Timeout);
      ClassCountAdd(codes, c, OtherErr);
    }
  }

  /** The amounts add up to the number of calls in the group. */
  lemma {:induction false} AmountsSumToCount(rs: seq<Record>, sc: seq<StatusCode>)
    requires CodesCounted(rs, sc)
    ensures AmountSum(sc) == |rs|
  {
    AmountIsCountSum(rs, sc);
    CountSumCovers(rs, sc);
  }

  lemma {:induction false} AmountIsCountSum(rs: seq<Record>, sc: seq<StatusCode>)
    requires forall k :: 0 <= k < |sc| ==> sc[k].amount == CodeCount(rs, sc[k].code)
    ensures AmountSum(sc) == CountSum(rs, sc)
  {
    if sc != [] {
      var init := sc[..|sc| - 1];
      assert forall k :: 0 <= k < |init| ==> init[k] == sc[k];
      AmountIsCountSum(rs, init);
    }
  }

  /** A code no record has is counted 0 times. */
  lemma {:induction false} CodeCountAbsent(rs: seq<Record>, c: int)
    requires c !in CodesOf(rs)
    ensures CodeCount(rs, c) == 0
  {
    if rs != [] {
      var init := rs[..|rs| - 1];
      assert CodesOf(init) <= CodesOf(rs);
      CodeCountAbsent(init, c);
    }
  }

  /**
   * What a metric item of dump says about its group: the per-code amounts
   * add up to the number of calls, each listed code is in exactly one class
   * of the serial, and the timestamp is a whole minute.
   */
  lemma SummaryFacts(rs: seq<Record>, m: MetricItem, now: int)
    requires Summarizes(rs, m, now)
    ensures AmountSum(m.invocation.statusCodes) == m.invocation.sumAmount
    ensures var s := m.invocation.serial;
      s.successful + s.clientErr + s.serverErr + s.unavailable + s.timeout + s.otherErr
        == |m.invocation.statusCodes|
    ensures m.timestamp % 60 == 0 && m.invocation.range50 <= |rs|
  {
    AmountsSumToCount(rs, m.invocation.statusCodes);
    ClassesPartition(m.invocation.statusCodes);
  }

  /** One more record: its code's count and its bucket's count go up by one. */
  lemma CountStep(rs: seq<Record>, i: nat)
    requires i < |rs|
    ensures CodesOf(rs[..i + 1]) == CodesOf(rs[..i]) + {rs[i].statusCode}
    ensures forall c :: CodeCount(rs[..i + 1], c) == CodeCount(rs[..i], c) + (if c == rs[i].statusCode then 1 else 0)
    ensures forall b :: BucketCount(rs[..i + 1], b) == BucketCount(rs[..i], b) + (if b == Bucket(rs[i].durationNs) then 1 else 0)
  {
    assert rs[..i + 1] == rs[..i] + [rs[i]];
    assert rs[..i + 1][..i] == rs[..i];
  }

  /** The first loop of dump: the per-code counts and the eleven duration buckets. */
  method CountGroup(rs: seq<Record>) returns (counts: map<int, nat>, ranges: seq<nat>)
    ensures counts.Keys == CodesOf(rs) && forall c :: c in counts ==> counts[c] == CodeCount(rs, c)
    ensures |ranges| == 11 && forall b :: 0 <= b < 11 ==> ranges[b] == BucketCount(rs, b)
  {
    counts := map[];
    var rangeMs := new nat[11](_ => 0);
    var i := 0;
    while i < |rs|
      invariant 0 <= i <= |rs|
      invariant counts.Keys == CodesOf(rs[..i]) && forall c :: c in counts ==> counts[c] == CodeCount(rs[..i], c)
      invariant forall b :: 0 <= b < 11 ==> rangeMs[b] == BucketCount(rs[..i], b)
    {
      var r := rs[i];
      CountStep(rs, i);
      if r.statusCode !in counts {
        CodeCountAbsent(rs[..i], r.statusCode);
      }
      var prev := if r.statusCode in counts then counts[r.statusCode] else 0;
      counts := counts[r.statusCode := prev + 1];
      var b := Bucket(r.durationNs);
      rangeMs[b] := rangeMs[b] + 1;
      i := i + 1;
    }
    assert rs[..i] == rs;
    ranges := rangeMs[..];
  }

  /** A serial with one more code of class k. */
  function Bump(s: StatusSerial, k: Class): StatusSerial
  {
    match k
    case Successful => s.(successful := s.successful + 1)
    case ClientErr => s.(clientErr := s.clientErr + 1)
    case ServerErr => s.(serverErr := s.serverErr + 1)
    case Unavailable => s.(unavailable := s.unavailable + 1)
    case Timeout => s.(timeout := s.timeout + 1)
    case OtherErr => s.(otherErr := s.otherErr + 1)
  }

  lemma SerialAdd(seen: set<int>, code: int)
    requires code !in seen
    ensures SerialOf(seen + {code}) == Bump(SerialOf(seen), ClassOf(code))
  {
    ClassCountAdd(seen, code, Successful);
    ClassCountAdd(seen, code, ClientErr);
    ClassCountAdd(seen, code, ServerErr);
    ClassCountAdd(seen, code, Unavailable);
    ClassCountAdd(seen, code, Timeout);
    ClassCountAdd(seen, code, OtherErr);
  }

  /** `order` lists every key of the code map once: an order Go's map iteration may take. */
  predicate IsOrder(keys: set<int>, order: seq<int>)
  {
    && (forall i, j :: 0 <= i < j < |order| ==> order[i] != order[j])
    && (forall c :: c in keys ==> c in order)
    && (forall k :: 0 <= k < |order| ==> order[k] in keys)
  }

  /** The codes listed so far are the first i of the order, so the next one is not among them. */
  lemma NextCodeIsNew(sc: seq<StatusCode>, order: seq<int>, i: nat)
    requires |sc| == i < |order| && forall k :: 0 <= k < i ==> sc[k].code == order[k]
    requires forall a, b :: 0 <= a < b < |order| ==> order[a] != order[b]
    ensures order[i] !in CodeSet(sc)
  {
    CodeSetMembers(sc);
  }

  /** One step of ListCodes: the next code of the order is listed and counted in its class. */
  lemma ListStep(sc: seq<StatusCode>, counts: map<int, nat>, order: seq<int>, serial: StatusSerial)
    requires IsOrder(counts.Keys, order) && |sc| < |order|
    requires forall k :: 0 <= k < |sc| ==> sc[k] == StatusCode(order[k], counts[order[k]])
    requires serial == SerialOf(CodeSet(sc))
    ensures var next := sc + [StatusCode(order[|sc|], counts[order[|sc|]])];
      && (forall k :: 0 <= k < |next| ==> next[k] == StatusCode(order[k], counts[order[k]]))
      && Bump(serial, ClassOf(order[|sc|])) == SerialOf(CodeSet(next))
  {
    var code := order[|sc|];
    var next := sc + [StatusCode(code, counts[code])];
    NextCodeIsNew(sc, order, |sc|);
    SerialAdd(CodeSet(sc), code);
    assert next[..|sc|] == sc;
  }

  /** A list of all the codes of the order, in order, holds exactly its keys. */
  lemma ListedAll(sc: seq<StatusCode>, keys: set<int>, order: seq<int>)
    requires IsOrder(keys, order)
    requires |sc| == |order| && forall k :: 0 <= k < |sc| ==> sc[k].code == order[k]
    ensures CodeSet(sc) == keys
    ensures forall i, j :: 0 <= i < j < |sc| ==> sc[i].code != sc[j].code
  {
    CodeSetMembers(sc);
    forall c | c in keys
      ensures c in CodeSet(sc)
    {
      var k :| 0 <= k < |order| && order[k] == c;
      assert sc[k].code == c;
    }
    assert keys <= CodeSet(sc);
    forall c | c in CodeSet(sc)
      ensures c in keys
    {
      var k :| 0 <= k < |sc| && sc[k].code == c;
      assert order[k] == c;
    }
    assert CodeSet(sc) <= keys;
  }

  /**
   * The second loop of dump: the code map visited in the iteration order
   * `order`, each code listed with its amount and counted once in its class.
   */
  method ListCodes(counts: map<int, nat>, order: seq<int>) returns (sc: seq<StatusCode>, serial: StatusSerial)
    requires IsOrder(counts.Keys, order)
    ensures |sc| == |order| && forall k :: 0 <= k < |sc| ==> sc[k] == StatusCode(order[k], counts[order[k]])
    ensures forall i, j :: 0 <= i < j < |sc| ==> sc[i].code != sc[j].code
    ensures CodeSet(sc) == counts.Keys
    ensures serial == SerialOf(counts.Keys)
  {
    sc := [];
    serial := StatusSerial(0, 0, 0, 0, 0, 0, 0, 0, 0);
    var i := 0;
    while i < |order|
      invariant 0 <= i <= |order|
      invariant |sc| == i && forall k :: 0 <= k < i ==> sc[k] == StatusCode(order[k], counts[order[k]])
      invariant serial == SerialOf(CodeSet(sc))
    {
      var code := order[i];
      var entry := StatusCode(code, counts[code]);
      ListStep(sc, counts, order, serial);
      sc := sc + [entry];
      serial := Bump(serial, ClassOf(code));
      i := i + 1;
    }
    ListedAll(sc, counts.Keys, order);
  }

  /** dump for one non-empty group: its metric item, and the eleven bucket counts of which only the first is reported. */
  method DumpGroup(rs: seq<Record>, order: seq<int>, now: int) returns (m: MetricItem, ranges: seq<nat>)
    requires |rs| > 0 && IsOrder(CodesOf(rs), order)
    ensures Summarizes(rs, m, now)
    ensures |ranges| == 11 && forall b :: 0 <= b < 11 ==> ranges[b] == BucketCount(rs, b)
  {
    var counts;
    counts, ranges := CountGroup(rs);
    var sc, serial := ListCodes(counts, order);
    var invocation := Invocation(|rs|, sc, serial, ranges[0]);
    var first := rs[0];
    m := MetricItem(first.category, first.kind, MinuteStamp(now), 60, first.local, first.remote, invocation);
  }

  /** dump: one metric item per non-empty group, none for an empty one; `orders` gives each group's code map iteration order. */
  method Dump(groups: map<string, seq<Record>>, orders: map<string, seq<int>>, now: int)
    returns (metrics: map<string, MetricItem>)
    requires forall hc :: hc in groups ==> hc in orders && IsOrder(CodesOf(groups[hc]), orders[hc])
    ensures metrics.Keys == set hc | hc in groups && |groups[hc]| > 0
    ensures forall hc :: hc in metrics ==> Summarizes(groups[hc], metrics[hc], now)
  {
    metrics := map[];
    var left := groups.Keys;
    while left != {}
      invariant left <= groups.Keys
      invariant metrics.Keys == set hc | hc in groups.Keys - left && |groups[hc]| > 0
      invariant forall hc :: hc in metrics ==> Summarizes(groups[hc], metrics[hc], now)
      decreases |left|
    {
      var hc :| hc in left;
      left := left - {hc};
      if |groups[hc]| > 0 {
        var m, ranges := DumpGroup(groups[hc], orders[hc], now);
        metrics := metrics[hc := m];
      }
    }
  }
}
