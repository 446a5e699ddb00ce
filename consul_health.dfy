/**
 * What the two consul naming clients (pkg/naming/consul/consul.go and
 * naming/consul/discovery.go) share around consul's health endpoint: the
 * node comparison, the classification of a health query's reply, the
 * namespace query parameters and the decision each poll of `subscribe`
 * makes.  The HTTP call itself is left out; its reply is an input.
 */
module ConsulHealth {
  import opened Wrappers
  import opened Strconv
  import GoErrors
  import StatusCodes
  import ConsulWatch

  /** The fields of a CheckServiceNode the clients read: Service.ID, Service.Service, Address, Meta and Port. */
  datatype ServiceNode = ServiceNode(id: string, service: string, address: string, meta: map<string, string>, port: int)

  /** compare: two entries are equal iff their address, id and port are; metadata and name are ignored. */
  predicate Compare(a: ServiceNode, b: ServiceNode)
  {
    a.address == b.address && a.id == b.id && a.port == b.port
  }

  /** compare is an equivalence, and it does not look at metadata. */
  lemma CompareEquivalence(a: ServiceNode, b: ServiceNode, c: ServiceNode)
    ensures Compare(a, a)
    ensures Compare(a, b) == Compare(b, a)
    ensures Compare(a, b) && Compare(b, c) ==> Compare(a, c)
    ensures Compare(a, a.(meta := b.meta, service := b.service))
  {
  }

  /** Some entry of `prev` compares equal to `n`. */
  predicate Covered(prev: seq<ServiceNode>, n: ServiceNode)
  {
    exists m :: 0 <= m < |prev| && Compare(prev[m], n)
  }

  /** What compareNodes decides: equal lengths, and every new entry has an equal old entry. */
  predicate SameNodes(prev: seq<ServiceNode>, next: seq<ServiceNode>)
  {
    |prev| == |next| && forall k :: 0 <= k < |next| ==> Covered(prev, next[k])
  }

  /**
   * compareNodes(old, new): false at once when the lengths differ; then,
   * for each new entry in turn, a scan of all old entries, returning false
   * at the first new entry none of them matches.
   */
  method CompareNodes(prev: seq<ServiceNode>, next: seq<ServiceNode>) returns (equal: bool)
    ensures equal <==> SameNodes(prev, next)
  {
    if |prev| != |next| {
      return false;
    }
    var i := 0;
    while i < |next|
      invariant 0 <= i <= |next|
      invariant forall k :: 0 <= k < i ==> Covered(prev, next[k])
    {
      var ok := false;
      var j := 0;
      while j < |prev|
        invariant 0 <= j <= |prev|
        invariant ok <==> exists m :: 0 <= m < j && Compare(prev[m], next[i])
      {
        if Compare(prev[j], next[i]) {
          ok := true;
        }
        j := j + 1;
      }
      if !ok {
        assert !Covered(prev, next[i]);
        return false;
      }
      i := i + 1;
    }
    return true;
  }

  /** A reply that only reorders the entries compares equal. */
  lemma SameNodesPermutation(prev: seq<ServiceNode>, next: seq<ServiceNode>)
    requires multiset(prev) == multiset(next)
    ensures SameNodes(prev, next)
  {
    assert |prev| == |multiset(prev)| == |next|;
    forall k | 0 <= k < |next|
      ensures Covered(prev, next[k])
    {
      assert next[k] in multiset(next);
      assert next[k] in prev;
      var m :| 0 <= m < |prev| && prev[m] == next[k];
      assert Compare(prev[m], next[k]);
    }
  }

  /**
   * compareNodes counts matches, not entries: an old list of two distinct
   * nodes and a new list holding the first of them twice compare equal,
   * while the reverse comparison does not.
   */
  lemma SameNodesIgnoresMultiplicity(a: ServiceNode, b: ServiceNode)
    requires !Compare(a, b)
    ensures SameNodes([a, b], [a, a])
    ensures !SameNodes([a, a], [a, b])
  {
    assert Compare([a, b][0], [a, a][0]) && Compare([a, b][0], [a, a][1]);
    assert [a, b][1] == b;
    assert forall m :: 0 <= m < 2 ==> [a, a][m] == a;
  }

  /** The reply of the HTTP query: its error, its header (canonical key to first value) and the decoded body. */
  datatype Reply = Reply(err: Option<GoErrors.Error>, header: Option<map<string, string>>, nodes: seq<ServiceNode>)

  /**
   * Why healthService failed: the query's own error, or a StatusError with
   * code 500 for an X-Consul-Index that does not parse or a reply with no
   * header at all.
   */
  datatype FetchError = Transport(e: GoErrors.Error) | IndexInvalid(text: string) | NoHeader

  /** healthService's three results. */
  datatype Outcome = Outcome(nodes: seq<ServiceNode>, index: int, err: Option<FetchError>)

  const IndexHeader: string := "X-Consul-Index"

  /** http.Header.Get: the value, or "" when the key is absent. */
  function HeaderGet(h: map<string, string>, key: string): string
  {
    if key in h then h[key] else ""
  }

  /** strconv.ParseInt(s, 10, 64)'s value and whether it reported no error. */
  function ParseIndex(s: string): int
  {
    ParseInt(s, MaxUint64, MaxInt64 + 1)
  }

  predicate IndexOk(s: string)
  {
    ParseIntOk(s, MaxUint64, MaxInt64 + 1)
  }

  /**
   * healthService after its query: a NotFound StatusError counts as
   * success; any other error is returned as is (index 0); then the
   * X-Consul-Index header is parsed, where a missing header or a value that
   * does not parse is an error (the index then being what ParseInt gave).
   * The decoded nodes are returned in every case.
   */
  function HealthService(r: Reply): (o: Outcome)
    ensures o.nodes == r.nodes
    ensures o.err.None? <==>
      && (r.err.None? || StatusCodes.IsKind(StatusCodes.NotFound, r.err))
      && r.header.Some? && IndexOk(HeaderGet(r.header.value, IndexHeader))
    ensures (o.err.Some? && o.err.value.Transport?) <==>
      r.err.Some? && !StatusCodes.IsKind(StatusCodes.NotFound, r.err)
    ensures o.err.Some? && o.err.value.Transport? ==> Some(o.err.value.e) == r.err && o.index == 0
    ensures o.err == Some(NoHeader) ==> r.header.None? && o.index == 0
    ensures o.err.Some? && o.err.value.IndexInvalid? ==>
      r.header.Some? && o.err.value.text == HeaderGet(r.header.value, IndexHeader)
  {
    if r.err.Some? && !StatusCodes.IsKind(StatusCodes.NotFound, r.err) then
      Outcome(r.nodes, 0, Some(Transport(r.err.value)))
    else if r.header.None? then
      Outcome(r.nodes, 0, Some(NoHeader))
    else
      var text := HeaderGet(r.header.value, IndexHeader);
      Outcome(r.nodes, ParseIndex(text), if IndexOk(text) then None else Some(IndexInvalid(text)))
  }

  /** A reply whose header carries the decimal form of an int64 index yields exactly that index and the nodes. */
  lemma HealthServiceIndex(err: Option<GoErrors.Error>, h: map<string, string>, nodes: seq<ServiceNode>, index: int)
    requires err.None? || StatusCodes.IsKind(StatusCodes.NotFound, err)
    requires MinInt64 <= index <= MaxInt64
    requires IndexHeader in h && h[IndexHeader] == FormatInt(index)
    ensures HealthService(Reply(err, Some(h), nodes)) == Outcome(nodes, index, None)
  {
    ParseIntOkFormat(index, MaxUint64, MaxInt64 + 1);
    ParseIntFormat(index, MaxUint64, MaxInt64 + 1);
  }

  /** A reply without the index header is an error, whatever else it holds. */
  lemma HealthServiceNeedsIndex(err: Option<GoErrors.Error>, h: map<string, string>, nodes: seq<ServiceNode>)
    requires IndexHeader !in h
    ensures HealthService(Reply(err, Some(h), nodes)).err.Some?
  {
    assert !IndexOk("");
  }

  /** The namespace and app parameters healthService appends to the query. */
  datatype Param = NsTypeGlobal | Nid(ns: string) | Uid(app: string)

  function RenderParam(p: Param): string
  {
    match p
    case NsTypeGlobal => "&nsType=GLOBAL"
    case Nid(ns) => "&nid=" + ns
    case Uid(app) => "&uid=" + app
  }

  /**
   * The query rule: a service in another namespace than the process's
   * (TSF_NAMESPACE_ID) asks for GLOBAL when `global` holds and for its own
   * namespace otherwise; any other service asks for the client's configured
   * namespace when there is one; the app id follows when it is set.  What
   * `global` tests differs between the two clients.
   */
  function QueryParams(svcNs: string, envNs: string, confNs: string, appId: string, global: bool): (ps: seq<Param>)
    ensures var foreign := svcNs != "" && svcNs != envNs;
      && (NsTypeGlobal in ps <==> foreign && global)
      && (forall ns :: Nid(ns) in ps <==> (foreign && !global && ns == svcNs) || (!foreign && confNs != "" && ns == confNs))
      && (forall app :: Uid(app) in ps <==> appId != "" && app == appId)
    ensures |ps| <= 2 && (|ps| == 2 ==> !ps[0].Uid? && ps[1].Uid?)
  {
    var ns := if svcNs != "" && svcNs != envNs then (if global then [NsTypeGlobal] else [Nid(svcNs)])
              else if confNs != "" then [Nid(confNs)] else [];
    ns + (if appId != "" then [Uid(appId)] else [])
  }

  /** Only one namespace parameter is ever sent. */
  lemma OneNamespaceParam(svcNs: string, envNs: string, confNs: string, appId: string, global: bool, ns: string, ns2: string)
    ensures var ps := QueryParams(svcNs, envNs, confNs, appId, global);
      && !(NsTypeGlobal in ps && Nid(ns) in ps)
      && (Nid(ns) in ps && Nid(ns2) in ps ==> ns == ns2)
  {
  }

  /** The state the poll loop of `subscribe` carries from one tick to the next. */
  datatype PollState = PollState(lastNodes: seq<ServiceNode>, lastIndex: int, retries: nat)

  /** The initial query's results are taken as they are, even when it failed. */
  function Start(o: Outcome): (s: PollState)
    ensures s.lastNodes == o.nodes && s.lastIndex == o.index && s.retries == 0
  {
    PollState(o.nodes, o.index, 0)
  }

  /** The initial query is broadcast iff it succeeded with at least one node. */
  predicate StartBroadcasts(o: Outcome)
  {
    o.err.None? && |o.nodes| > 0
  }

  /** A later query is broadcast iff it succeeded with nodes and the index moved or the nodes differ. */
  predicate TickBroadcasts(s: PollState, o: Outcome)
  {
    o.err.None? && |o.nodes| != 0 && (o.index != s.lastIndex || !SameNodes(s.lastNodes, o.nodes))
  }

  /**
   * One tick: an error counts a retry and changes nothing else; a success
   * resets the retries and adopts the index, and replaces the remembered
   * nodes exactly when it is broadcast.
   */
  function Tick(s: PollState, o: Outcome): (t: PollState)
    ensures o.err.Some? ==> t.lastNodes == s.lastNodes && t.lastIndex == s.lastIndex && t.retries == s.retries + 1
    ensures o.err.None? ==> t.lastIndex == o.index && t.retries == 0
    ensures t.lastNodes == (if TickBroadcasts(s, o) then o.nodes else s.lastNodes)
  {
    if o.err.Some? then s.(retries := s.retries + 1)
    else PollState(if TickBroadcasts(s, o) then o.nodes else s.lastNodes, o.index, 0)
  }

  /** An empty success is never broadcast and never replaces the remembered nodes. */
  lemma EmptySuccessKeepsSnapshot(s: PollState, o: Outcome)
    requires o.err.None? && |o.nodes| == 0
    ensures !TickBroadcasts(s, o) && Tick(s, o).lastNodes == s.lastNodes
  {
  }

  /** The state after the initial query and the first n ticks. */
  function After(first: Outcome, ticks: seq<Outcome>, n: nat): PollState
    requires n <= |ticks|
  {
    if n == 0 then Start(first) else Tick(After(first, ticks, n - 1), ticks[n - 1])
  }

  /** The nodes of the latest broadcast among the initial query and the first n ticks. */
  function Published(first: Outcome, ticks: seq<Outcome>, n: nat): Option<seq<ServiceNode>>
    requires n <= |ticks|
  {
    if n == 0 then (if StartBroadcasts(first) then Some(first.nodes) else None)
    else if TickBroadcasts(After(first, ticks, n - 1), ticks[n - 1]) then Some(ticks[n - 1].nodes)
    else Published(first, ticks, n - 1)
  }

  /** Once anything was broadcast, the remembered nodes are the latest broadcast ones, and they are never empty. */
  lemma {:induction false} PublishedIsRemembered(first: Outcome, ticks: seq<Outcome>, n: nat)
    requires n <= |ticks|
    ensures Published(first, ticks, n).Some? ==>
      && After(first, ticks, n).lastNodes == Published(first, ticks, n).value
      && |Published(first, ticks, n).value| > 0
  {
    if n > 0 {
      PublishedIsRemembered(first, ticks, n - 1);
    }
  }

  /** The retry counter counts the errors since the last success (or since the start). */
  function ErrorStreak(ticks: seq<Outcome>, n: nat): nat
    requires n <= |ticks|
  {
    if n == 0 || ticks[n - 1].err.None? then 0 else ErrorStreak(ticks, n - 1) + 1
  }

  lemma {:induction false} RetriesCountErrors(first: Outcome, ticks: seq<Outcome>, n: nat)
    requires n <= |ticks|
    ensures After(first, ticks, n).retries == ErrorStreak(ticks, n)
  {
    if n > 0 {
      RetriesCountErrors(first, ticks, n - 1);
    }
  }

  /**
   * The polling goroutine of one entry (svcInfo.subscribe), fed the
   * initial outcome and the outcomes of the ticks before it was cancelled.
   * `store` turns the key and the nodes into the stored snapshot.
   */
  method Subscribe<K(==), T>(e: ConsulWatch.Entry<K, T>, store: (K, seq<ServiceNode>) -> T,
                             first: Outcome, ticks: seq<Outcome>) returns (s: PollState)
    modifies e, e.watchers
    ensures s == After(first, ticks, |ticks|)
    ensures e.watchers == old(e.watchers) && e.polling == old(e.polling)
    ensures e.value == match Published(first, ticks, |ticks|)
                       case None => old(e.value)
                       case Some(ns) => Some(store(e.key, ns))
    ensures forall w :: w in e.watchers ==> w.closed == old(w.closed)
    ensures forall w :: w in e.watchers ==> w.event == (old(w.event) || Published(first, ticks, |ticks|).Some?)
  {
    s := Start(first);
    if StartBroadcasts(first) {
      e.Broadcast(store(e.key, first.nodes));
    }
    var i := 0;
    while i < |ticks|
      invariant 0 <= i <= |ticks|
      invariant s == After(first, ticks, i)
      invariant e.watchers == old(e.watchers) && e.polling == old(e.polling)
      invariant e.value == match Published(first, ticks, i)
                           case None => old(e.value)
                           case Some(ns) => Some(store(e.key, ns))
      invariant forall w :: w in e.watchers ==> w.closed == old(w.closed)
      invariant forall w :: w in e.watchers ==> w.event == (old(w.event) || Published(first, ticks, i).Some?)
    {
      var o := ticks[i];
      if o.err.None? {
        if |o.nodes| != 0 {
          var same := CompareNodes(s.lastNodes, o.nodes);
          if o.index != s.lastIndex || !same {
            s := s.(lastNodes := o.nodes);
            e.Broadcast(store(e.key, o.nodes));
          }
        }
        s := s.(retries := 0, lastIndex := o.index);
      } else {
        s := s.(retries := s.retries + 1);
      }
      i := i + 1;
    }
  }
}
