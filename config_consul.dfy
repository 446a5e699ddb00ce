/**
 * The consul configuration source of pkg/config/consul/consul.go: topics
 * keyed by KV path, each polled by its own task that broadcasts the decoded
 * specs to the topic's watchers.  The HTTP call is left out (its reply is
 * an input) and base64 decoding is a caller-supplied function.
 */
module ConfigConsul {
  import opened Wrappers
  import opened GoStrings
  import GoErrors
  import ErrCodes
  import ConfigData
  import ConsulWatch
  import ConsulHealth
  import Strconv

  type Hub = ConsulWatch.Hub<string, seq<ConfigData.Spec>>
  type Watcher = ConsulWatch.Watcher<string, seq<ConfigData.Spec>>

  /** The configuration fields the core reads. */
  datatype Config = Config(address: string, token: string, appId: string, namespaceId: string)

  /** The parameters fetch adds after the fixed `nsType=DEF_AND_GLOBAL&index=..` ones. */
  datatype KvParam = Recurse | Nid(ns: string) | Uid(app: string)

  /** fetch's optional query parameters: recurse for a directory path, then nid and uid when set. */
  function FetchParams(path: string, conf: Config): (ps: seq<KvParam>)
    ensures Recurse in ps <==> HasSuffix(path, "/")
    ensures forall ns :: Nid(ns) in ps <==> conf.namespaceId != "" && ns == conf.namespaceId
    ensures forall app :: Uid(app) in ps <==> conf.appId != "" && app == conf.appId
  {
    (if HasSuffix(path, "/") then [Recurse] else [])
      + (if conf.namespaceId != "" then [Nid(conf.namespaceId)] else [])
      + (if conf.appId != "" then [Uid(conf.appId)] else [])
  }

  /** errCode.NotFound.Equal(err): the error is an ErrCode with code 404 (messages are not compared below 1000). */
  predicate IsNotFound(err: Option<GoErrors.Error>)
  {
    err.Some? && err.value.Code? && ErrCodes.Code(err.value.ec) == ErrCodes.NotFoundCode
  }

  /** The predicate is Equal against any ErrCode of code 404, such as errCode.NotFound. */
  lemma IsNotFoundIsEqual(ec: GoErrors.ErrCode, err: Option<GoErrors.Error>)
    requires ErrCodes.Code(ec) == ErrCodes.NotFoundCode
    ensures ErrCodes.Equal(ec, err) <==> IsNotFound(err)
  {
  }

  /** One KV pair of the reply, its value base64-encoded. */
  datatype Item = Item(key: string, value: string)

  /** The reply of the KV query: its error, its header and the decoded JSON items. */
  datatype KvReply = KvReply(err: Option<GoErrors.Error>, header: Option<map<string, string>>, items: seq<Item>)

  /** fetch's three results; the errors are classified as for the health query, the index ones being ErrCodes of code 500. */
  datatype KvOutcome = KvOutcome(specs: seq<ConfigData.Spec>, index: int, err: Option<ConsulHealth.FetchError>)

  /** The specs of the first n items: those whose value decodes, in order, with the decoded bytes as data. */
  function Decoded(items: seq<Item>, decode: string -> Option<string>, n: nat): (r: seq<ConfigData.Spec>)
    requires n <= |items|
    ensures |r| <= n
  {
    if n == 0 then []
    else match decode(items[n - 1].value)
      case None => Decoded(items, decode, n - 1)
      case Some(b) => Decoded(items, decode, n - 1) + [ConfigData.Spec(items[n - 1].key, ConfigData.Data(b))]
  }

  /**
   * Every spec comes from an item, in the items' order: spec k is item
   * m(k) with its decoded value, for an increasing m.
   */
  lemma {:induction false} DecodedFromItems(items: seq<Item>, decode: string -> Option<string>, n: nat)
    requires n <= |items|
    ensures exists m: seq<nat> {:trigger IndexMap(items, decode, Decoded(items, decode, n), m, n)} ::
      IndexMap(items, decode, Decoded(items, decode, n), m, n)
  {
    if n == 0 {
      assert IndexMap(items, decode, Decoded(items, decode, n), [], n);
    } else {
      DecodedFromItems(items, decode, n - 1);
      var r0 := Decoded(items, decode, n - 1);
      var m0: seq<nat> :| IndexMap(items, decode, r0, m0, n - 1);
      var b := decode(items[n - 1].value);
      if b.Some? {
        var spec := ConfigData.Spec(items[n - 1].key, ConfigData.Data(b.value));
        assert Decoded(items, decode, n) == r0 + [spec];
        IndexMapExtend(items, decode, r0, m0, n, spec);
      } else {
        assert IndexMap(items, decode, Decoded(items, decode, n), m0, n);
      }
    }
  }

  /** m maps spec k to the item it came from, each below n, increasing. */
  predicate IndexMap(items: seq<Item>, decode: string -> Option<string>, r: seq<ConfigData.Spec>, m: seq<nat>, n: nat)
  {
    && |m| == |r|
    && (forall k :: 0 <= k < |m| ==> m[k] < n && m[k] < |items|)
    && (forall k :: 0 <= k < |m| ==> decode(items[m[k]].value) == Some(r[k].data.raw) && r[k].key == items[m[k]].key)
    && (forall k, l :: 0 <= k < l < |m| ==> m[k] < m[l])
  }

  lemma IndexMapExtend(items: seq<Item>, decode: string -> Option<string>, r0: seq<ConfigData.Spec>, m0: seq<nat>,
                       n: nat, spec: ConfigData.Spec)
    requires 0 < n <= |items| && IndexMap(items, decode, r0, m0, n - 1)
    requires decode(items[n - 1].value) == Some(spec.data.raw) && spec.key == items[n - 1].key
    ensures IndexMap(items, decode, r0 + [spec], m0 + [n - 1], n)
  {
  }

  /** When every value decodes, the specs are the items with their decoded values. */
  lemma {:induction false} DecodedAll(items: seq<Item>, decode: string -> Option<string>, n: nat)
    requires n <= |items|
    requires forall k :: 0 <= k < n ==> decode(items[k].value).Some?
    ensures var r := Decoded(items, decode, n);
      |r| == n && forall k :: 0 <= k < n ==> r[k] == ConfigData.Spec(items[k].key, ConfigData.Data(decode(items[k].value).value))
  {
    if n > 0 {
      DecodedAll(items, decode, n - 1);
    }
  }

  /** The decoding loop of fetch: a value that does not decode is skipped. */
  method DecodeItems(items: seq<Item>, decode: string -> Option<string>) returns (res: seq<ConfigData.Spec>)
    ensures res == Decoded(items, decode, |items|)
  {
    res := [];
    var i := 0;
    while i < |items|
      invariant 0 <= i <= |items|
      invariant res == Decoded(items, decode, i)
    {
      var b := decode(items[i].value);
      if b.None? {
        i := i + 1;
        continue;
      }
      res := res + [ConfigData.Spec(items[i].key, ConfigData.Data(b.value))];
      i := i + 1;
    }
  }

  /**
   * What fetch returns: an ErrCode NotFound counts as success with the
   * items the reply holds; any other error is returned; then the
   * X-Consul-Index header must parse; only then are the items decoded.
   */
  function Fetched(r: KvReply, decode: string -> Option<string>): (o: KvOutcome)
    ensures o.err.None? <==>
      (r.err.None? || IsNotFound(r.err)) && r.header.Some? && ConsulHealth.IndexOk(ConsulHealth.HeaderGet(r.header.value, ConsulHealth.IndexHeader))
    ensures o.err.None? ==> o.specs == Decoded(r.items, decode, |r.items|)
    ensures o.err.Some? ==> o.specs == []
    ensures (o.err.Some? && o.err.value.Transport?) <==> r.err.Some? && !IsNotFound(r.err)
  {
    if r.err.Some? && !IsNotFound(r.err) then KvOutcome([], 0, Some(ConsulHealth.Transport(r.err.value)))
    else if r.header.None? then KvOutcome([], 0, Some(ConsulHealth.NoHeader))
    else
      var text := ConsulHealth.HeaderGet(r.header.value, ConsulHealth.IndexHeader);
      if ConsulHealth.IndexOk(text) then KvOutcome(Decoded(r.items, decode, |r.items|), ConsulHealth.ParseIndex(text), None)
      else KvOutcome([], ConsulHealth.ParseIndex(text), Some(ConsulHealth.IndexInvalid(text)))
  }

  /** fetch after its query. */
  method Fetch(r: KvReply, decode: string -> Option<string>) returns (o: KvOutcome)
    ensures o == Fetched(r, decode)
  {
    if r.err.Some? && !IsNotFound(r.err) {
      return KvOutcome([], 0, Some(ConsulHealth.Transport(r.err.value)));
    }
    if r.header.None? {
      return KvOutcome([], 0, Some(ConsulHealth.NoHeader));
    }
    var text := ConsulHealth.HeaderGet(r.header.value, ConsulHealth.IndexHeader);
    if !ConsulHealth.IndexOk(text) {
      return KvOutcome([], ConsulHealth.ParseIndex(text), Some(ConsulHealth.IndexInvalid(text)));
    }
    var specs := DecodeItems(r.items, decode);
    o := KvOutcome(specs, ConsulHealth.ParseIndex(text), None);
  }

  /** A deleted key: consul answers 404, which reads as no specs at all. */
  lemma NotFoundReadsAsEmpty(err: GoErrors.Error, h: map<string, string>, index: int, decode: string -> Option<string>)
    requires IsNotFound(Some(err))
    requires Strconv.MinInt64 <= index <= Strconv.MaxInt64
    requires ConsulHealth.IndexHeader in h && h[ConsulHealth.IndexHeader] == Strconv.FormatInt(index)
    ensures Fetched(KvReply(Some(err), Some(h), []), decode) == KvOutcome([], index, None)
  {
    Strconv.ParseIntOkFormat(index, Strconv.MaxUint64, Strconv.MaxInt64 + 1);
    Strconv.ParseIntFormat(index, Strconv.MaxUint64, Strconv.MaxInt64 + 1);
  }

  /** The state the topic's poll loop carries. */
  datatype TopicState = TopicState(lastRes: seq<ConfigData.Spec>, lastIndex: int)

  /** The initial fetch's results are taken even when it failed. */
  function Start(o: KvOutcome): (s: TopicState)
    ensures s.lastRes == o.specs && s.lastIndex == o.index
  {
    TopicState(o.specs, o.index)
  }

  /** Unlike the naming clients, an initial success is broadcast even when it holds nothing. */
  predicate StartBroadcasts(o: KvOutcome)
  {
    o.err.None?
  }

  /** A later success is broadcast iff the index moved or the specs differ. */
  predicate TickBroadcasts(s: TopicState, o: KvOutcome)
  {
    o.err.None? && (o.index != s.lastIndex || o.specs != s.lastRes)
  }

  /** An error changes nothing (and is retried at the next tick); a success is always adopted. */
  function Tick(s: TopicState, o: KvOutcome): (t: TopicState)
    ensures o.err.Some? ==> t == s
    ensures o.err.None? ==> t == TopicState(o.specs, o.index)
  {
    if o.err.Some? then s else TopicState(o.specs, o.index)
  }

  function After(first: KvOutcome, ticks: seq<KvOutcome>, n: nat): TopicState
    requires n <= |ticks|
  {
    if n == 0 then Start(first) else Tick(After(first, ticks, n - 1), ticks[n - 1])
  }

  /** The specs of the latest broadcast among the initial fetch and the first n ticks. */
  function Published(first: KvOutcome, ticks: seq<KvOutcome>, n: nat): Option<seq<ConfigData.Spec>>
    requires n <= |ticks|
  {
    if n == 0 then (if StartBroadcasts(first) then Some(first.specs) else None)
    else if TickBroadcasts(After(first, ticks, n - 1), ticks[n - 1]) then Some(ticks[n - 1].specs)
    else Published(first, ticks, n - 1)
  }

  /**
   * Once anything was broadcast, the remembered specs are the broadcast
   * ones: a success that is not broadcast repeats them exactly.
   */
  lemma {:induction false} PublishedIsRemembered(first: KvOutcome, ticks: seq<KvOutcome>, n: nat)
    requires n <= |ticks|
    ensures Published(first, ticks, n).Some? ==> After(first, ticks, n).lastRes == Published(first, ticks, n).value
  {
    if n > 0 {
      PublishedIsRemembered(first, ticks, n - 1);
    }
  }

  /** A success that differs from what was last remembered is always broadcast. */
  lemma ChangeIsBroadcast(s: TopicState, o: KvOutcome)
    requires o.err.None? && TopicState(o.specs, o.index) != s
    ensures TickBroadcasts(s, o)
  {
  }

  /**
   * Topic.subscribe for one topic, fed the initial outcome and the outcomes
   * of the ticks before its context was cancelled.
   */
  method Poll(e: ConsulWatch.Entry<string, seq<ConfigData.Spec>>, first: KvOutcome, ticks: seq<KvOutcome>)
    returns (s: TopicState)
    modifies e, e.watchers
    ensures s == After(first, ticks, |ticks|)
    ensures e.watchers == old(e.watchers) && e.polling == old(e.polling)
    ensures e.value == match Published(first, ticks, |ticks|)
                       case None => old(e.value)
                       case Some(specs) => Some(specs)
    ensures forall w :: w in e.watchers ==>
      w.closed == old(w.closed) && w.event == (old(w.event) || Published(first, ticks, |ticks|).Some?)
  {
    s := Start(first);
    if first.err.None? {
      e.Broadcast(first.specs);
    }
    var i := 0;
    while i < |ticks|
      invariant 0 <= i <= |ticks|
      invariant s == After(first, ticks, i)
      invariant e.watchers == old(e.watchers) && e.polling == old(e.polling)
      invariant e.value == match Published(first, ticks, i)
                           case None => old(e.value)
                           case Some(specs) => Some(specs)
      invariant forall w :: w in e.watchers ==>
        w.closed == old(w.closed) && w.event == (old(w.event) || Published(first, ticks, i).Some?)
    {
      var o := ticks[i];
      if o.err.Some? {
        i := i + 1;
        continue;
      }
      if o.index != s.lastIndex || s.lastRes != o.specs {
        e.Broadcast(o.specs);
      }
      s := TopicState(o.specs, o.index);
      i := i + 1;
    }
  }

  /** Watch's results: the Deadline or ClientClosed ErrCode, or the stored specs (nil when nothing is stored). */
  datatype Watched = Specs(specs: seq<ConfigData.Spec>) | Failed(code: int) | NotReady

  function WatchResult(got: ConsulWatch.Received<seq<ConfigData.Spec>>): (r: Watched)
    ensures r.Failed? ==> r.code == ErrCodes.DeadlineCode || r.code == ErrCodes.ClientClosedCode
    ensures r.Specs? <==> got.Delivered?
    ensures got.Delivered? ==> r.specs == got.value.GetOr([])
    ensures r.NotReady? <==> got.Blocked?
  {
    match got
    case DeadlineExceeded => Failed(ErrCodes.DeadlineCode)
    case ClientClosed => Failed(ErrCodes.ClientClosedCode)
    case Delivered(v) => Specs(v.GetOr([]))
    case Blocked => NotReady
  }

  /** Watcher.Watch: the select, then the result of the chosen case. */
  method Watch(w: Watcher, deadline: bool, pick: nat) returns (r: Watched)
    modifies w
    ensures r == WatchResult(ConsulWatch.Select(deadline, old(w.closed), old(w.event), w.entry.value, pick))
    ensures w.closed == old(w.closed) && w.event == (old(w.event) && !r.Specs?)
  {
    var got := w.Receive(deadline, pick);
    r := WatchResult(got);
  }

  /** After a deleted key was broadcast, a watcher whose slot fires gets no specs. */
  lemma DeletedKeyDeliversNothing(pick: nat)
    ensures WatchResult(ConsulWatch.Select(false, false, true, Some([]), pick)) == Specs([])
  {
  }

  /** raw.Unmarshal: nil data decodes to nothing and succeeds; other data goes to the YAML decoder. */
  function RawUnmarshal(r: Option<string>, yaml: string -> Option<GoErrors.Error>): (err: Option<GoErrors.Error>)
    ensures r.None? ==> err.None?
    ensures r.Some? ==> err == yaml(r.value)
  {
    if r.None? then None else yaml(r.value)
  }

  /** raw.Raw: nil for nil data, else the bytes themselves. */
  function RawBytes(r: Option<string>): (b: Option<string>)
    ensures b == r
  {
    if r.None? then None else r
  }

  /** The configuration source: its configuration and its topic table. */
  class Consul {
    const conf: Config
    const hub: Hub

    constructor (conf: Config)
      ensures this.conf == conf && fresh(hub) && hub.entries == map[] && hub.Valid()
    {
      this.conf := conf;
      hub := new ConsulWatch.Hub();
    }

    /** Subscribe: the first subscriber of a path creates its topic and starts polling; no slot is ever prefilled. */
    method Subscribe(path: string) returns (w: Watcher)
      requires hub.Valid()
      modifies hub, hub.entries.Values
      ensures hub.Valid()
      ensures fresh(w) && !w.closed && !w.event && path in hub.entries && w.entry == hub.entries[path]
      ensures old(path in hub.entries) ==>
        hub.entries == old(hub.entries) && w.entry.watchers == old(hub.entries[path].watchers) + {w}
      ensures !old(path in hub.entries) ==>
        && fresh(w.entry) && hub.entries == old(hub.entries)[path := w.entry]
        && w.entry.watchers == {w} && w.entry.polling
    {
      w := hub.Join(path, _ => false);
    }

    /** Get: whatever is stored, the result is nil; an unknown path creates nothing. */
    method Get(path: string) returns (spec: seq<ConfigData.Spec>)
      ensures spec == []
    {
      if path !in hub.entries {
        return [];
      }
      var loaded := hub.entries[path].value.GetOr([]);
      spec := [];
    }
  }
}
