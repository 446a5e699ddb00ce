/**
 * The consul client of naming/consul (discovery.go and registry.go), the
 * kratos registry flavour: watched by bare service name, storing kratos
 * instances, and registering every endpoint of a kratos instance.  The
 * shared pieces are ConsulWatch, ConsulHealth and ConsulRegistry.
 */
module KratosConsul {
  import opened Wrappers
  import GoErrors
  import StatusCodes
  import Naming
  import KratosNaming
  import ConsulWatch
  import ConsulHealth
  import ConsulRegistry
  import PkgConsul

  type Hub = ConsulWatch.Hub<Naming.Service, seq<KratosNaming.KratosInstance>>
  type Watcher = ConsulWatch.Watcher<Naming.Service, seq<KratosNaming.KratosInstance>>

  /** healthService's query rule in this client: a service of another namespace asks for GLOBAL when its namespace is "global". */
  function HealthParams(svc: Naming.Service, envNs: string, conf: PkgConsul.Config): (ps: seq<ConsulHealth.Param>)
    ensures ConsulHealth.NsTypeGlobal in ps <==>
      svc.namespace != "" && svc.namespace != envNs && svc.namespace == Naming.NsGlobal
    ensures forall ns :: ConsulHealth.Nid(ns) in ps ==> ns == svc.namespace || ns == conf.namespaceId
  {
    ConsulHealth.QueryParams(svc.namespace, envNs, conf.namespaceId, conf.appId, svc.namespace == Naming.NsGlobal)
  }

  /**
   * The two clients send the same parameters except for a service of
   * another namespace for which exactly one of "the name is global" and
   * "the namespace is global" holds.
   */
  lemma GlobalRulesDiffer(svc: Naming.Service, envNs: string, conf: PkgConsul.Config)
    ensures HealthParams(svc, envNs, conf) != PkgConsul.HealthParams(svc, envNs, conf) <==>
      && svc.namespace != "" && svc.namespace != envNs
      && (svc.name == Naming.NsGlobal) != (svc.namespace == Naming.NsGlobal)
  {
    var foreign := svc.namespace != "" && svc.namespace != envNs;
    var k := HealthParams(svc, envNs, conf);
    var p := PkgConsul.HealthParams(svc, envNs, conf);
    if foreign && (svc.name == Naming.NsGlobal) != (svc.namespace == Naming.NsGlobal) {
      assert (ConsulHealth.NsTypeGlobal in k) != (ConsulHealth.NsTypeGlobal in p);
    }
  }

  /** Watch and GetService key the subscription by the name alone, with an empty namespace. */
  function Key(service: string): (svc: Naming.Service)
    ensures svc.name == service && svc.namespace == ""
  {
    Naming.Service("", service)
  }

  /** So this client's health queries never name another namespace: only the configured one, when set. */
  lemma KeyedQueriesAreLocal(service: string, envNs: string, conf: PkgConsul.Config)
    ensures ConsulHealth.NsTypeGlobal !in HealthParams(Key(service), envNs, conf)
    ensures forall ns :: ConsulHealth.Nid(ns) in HealthParams(Key(service), envNs, conf) <==>
      conf.namespaceId != "" && ns == conf.namespaceId
  {
  }

  /** store's instance for one node: namespace from its TSF_NAMESPACE_ID metadata, name from its service field, status Up. */
  function NodeInstance(n: ConsulHealth.ServiceNode): (i: Naming.Instance)
    ensures i.service == Some(Naming.Service(Naming.Lookup(n.meta, Naming.NamespaceIdKey), n.service))
    ensures i.id == n.id && i.host == n.address && i.port == n.port && i.metadata == n.meta
    ensures i.status == Naming.StatusUp && i.tags == []
  {
    Naming.Instance(Some(Naming.Service(Naming.Lookup(n.meta, Naming.NamespaceIdKey), n.service)),
      n.id, "", n.address, n.port, n.meta, Naming.StatusUp, [])
  }

  /** store: each node's instance converted with ToKratosInstance, in order. */
  function Store(marshalTags: seq<string> -> string, nodes: seq<ConsulHealth.ServiceNode>): (r: seq<KratosNaming.KratosInstance>)
    ensures |r| == |nodes|
    ensures forall i :: 0 <= i < |r| ==> r[i] == KratosNaming.ToKratosInstance(NodeInstance(nodes[i]), marshalTags)
  {
    seq(|nodes|, i requires 0 <= i < |nodes| => KratosNaming.ToKratosInstance(NodeInstance(nodes[i]), marshalTags))
  }

  /** A stored instance keeps the node's id, its service field as name, and publishes status Up. */
  lemma StoredInstance(marshalTags: seq<string> -> string, n: ConsulHealth.ServiceNode)
    ensures var ki := KratosNaming.ToKratosInstance(NodeInstance(n), marshalTags);
      && ki.id == n.id && ki.name == n.service
      && ki.metadata.Some? && ki.metadata.value[KratosNaming.StatusKey] == "0"
  {
  }

  /** Next's results. */
  datatype Next = Nodes(nodes: seq<KratosNaming.KratosInstance>) | Closed | NotReady | Panic

  /** What Next returns for the case its select chose; there is no deadline case. */
  function NextResult(got: ConsulWatch.Received<seq<KratosNaming.KratosInstance>>): (r: Next)
    ensures r.Nodes? <==> got.Delivered? && got.value.Some?
    ensures r.Closed? <==> got.ClientClosed?
    ensures r.Panic? <==> got == ConsulWatch.Delivered(None)
    ensures got.Delivered? && got.value.Some? ==> r == Nodes(got.value.value)
  {
    match got
    case ClientClosed => Closed
    case Delivered(v) => if v.Some? then Nodes(v.value) else Panic
    case _ => NotReady
  }

  /** Watcher.Next: the select without a caller deadline. */
  method WatchNext(w: Watcher, pick: nat) returns (r: Next)
    modifies w
    ensures r == NextResult(ConsulWatch.Select(false, old(w.closed), old(w.event), w.entry.value, pick))
    ensures w.closed == old(w.closed) && w.event == (old(w.event) && !(r.Nodes? || r.Panic?))
  {
    var got := w.Receive(false, pick);
    r := NextResult(got);
  }

  /** Without a pending event, Next after Stop is ClientClosed; with neither it blocks, never failing on its own. */
  lemma NextAfterStop(value: Option<seq<KratosNaming.KratosInstance>>, pick: nat)
    ensures NextResult(ConsulWatch.Select(false, true, false, value, pick)) == Closed
    ensures NextResult(ConsulWatch.Select(false, false, false, value, pick)) == NotReady
  {
  }

  /** The first instance among the first n that the registry does not know and that no earlier instance shares an id with. */
  predicate NewAt(known: set<string>, inss: seq<Naming.Instance>, i: nat)
    requires i < |inss|
  {
    inss[i].id !in known && forall j :: 0 <= j < i ==> inss[j].id != inss[i].id
  }

  /** The first instance among the first n whose registration is sent and fails. */
  function FirstFailure(known: set<string>, inss: seq<Naming.Instance>, putErrs: seq<Option<GoErrors.Error>>, n: nat): (r: Option<nat>)
    requires n <= |inss| == |putErrs|
    ensures r.Some? ==> r.value < n && NewAt(known, inss, r.value) && putErrs[r.value].Some?
    ensures r.Some? ==> forall i :: 0 <= i < r.value ==> !(NewAt(known, inss, i) && putErrs[i].Some?)
    ensures r.None? ==> forall i :: 0 <= i < n ==> !(NewAt(known, inss, i) && putErrs[i].Some?)
  {
    if n == 0 then None
    else if FirstFailure(known, inss, putErrs, n - 1).Some? then FirstFailure(known, inss, putErrs, n - 1)
    else if NewAt(known, inss, n - 1) && putErrs[n - 1].Some? then Some(n - 1)
    else None
  }

  /** The ids of the first n instances. */
  function Ids(inss: seq<Naming.Instance>, n: nat): set<string>
    requires n <= |inss|
  {
    set j | 0 <= j < n :: inss[j].id
  }

  lemma IdsSnoc(inss: seq<Naming.Instance>, i: nat)
    requires i < |inss|
    ensures Ids(inss, i + 1) == Ids(inss, i) + {inss[i].id}
  {
  }

  /** With the registry holding known and the first i ids, instance i is new iff the registry lacks its id. */
  lemma NewAtUnseen(known: set<string>, inss: seq<Naming.Instance>, i: nat, keys: set<string>)
    requires i < |inss| && keys == known + Ids(inss, i)
    ensures NewAt(known, inss, i) <==> inss[i].id !in keys
  {
    if inss[i].id in Ids(inss, i) {
      var j :| 0 <= j < i && inss[j].id == inss[i].id;
    }
  }

  /** Once a failure is found among the first m, it stays the first one. */
  lemma {:induction false} FirstFailureStays(known: set<string>, inss: seq<Naming.Instance>,
                                             putErrs: seq<Option<GoErrors.Error>>, m: nat, n: nat)
    requires m <= n <= |inss| == |putErrs| && FirstFailure(known, inss, putErrs, m).Some?
    ensures FirstFailure(known, inss, putErrs, n) == FirstFailure(known, inss, putErrs, m)
    decreases n
  {
    if n > m {
      FirstFailureStays(known, inss, putErrs, m, n - 1);
    }
  }

  /** m2 keeps every entry of m1. */
  predicate Extends<V(==)>(m1: map<string, V>, m2: map<string, V>)
  {
    forall id :: id in m1 ==> id in m2 && m2[id] == m1[id]
  }

  /** The client: configuration, the process's namespace, the discovery table and the registry. */
  class Consul {
    const conf: PkgConsul.Config
    const envNs: string
    const hub: Hub
    const registry: ConsulRegistry.Registry

    constructor (conf: PkgConsul.Config, envNs: string)
      ensures this.conf == conf && this.envNs == envNs
      ensures fresh(hub) && fresh(registry) && hub.entries == map[] && hub.Valid() && registry.registry == map[]
    {
      this.conf := conf;
      this.envNs := envNs;
      hub := new ConsulWatch.Hub();
      registry := new ConsulRegistry.Registry();
    }

    /** Watch: join the entry of Service{Name: service}, prefilled when its snapshot is non-empty; never an error. */
    method Watch(service: string) returns (w: Watcher, err: Option<GoErrors.Error>)
      requires hub.Valid()
      modifies hub, hub.entries.Values
      ensures hub.Valid() && err.None?
      ensures fresh(w) && !w.closed && Key(service) in hub.entries && w.entry == hub.entries[Key(service)]
      ensures old(Key(service) in hub.entries) ==>
        && hub.entries == old(hub.entries)
        && w.entry.watchers == old(hub.entries[Key(service)].watchers) + {w}
        && w.event == ConsulWatch.NonEmpty(old(hub.entries[Key(service)].value))
      ensures !old(Key(service) in hub.entries) ==>
        && fresh(w.entry) && hub.entries == old(hub.entries)[Key(service) := w.entry]
        && w.entry.watchers == {w} && !w.event && w.entry.polling
    {
      w := hub.Join(Key(service), ConsulWatch.NonEmpty);
      err := None;
    }

    /**
     * GetService: for an unknown service an entry is created and (nil, nil)
     * returned; for a known one the stored instances, or a "not found"
     * error when nothing was stored yet.
     */
    method GetService(service: string) returns (nodes: seq<KratosNaming.KratosInstance>, err: Option<GoErrors.Error>)
      requires hub.Valid()
      modifies hub
      ensures hub.Valid()
      ensures !old(Key(service) in hub.entries) ==>
        && nodes == [] && err.None? && Key(service) in hub.entries && fresh(hub.entries[Key(service)])
        && hub.entries == old(hub.entries)[Key(service) := hub.entries[Key(service)]]
      ensures old(Key(service) in hub.entries) ==>
        && hub.entries == old(hub.entries)
        && match hub.entries[Key(service)].value
           case None => nodes == [] && err == Some(GoErrors.Other("not found "))
           case Some(v) => nodes == v && err.None?
    {
      var known, value := hub.Lookup(Key(service));
      if !known {
        return [], None;
      }
      match value
      case None =>
        nodes, err := [], Some(GoErrors.Other("not found "));
      case Some(v) =>
        nodes, err := v, None;
    }

    /** svcInfo.subscribe for one entry: the shared poll loop, storing with this client's store. */
    method Poll(e: ConsulWatch.Entry<Naming.Service, seq<KratosNaming.KratosInstance>>, marshalTags: seq<string> -> string,
                first: ConsulHealth.Outcome, ticks: seq<ConsulHealth.Outcome>) returns (s: ConsulHealth.PollState)
      modifies e, e.watchers
      ensures s == ConsulHealth.After(first, ticks, |ticks|)
      ensures e.watchers == old(e.watchers) && e.polling == old(e.polling)
      ensures e.value == match ConsulHealth.Published(first, ticks, |ticks|)
                         case None => old(e.value)
                         case Some(ns) => Some(Store(marshalTags, ns))
      ensures forall w :: w in e.watchers ==>
        w.closed == old(w.closed) && w.event == (old(w.event) || ConsulHealth.Published(first, ticks, |ticks|).Some?)
    {
      s := ConsulHealth.Subscribe(e, (k, ns) => Store(marshalTags, ns), first, ticks);
    }

    /**
     * One step of the registration loop: instance i is registered with its
     * agent answer; the registry gains its id, keeps its entries, and the
     * step fails iff instance i is the first failure.
     */
    method RegisterAt(ghost m0: map<string, ConsulRegistry.InsInfo>, ghost known: set<string>,
                      inss: seq<Naming.Instance>, putErrs: seq<Option<GoErrors.Error>>, i: nat)
      returns (e: Option<GoErrors.Error>)
      requires i < |inss| == |putErrs| && inss[i].service.Some?
      requires FirstFailure(known, inss, putErrs, i).None?
      requires registry.registry.Keys == known + Ids(inss, i) && Extends(m0, registry.registry)
      modifies registry
      ensures registry.registry.Keys == known + Ids(inss, i + 1) && Extends(m0, registry.registry)
      ensures FirstFailure(known, inss, putErrs, i + 1) == if e.Some? then Some(i) else None
      ensures e.Some? ==> e == putErrs[i]
    {
      NewAtUnseen(known, inss, i, registry.registry.Keys);
      var sent, heartbeat;
      e, sent, heartbeat := registry.Register(inss[i], putErrs[i]);
      IdsSnoc(inss, i);
    }

    /**
     * The registration loop of Register over the given instances (those
     * FromKratosInstance made), each registered by registerIns with its
     * agent answer, stopping at the first error, which it returns.
     */
    method RegisterEach(inss: seq<Naming.Instance>, putErrs: seq<Option<GoErrors.Error>>) returns (err: Option<GoErrors.Error>)
      requires |putErrs| == |inss| && forall i :: 0 <= i < |inss| ==> inss[i].service.Some?
      modifies registry
      ensures var ff := FirstFailure(old(registry.registry.Keys), inss, putErrs, |inss|);
        && err == (if ff.Some? then putErrs[ff.value] else None)
        && registry.registry.Keys == old(registry.registry.Keys) + Ids(inss, if ff.Some? then ff.value + 1 else |inss|)
      ensures Extends(old(registry.registry), registry.registry)
    {
      ghost var m0 := registry.registry;
      ghost var known := registry.registry.Keys;
      var i := 0;
      while i < |inss|
        invariant 0 <= i <= |inss|
        invariant FirstFailure(known, inss, putErrs, i).None?
        invariant registry.registry.Keys == known + Ids(inss, i)
        invariant Extends(m0, registry.registry)
      {
        var e := RegisterAt(m0, known, inss, putErrs, i);
        if e.Some? {
          FirstFailureStays(known, inss, putErrs, i + 1, |inss|);
          return e;
        }
        i := i + 1;
      }
      err := None;
    }

    /** Register: convert the kratos instance, then register its instances in order. */
    method Register(ki: KratosNaming.KratosInstance, parseUrl: string -> KratosNaming.Url,
                    unmarshalTags: string -> seq<string>, putErrs: seq<Option<GoErrors.Error>>)
      returns (inss: seq<Naming.Instance>, err: Option<GoErrors.Error>)
      requires KratosNaming.EndpointsParse(ki, parseUrl) && |putErrs| == |ki.endpoints|
      modifies registry
      ensures |inss| == |ki.endpoints|
      ensures forall k :: 0 <= k < |inss| ==> inss[k].id == ki.id + "-" + KratosNaming.SchemeAt(ki, k, parseUrl)
      ensures var ff := FirstFailure(old(registry.registry.Keys), inss, putErrs, |inss|);
        && err == (if ff.Some? then putErrs[ff.value] else None)
        && registry.registry.Keys == old(registry.registry.Keys) + Ids(inss, if ff.Some? then ff.value + 1 else |inss|)
    {
      var md;
      inss, md := KratosNaming.FromKratosInstance(ki, parseUrl, unmarshalTags);
      forall k | 0 <= k < |inss|
        ensures inss[k].service.Some? && inss[k].id == ki.id + "-" + KratosNaming.SchemeAt(ki, k, parseUrl)
      {
        var shared := if ki.metadata.None? then map[KratosNaming.ProtocolKey := KratosNaming.SchemeAt(ki, k, parseUrl)]
                      else ki.metadata.value[KratosNaming.ProtocolKey := KratosNaming.SchemeAt(ki, |ki.endpoints| - 1, parseUrl)];
        KratosNaming.ConvertedIdentity(ki, k, shared, parseUrl, unmarshalTags);
      }
      err := RegisterEach(inss, putErrs);
    }

    /** The heartbeat task: one heartbeat at once with its answer ignored, then every 20s; `reregisterOn` is kratos' IsNotFound or IsInternalServer. */
    method Heartbeat(beats: seq<ConsulRegistry.Beat>, reregisterOn: GoErrors.Error -> bool)
      returns (retries: nat, delays: seq<ConsulRegistry.Delay>, calls: seq<ConsulRegistry.Call>)
      ensures retries == ConsulRegistry.Streak(beats, reregisterOn, |beats|)
      ensures |delays| == |beats|
      ensures forall i :: 0 <= i < |beats| ==> delays[i] == ConsulRegistry.DelayAfter(beats, reregisterOn, i)
      ensures calls == [ConsulRegistry.HeartbeatCall] + ConsulRegistry.Calls(beats, reregisterOn, |beats|)
    {
      retries, delays, calls := ConsulRegistry.RunHeartbeat(beats, reregisterOn, true);
    }

    /**
     * Deregister: send the deregistration of each instance in order,
     * stopping at the first error, which it returns.  It never touches the
     * registry, so the heartbeat tasks keep running.
     */
    method DeregisterEach(inss: seq<Naming.Instance>, delErrs: seq<Option<GoErrors.Error>>)
      returns (err: Option<GoErrors.Error>, sent: seq<string>)
      requires |delErrs| == |inss|
      ensures |sent| <= |inss| && forall k :: 0 <= k < |sent| ==> sent[k] == inss[k].id
      ensures forall k :: 0 <= k < |sent| - 1 ==> delErrs[k].None?
      ensures err.None? <==> |sent| == |inss| && forall k :: 0 <= k < |inss| ==> delErrs[k].None?
      ensures err.Some? ==> |sent| > 0 && err == delErrs[|sent| - 1]
    {
      sent := [];
      var i := 0;
      while i < |inss|
        invariant 0 <= i <= |inss| && |sent| == i
        invariant forall k :: 0 <= k < i ==> sent[k] == inss[k].id && delErrs[k].None?
      {
        sent := sent + [inss[i].id];
        if delErrs[i].Some? {
          return delErrs[i], sent;
        }
        i := i + 1;
      }
      err := None;
    }

    /** Deregister: convert the kratos instance, then deregister its instances in order. */
    method Deregister(ki: KratosNaming.KratosInstance, parseUrl: string -> KratosNaming.Url,
                      unmarshalTags: string -> seq<string>, delErrs: seq<Option<GoErrors.Error>>)
      returns (err: Option<GoErrors.Error>, sent: seq<string>)
      requires KratosNaming.EndpointsParse(ki, parseUrl) && |delErrs| == |ki.endpoints|
      ensures |sent| <= |ki.endpoints|
      ensures forall k :: 0 <= k < |sent| ==> sent[k] == ki.id + "-" + KratosNaming.SchemeAt(ki, k, parseUrl)
      ensures err.None? <==> |sent| == |ki.endpoints| && forall k :: 0 <= k < |delErrs| ==> delErrs[k].None?
      ensures err.Some? ==> |sent| > 0 && err == delErrs[|sent| - 1]
    {
      var inss, md := KratosNaming.FromKratosInstance(ki, parseUrl, unmarshalTags);
      err, sent := DeregisterEach(inss, delErrs);
    }

    /** deregisterIns: cancel the heartbeat of a recorded id, send the deregistration and return nil. */
    method DeregisterIns(ins: Naming.Instance) returns (err: Option<GoErrors.Error>)
      requires ins.service.Some?
      modifies if ins.id in registry.registry then {registry.registry[ins.id]} else {}
      ensures err.None? && registry.registry == old(registry.registry)
      ensures ins.id in registry.registry ==> registry.registry[ins.id].cancelled
    {
      var sent;
      err, sent := registry.Deregister(ins);
    }
  }
}
