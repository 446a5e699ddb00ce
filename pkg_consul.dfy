/**
 * The consul naming client of pkg/naming/consul/consul.go: discovery keyed
 * by naming.Service with watchers over the stored []naming.Instance, and
 * registration with the agent.  The shared pieces are ConsulWatch,
 * ConsulHealth and ConsulRegistry; this module fixes this client's choices.
 */
module PkgConsul {
  import opened Wrappers
  import GoErrors
  import StatusCodes
  import Naming
  import ConsulWatch
  import ConsulHealth
  import ConsulRegistry

  const Scheme: string := "consul"

  /** The configuration fields the core reads. */
  datatype Config = Config(token: string, appId: string, namespaceId: string)

  type Hub = ConsulWatch.Hub<Naming.Service, seq<Naming.Instance>>
  type Watcher = ConsulWatch.Watcher<Naming.Service, seq<Naming.Instance>>

  /**
   * healthService's query rule in this client: a service of another
   * namespace asks for GLOBAL when its *name* is "global".
   */
  function HealthParams(svc: Naming.Service, envNs: string, conf: Config): (ps: seq<ConsulHealth.Param>)
    ensures ConsulHealth.NsTypeGlobal in ps <==>
      svc.namespace != "" && svc.namespace != envNs && svc.name == Naming.NsGlobal
    ensures forall ns :: ConsulHealth.Nid(ns) in ps ==> ns == svc.namespace || ns == conf.namespaceId
  {
    ConsulHealth.QueryParams(svc.namespace, envNs, conf.namespaceId, conf.appId, svc.name == Naming.NsGlobal)
  }

  /**
   * A service of another namespace whose name is "global" asks for GLOBAL
   * even when its namespace is some ordinary one, and a service of the
   * namespace "global" with another name asks for nid=global.
   */
  lemma GlobalIsTestedOnName(envNs: string, conf: Config, ns: string, name: string)
    requires ns != "" && ns != envNs
    ensures HealthParams(Naming.Service(ns, Naming.NsGlobal), envNs, conf)[0] == ConsulHealth.NsTypeGlobal
    ensures name != Naming.NsGlobal ==>
      HealthParams(Naming.Service(ns, name), envNs, conf)[0] == ConsulHealth.Nid(ns)
  {
  }

  /** store's instance for one node: the entry's service normalised, the node's id, address, port and metadata, status Up. */
  function StoreNode(localNs: string, svc: Naming.Service, n: ConsulHealth.ServiceNode): Naming.Instance
  {
    Naming.Instance(Some(Naming.NewService(localNs, svc.namespace, svc.name)), n.id, "", n.address, n.port,
      n.meta, Naming.StatusUp, [])
  }

  /** store: one instance per node, in order. */
  function Store(localNs: string, svc: Naming.Service, nodes: seq<ConsulHealth.ServiceNode>): (r: seq<Naming.Instance>)
    ensures |r| == |nodes|
    ensures forall i :: 0 <= i < |r| ==>
      && r[i].service == Some(Naming.NewService(localNs, svc.namespace, svc.name))
      && r[i].id == nodes[i].id && r[i].host == nodes[i].address && r[i].port == nodes[i].port
      && r[i].metadata == nodes[i].meta && r[i].status == Naming.StatusUp
  {
    seq(|nodes|, i requires 0 <= i < |nodes| => StoreNode(localNs, svc, nodes[i]))
  }

  /** Two nodes compare equal iff their stored instances have the same id, host and port. */
  lemma StoreKeepsComparison(localNs: string, svc: Naming.Service, a: ConsulHealth.ServiceNode, b: ConsulHealth.ServiceNode)
    ensures var x := StoreNode(localNs, svc, a);
      var y := StoreNode(localNs, svc, b);
      ConsulHealth.Compare(a, b) <==> x.id == y.id && x.host == y.host && x.port == y.port
  {
  }

  /** The heartbeat's errors that call for a re-registration: NotFound and Internal. */
  predicate ReregisterOn(e: GoErrors.Error)
  {
    StatusCodes.IsKind(StatusCodes.NotFound, Some(e)) || StatusCodes.IsKind(StatusCodes.Internal, Some(e))
  }

  /** Watch's results. */
  datatype Watched = Nodes(nodes: seq<Naming.Instance>) | Failed(kind: StatusCodes.Kind) | NotReady | Panic

  /**
   * What Watch returns for the case its select chose: the Deadline and
   * ClientClosed errors, the stored instances, or a panic when the slot
   * fired with nothing stored (the type assertion is not comma-ok).
   */
  function WatchResult(got: ConsulWatch.Received<seq<Naming.Instance>>): (r: Watched)
    ensures r.Failed? ==> r.kind == StatusCodes.Deadline || r.kind == StatusCodes.ClientClosed
    ensures r.Nodes? <==> got.Delivered? && got.value.Some?
    ensures r.Panic? <==> got == ConsulWatch.Delivered(None)
    ensures got.Delivered? && got.value.Some? ==> r == Nodes(got.value.value)
  {
    match got
    case DeadlineExceeded => Failed(StatusCodes.Deadline)
    case ClientClosed => Failed(StatusCodes.ClientClosed)
    case Delivered(v) => if v.Some? then Nodes(v.value) else Panic
    case Blocked => NotReady
  }

  /** Watcher.Watch: the select, then the result of the chosen case. */
  method Watch(w: Watcher, deadline: bool, pick: nat) returns (r: Watched)
    modifies w
    ensures r == WatchResult(ConsulWatch.Select(deadline, old(w.closed), old(w.event), w.entry.value, pick))
    ensures w.closed == old(w.closed) && w.event == (old(w.event) && !(r.Nodes? || r.Panic?))
  {
    var got := w.Receive(deadline, pick);
    r := WatchResult(got);
  }

  /** A watcher cancelled before, with no event pending and no caller deadline, reports ClientClosed. */
  lemma ClosedWatcherReportsClosed(value: Option<seq<Naming.Instance>>, pick: nat)
    ensures WatchResult(ConsulWatch.Select(false, true, false, value, pick)) == Failed(StatusCodes.ClientClosed)
  {
  }

  /** The client: its configuration, the process's namespaces, the discovery table and the registry. */
  class Consul {
    const conf: Config
    /** The namespace TSF_NAMESPACE_ID names, which the health query rule compares against. */
    const envNs: string
    /** The namespace NewService substitutes for "" and "local". */
    const localNs: string
    const hub: Hub
    const registry: ConsulRegistry.Registry

    /** New: empty tables (the catalog poller is not part of this model). */
    constructor (conf: Config, envNs: string, localNs: string)
      ensures this.conf == conf && this.envNs == envNs && this.localNs == localNs
      ensures fresh(hub) && fresh(registry) && hub.entries == map[] && hub.Valid() && registry.registry == map[]
    {
      this.conf := conf;
      this.envNs := envNs;
      this.localNs := localNs;
      hub := new ConsulWatch.Hub();
      registry := new ConsulRegistry.Registry();
    }

    /**
     * Subscribe: one shared entry per service; the first watcher creates it
     * (and starts its polling), a later one gets its slot filled when the
     * stored snapshot is non-empty.
     */
    method Subscribe(svc: Naming.Service) returns (w: Watcher)
      requires hub.Valid()
      modifies hub, hub.entries.Values
      ensures hub.Valid()
      ensures fresh(w) && !w.closed && svc in hub.entries && w.entry == hub.entries[svc]
      ensures old(svc in hub.entries) ==>
        && hub.entries == old(hub.entries)
        && w.entry.watchers == old(hub.entries[svc].watchers) + {w}
        && w.event == ConsulWatch.NonEmpty(old(hub.entries[svc].value))
      ensures !old(svc in hub.entries) ==>
        && fresh(w.entry) && hub.entries == old(hub.entries)[svc := w.entry]
        && w.entry.watchers == {w} && !w.event && w.entry.polling
    {
      w := hub.Join(svc, ConsulWatch.NonEmpty);
    }

    /** Fetch: the stored instances of a known service (nil when nothing is stored); an unknown one gets (nil, false) and an entry. */
    method Fetch(svc: Naming.Service) returns (nodes: seq<Naming.Instance>, initialized: bool)
      requires hub.Valid()
      modifies hub
      ensures hub.Valid()
      ensures initialized == old(svc in hub.entries)
      ensures initialized ==> hub.entries == old(hub.entries) && nodes == hub.entries[svc].value.GetOr([])
      ensures !initialized ==>
        && nodes == [] && svc in hub.entries && fresh(hub.entries[svc])
        && hub.entries == old(hub.entries)[svc := hub.entries[svc]] && hub.entries[svc].polling
    {
      var value;
      initialized, value := hub.Lookup(svc);
      nodes := value.GetOr([]);
    }

    /** svcInfo.subscribe for one entry: the shared poll loop, storing with this client's store. */
    method Poll(e: ConsulWatch.Entry<Naming.Service, seq<Naming.Instance>>,
                first: ConsulHealth.Outcome, ticks: seq<ConsulHealth.Outcome>) returns (s: ConsulHealth.PollState)
      modifies e, e.watchers
      ensures s == ConsulHealth.After(first, ticks, |ticks|)
      ensures e.watchers == old(e.watchers) && e.polling == old(e.polling)
      ensures e.value == match ConsulHealth.Published(first, ticks, |ticks|)
                         case None => old(e.value)
                         case Some(ns) => Some(Store(localNs, e.key, ns))
      ensures forall w :: w in e.watchers ==>
        w.closed == old(w.closed) && w.event == (old(w.event) || ConsulHealth.Published(first, ticks, |ticks|).Some?)
    {
      s := ConsulHealth.Subscribe(e, (k, ns) => Store(localNs, k, ns), first, ticks);
    }

    /** Register: idempotent by id; the id is recorded before the definition is sent. */
    method Register(ins: Naming.Instance, putErr: Option<GoErrors.Error>)
      returns (err: Option<GoErrors.Error>, sent: Option<ConsulRegistry.ServiceDefinition>, heartbeat: bool)
      requires ins.id !in registry.registry ==> ins.service.Some?
      modifies registry
      ensures old(ins.id in registry.registry) ==>
        err.None? && sent.None? && !heartbeat && registry.registry == old(registry.registry)
      ensures !old(ins.id in registry.registry) ==>
        && ins.id in registry.registry && fresh(registry.registry[ins.id])
        && registry.registry == old(registry.registry)[ins.id := registry.registry[ins.id]]
        && !registry.registry[ins.id].cancelled
        && sent == Some(ConsulRegistry.Definition(ins)) && err == putErr && heartbeat == putErr.None?
    {
      err, sent, heartbeat := registry.Register(ins, putErr);
    }

    /** The heartbeat task of a registered instance: the first heartbeat after 20s; NotFound and Internal re-register. */
    method Heartbeat(beats: seq<ConsulRegistry.Beat>)
      returns (retries: nat, delays: seq<ConsulRegistry.Delay>, calls: seq<ConsulRegistry.Call>)
      ensures retries == ConsulRegistry.Streak(beats, ReregisterOn, |beats|)
      ensures |delays| == |beats|
      ensures forall i :: 0 <= i < |beats| ==> delays[i] == ConsulRegistry.DelayAfter(beats, ReregisterOn, i)
      ensures calls == ConsulRegistry.Calls(beats, ReregisterOn, |beats|)
    {
      retries, delays, calls := ConsulRegistry.RunHeartbeat(beats, ReregisterOn, false);
      assert [] + ConsulRegistry.Calls(beats, ReregisterOn, |beats|) == calls;
    }

    /** Deregister: cancels the heartbeat of a recorded id, sends the deregistration and returns nil. */
    method Deregister(ins: Naming.Instance) returns (err: Option<GoErrors.Error>)
      requires ins.service.Some?
      modifies if ins.id in registry.registry then {registry.registry[ins.id]} else {}
      ensures err.None? && registry.registry == old(registry.registry)
      ensures ins.id in registry.registry ==> registry.registry[ins.id].cancelled
    {
      var sent;
      err, sent := registry.Deregister(ins);
    }
  }
}
