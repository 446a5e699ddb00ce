/**
 * Registration with the consul agent, as pkg/naming/consul/consul.go
 * (Register, Deregister, register, heartBeat) and naming/consul/registry.go
 * (registerIns, deregisterIns and the same helpers) both do it: a table of
 * registered instance ids, the service definition sent to the agent, and
 * the heartbeat task's retry state.  The agent's replies are inputs.
 */
module ConsulRegistry {
  import opened Wrappers
  import opened GoStrings
  import GoErrors
  import Naming
  import ConsulHealth

  /** The TTL of the agent check, in seconds. */
  const CheckTtlSeconds: nat := 40
  /** The heartbeat period, in seconds. */
  const HeartbeatSeconds: nat := 20

  /** checkID: "service:" followed by the instance id. */
  function CheckId(id: string): (r: string)
    ensures HasPrefix(r, "service:") && TrimPrefix(r, "service:") == id
  {
    assert ("service:" + id)[..8] == "service:";
    "service:" + id
  }

  /** Distinct instances get distinct check ids. */
  lemma CheckIdInjective(a: string, b: string)
    requires CheckId(a) == CheckId(b)
    ensures a == b
  {
    assert TrimPrefix(CheckId(a), "service:") == a;
    assert TrimPrefix(CheckId(b), "service:") == b;
  }

  datatype CheckType = CheckType(checkId: string, ttlSeconds: nat)

  /** The ServiceDefinition register PUTs to the agent. */
  datatype ServiceDefinition = ServiceDefinition(
    id: string, name: string, address: string, meta: map<string, string>, port: int,
    check: CheckType, tags: seq<string>)

  /** register's definition: the instance's id, service name, host, metadata, port and tags, with a 40s TTL check. */
  function Definition(ins: Naming.Instance): (d: ServiceDefinition)
    requires ins.service.Some?
    ensures d.id == ins.id && d.name == ins.service.value.name && d.address == ins.host
    ensures d.meta == ins.metadata && d.port == ins.port && d.tags == ins.tags
    ensures d.check == CheckType(CheckId(ins.id), CheckTtlSeconds)
  {
    ServiceDefinition(ins.id, ins.service.value.name, ins.host, ins.metadata, ins.port,
      CheckType(CheckId(ins.id), CheckTtlSeconds), ins.tags)
  }

  /** The query parameters register, heartBeat and deregister add after the token: nid and uid, each only when set. */
  function AgentParams(confNs: string, appId: string): (ps: seq<ConsulHealth.Param>)
    ensures forall ns :: ConsulHealth.Nid(ns) in ps <==> confNs != "" && ns == confNs
    ensures forall app :: ConsulHealth.Uid(app) in ps <==> appId != "" && app == appId
    ensures ConsulHealth.NsTypeGlobal !in ps
  {
    (if confNs != "" then [ConsulHealth.Nid(confNs)] else []) + (if appId != "" then [ConsulHealth.Uid(appId)] else [])
  }

  /** The agent's parameters are the health query's for a service of the process's own namespace. */
  lemma AgentParamsAreLocalQuery(envNs: string, confNs: string, appId: string, global: bool)
    ensures AgentParams(confNs, appId) == ConsulHealth.QueryParams("", envNs, confNs, appId, global)
    ensures AgentParams(confNs, appId) == ConsulHealth.QueryParams(envNs, envNs, confNs, appId, global)
  {
  }

  /** insInfo: the instance and the cancel function of its heartbeat task. */
  class InsInfo {
    const ins: Naming.Instance
    /** The heartbeat task's context has been cancelled. */
    var cancelled: bool

    constructor (ins: Naming.Instance)
      ensures this.ins == ins && !cancelled
    {
      this.ins := ins;
      cancelled := false;
    }
  }

  /** The `registry` map of a consul client. */
  class Registry {
    var registry: map<string, InsInfo>

    constructor ()
      ensures registry == map[]
    {
      registry := map[];
    }

    /**
     * Register (pkg) and registerIns (kratos): an id already recorded
     * returns nil and sends nothing; otherwise the id is recorded first and
     * then the definition is sent, the agent's answer `putErr` returned,
     * and the heartbeat task started iff the answer was nil.  A failed
     * first registration therefore leaves the id recorded, so later calls
     * return nil without sending.
     */
    method Register(ins: Naming.Instance, putErr: Option<GoErrors.Error>)
      returns (err: Option<GoErrors.Error>, sent: Option<ServiceDefinition>, heartbeat: bool)
      requires ins.id !in registry ==> ins.service.Some?
      modifies this
      ensures old(ins.id in registry) ==> err.None? && sent.None? && !heartbeat && registry == old(registry)
      ensures !old(ins.id in registry) ==>
        && ins.id in registry && fresh(registry[ins.id])
        && registry == old(registry)[ins.id := registry[ins.id]]
        && registry[ins.id].ins == ins && !registry[ins.id].cancelled
        && sent == Some(Definition(ins)) && err == putErr && heartbeat == putErr.None?
    {
      if ins.id in registry {
        return None, None, false;
      }
      var info := new InsInfo(ins);
      registry := registry[ins.id := info];
      sent := Some(Definition(ins));
      err := putErr;
      heartbeat := err.None?;
    }

    /**
     * Deregister (pkg) and deregisterIns (kratos): cancel the heartbeat task
     * when the id is recorded, send the deregistration, ignore its answer
     * and return nil.  The id stays recorded, so registering it again
     * later sends nothing.
     */
    method Deregister(ins: Naming.Instance) returns (err: Option<GoErrors.Error>, sent: string)
      requires ins.service.Some?
      modifies if ins.id in registry then {registry[ins.id]} else {}
      ensures err.None? && sent == ins.id && registry == old(registry)
      ensures ins.id in registry ==> registry[ins.id].cancelled
    {
      if ins.id in registry {
        registry[ins.id].cancelled := true;
      }
      return None, ins.id;
    }
  }

  /** One timer tick of the heartbeat task: the heartbeat's answer and, if it re-registers, the register call's answer. */
  datatype Beat = Beat(heartbeatErr: Option<GoErrors.Error>, reregisterErr: Option<GoErrors.Error>)

  /** The agent calls the task makes. */
  datatype Call = HeartbeatCall | RegisterCall

  /** How long the timer is reset to: the regular period, or the backoff for the given retry count. */
  datatype Delay = Regular | Backoff(retries: nat)

  /** A failed heartbeat whose error `reregisterOn` accepts is followed by a re-registration. */
  predicate Reregisters(b: Beat, reregisterOn: GoErrors.Error -> bool)
  {
    b.heartbeatErr.Some? && reregisterOn(b.heartbeatErr.value)
  }

  /** The tick ends in failure: the heartbeat failed and either no re-registration was tried or it failed as well. */
  predicate Failed(b: Beat, reregisterOn: GoErrors.Error -> bool)
  {
    b.heartbeatErr.Some? && (!reregisterOn(b.heartbeatErr.value) || b.reregisterErr.Some?)
  }

  /** The number of failed ticks since the last successful one among the first n. */
  function Streak(beats: seq<Beat>, reregisterOn: GoErrors.Error -> bool, n: nat): (r: nat)
    requires n <= |beats|
    ensures r <= n
  {
    if n == 0 || !Failed(beats[n - 1], reregisterOn) then 0 else Streak(beats, reregisterOn, n - 1) + 1
  }

  /** The timer's next delay after tick i. */
  function DelayAfter(beats: seq<Beat>, reregisterOn: GoErrors.Error -> bool, i: nat): Delay
    requires i < |beats|
  {
    if Failed(beats[i], reregisterOn) then Backoff(Streak(beats, reregisterOn, i)) else Regular
  }

  /** The calls of one tick: the heartbeat, then the re-registration if there is one. */
  function TickCalls(b: Beat, reregisterOn: GoErrors.Error -> bool): seq<Call>
  {
    [HeartbeatCall] + (if Reregisters(b, reregisterOn) then [RegisterCall] else [])
  }

  /** The calls of the first n ticks. */
  function Calls(beats: seq<Beat>, reregisterOn: GoErrors.Error -> bool, n: nat): (r: seq<Call>)
    requires n <= |beats|
    ensures n <= |r| <= 2 * n
  {
    if n == 0 then [] else Calls(beats, reregisterOn, n - 1) + TickCalls(beats[n - 1], reregisterOn)
  }

  /**
   * k failed ticks right after a success (or at the start) leave a streak of
   * k, so the backoffs used are those for 0, 1, ..., k-1 retries.
   */
  lemma {:induction false} StreakOfFailures(beats: seq<Beat>, reregisterOn: GoErrors.Error -> bool, i: nat, k: nat)
    requires i + k <= |beats|
    requires i == 0 || !Failed(beats[i - 1], reregisterOn)
    requires forall j :: i <= j < i + k ==> Failed(beats[j], reregisterOn)
    ensures Streak(beats, reregisterOn, i + k) == k
    ensures forall j :: i <= j < i + k ==> DelayAfter(beats, reregisterOn, j) == Backoff(j - i)
  {
    if k > 0 {
      StreakOfFailures(beats, reregisterOn, i, k - 1);
    }
  }

  /** The timer's delays after each of the first n ticks. */
  function Delays(beats: seq<Beat>, reregisterOn: GoErrors.Error -> bool, n: nat): (r: seq<Delay>)
    requires n <= |beats|
    ensures |r| == n
  {
    if n == 0 then [] else Delays(beats, reregisterOn, n - 1) + [DelayAfter(beats, reregisterOn, n - 1)]
  }

  lemma {:induction false} DelaysAt(beats: seq<Beat>, reregisterOn: GoErrors.Error -> bool, n: nat)
    requires n <= |beats|
    ensures forall j :: 0 <= j < n ==> Delays(beats, reregisterOn, n)[j] == DelayAfter(beats, reregisterOn, j)
  {
    if n > 0 {
      DelaysAt(beats, reregisterOn, n - 1);
      assert forall j :: 0 <= j < n - 1 ==> Delays(beats, reregisterOn, n)[j] == Delays(beats, reregisterOn, n - 1)[j];
    }
  }

  /**
   * The heartbeat task, fed the ticks before its context was cancelled:
   * after `immediate` (the kratos client) one heartbeat whose answer is
   * ignored, then per tick a heartbeat, a re-registration when the error
   * calls for one, and the timer reset to the backoff for the current
   * retry count (then counting a retry) or to 20s (resetting the count).
   */
  method RunHeartbeat(beats: seq<Beat>, reregisterOn: GoErrors.Error -> bool, immediate: bool)
    returns (retries: nat, delays: seq<Delay>, calls: seq<Call>)
    ensures retries == Streak(beats, reregisterOn, |beats|)
    ensures |delays| == |beats| && forall i :: 0 <= i < |beats| ==> delays[i] == DelayAfter(beats, reregisterOn, i)
    ensures calls == (if immediate then [HeartbeatCall] else []) + Calls(beats, reregisterOn, |beats|)
  {
    var made: seq<Call> := [];
    retries := 0;
    delays := [];
    var i := 0;
    while i < |beats|
      invariant 0 <= i <= |beats|
      invariant retries == Streak(beats, reregisterOn, i)
      invariant delays == Delays(beats, reregisterOn, i)
      invariant made == Calls(beats, reregisterOn, i)
    {
      var b := beats[i];
      var err := b.heartbeatErr;
      var reregister := err.Some? && reregisterOn(err.value);
      if reregister {
        err := b.reregisterErr;
      }
      made := made + [HeartbeatCall] + (if reregister then [RegisterCall] else []);
      var delay := if err.Some? then Backoff(retries) else Regular;
      assert err.Some? == Failed(b, reregisterOn);
      delays := delays + [delay];
      retries := if err.Some? then retries + 1 else 0;
      i := i + 1;
    }
    calls := (if immediate then [HeartbeatCall] else []) + made;
    DelaysAt(beats, reregisterOn, |beats|);
  }
}
