/**
 * Service identities and instances (pkg/naming/naming.go; naming/service.go
 * declares the same two value types and constants).
 */
module Naming {
  import opened Wrappers
  import opened Strconv
  import Util

  const StatusUp: int := 0
  const StatusDown: int := 1

  const GroupIdKey := "TSF_GROUP_ID"
  const NamespaceIdKey := "TSF_NAMESPACE_ID"
  const ApplicationIdKey := "TSF_APPLICATION_ID"
  const RegionKey := "TSF_REGION"

  const NsLocal := "local"
  const NsGlobal := "global"

  /** A service key: two plain fields, so equality is field-wise. */
  datatype Service = Service(namespace: string, name: string)

  /** A string-to-string map read the Go way: a missing key reads as "". */
  function Lookup(m: map<string, string>, k: string): string
  {
    if k in m then m[k] else ""
  }

  datatype Instance = Instance(
    service: Option<Service>,
    id: string,
    region: string,
    host: string,
    port: int,
    metadata: map<string, string>,
    status: int,
    tags: seq<string>)
  {
    /** Host and decimal port joined by ':'. */
    function Addr(): string
    {
      host + ":" + FormatInt(port)
    }

    function Meta(k: string): string
    {
      Lookup(metadata, k)
    }
  }

  /**
   * NewService: the namespaces "" and "local" stand for the namespace this
   * process runs in (`localNs`, read from the environment by the source).
   */
  function NewService(localNs: string, namespace: string, name: string): (s: Service)
    ensures s.name == name
    ensures namespace != "" && namespace != NsLocal ==> s.namespace == namespace
    ensures namespace == "" || namespace == NsLocal ==> s.namespace == localNs
  {
    if namespace == "" || namespace == NsLocal
    then Service(localNs, name)
    else Service(namespace, name)
  }

  /** Normalising twice is normalising once. */
  lemma NewServiceIdempotent(localNs: string, namespace: string, name: string)
    ensures var s := NewService(localNs, namespace, name);
      NewService(localNs, s.namespace, s.name) == s
  {
  }

  /** Two services are the same key iff both fields match. */
  lemma ServiceEquality(a: Service, b: Service)
    ensures a == b <==> a.namespace == b.namespace && a.name == b.name
  {
  }

  /** Addr splits back into host and port through util.ParseAddr when the host has no ':' and the port fits 16 bits. */
  lemma AddrParsesBack(i: Instance)
    requires ':' !in i.host && 0 <= i.port <= MaxUint16
    ensures Util.ParseAddr(i.Addr()) == (i.host, i.port)
    ensures Util.IPFromAddr(i.Addr()) == i.host
  {
    Util.ParseAddrRoundTrip(i.host, i.port);
    Util.HostPartsAgree(i.Addr());
  }

  /** A table keyed by the addresses of the first i nodes, once node i is stored, is keyed by those of the first i + 1. */
  lemma AddrKeysSnoc<V>(m: map<string, V>, m': map<string, V>, nodes: seq<Instance>, i: nat)
    requires i < |nodes| && m'.Keys == m.Keys + {nodes[i].Addr()}
    requires forall k :: k in m <==> exists j :: 0 <= j < i && nodes[j].Addr() == k
    ensures forall k :: k in m' <==> exists j :: 0 <= j < i + 1 && nodes[j].Addr() == k
  {
    forall k
      ensures k in m' <==> exists j :: 0 <= j < i + 1 && nodes[j].Addr() == k
    {
      if k in m {
        var j :| 0 <= j < i && nodes[j].Addr() == k;
        assert 0 <= j < i + 1;
      } else if k in m' {
        assert k == nodes[i].Addr();
      }
    }
  }
}
