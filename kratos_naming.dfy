/**
 * Conversion between TSF instances and kratos registry instances
 * (naming/service.go).  JSON encoding of tags and URL parsing are foreign
 * codecs and come in as caller-supplied functions.
 */
module KratosNaming {
  import opened Wrappers
  import opened GoStrings
  import opened Strconv
  import opened Naming

  const StatusKey := "tsf_status"
  const TagsKey := "tsf_tags"
  const ProtocolKey := "protocol"
  const VersionKey := "TSF_PROG_VERSION"
  const DefaultProtocol := "http"

  /** registry.ServiceInstance; a nil metadata map is None. */
  datatype KratosInstance = KratosInstance(
    id: string,
    name: string,
    version: string,
    metadata: Option<map<string, string>>,
    endpoints: seq<string>)

  /** What url.Parse yields for an endpoint: its scheme and its host[:port] part. */
  datatype Url = Url(scheme: string, host: string)

  function MetaOf(m: Option<map<string, string>>, k: string): string
  {
    match m
    case None => ""
    case Some(mm) => Lookup(mm, k)
  }

  /** The metadata ToKratosInstance publishes: a copy of the instance's, with status and tags overriding. */
  function KratosMetadata(i: Instance, marshalTags: seq<string> -> string): map<string, string>
  {
    i.metadata[StatusKey := FormatInt(i.status)][TagsKey := marshalTags(i.tags)]
  }

  function ProtocolOf(md: map<string, string>): string
  {
    if Lookup(md, ProtocolKey) == "" then DefaultProtocol else Lookup(md, ProtocolKey)
  }

  /** ToKratosInstance; the source dereferences i.Service, so it must be set. */
  function ToKratosInstance(i: Instance, marshalTags: seq<string> -> string): (ki: KratosInstance)
    requires i.service.Some?
    ensures ki.metadata.Some?
    ensures var md := ki.metadata.value;
      && md.Keys == i.metadata.Keys + {StatusKey, TagsKey}
      && md[StatusKey] == FormatInt(i.status)
      && md[TagsKey] == marshalTags(i.tags)
      && (forall k :: k in i.metadata && k != StatusKey && k != TagsKey ==> md[k] == i.metadata[k])
    ensures ki.id == i.id && ki.name == i.service.value.name
    ensures ki.version == Lookup(i.metadata, VersionKey)
    ensures ki.endpoints == [ProtocolOf(i.metadata) + "://" + i.Addr()]
    ensures ProtocolOf(i.metadata) != ""
  {
    var md := KratosMetadata(i, marshalTags);
    assert Lookup(md, ProtocolKey) == Lookup(i.metadata, ProtocolKey);
    var protocol := ProtocolOf(md);
    KratosInstance(i.id, i.service.value.name, Lookup(md, VersionKey), Some(md),
      [protocol + "://" + i.Addr()])
  }

  /** parseEndpoint: scheme, the text before the first ':' of the host, and the next field as a 32-bit signed decimal. */
  function ParseEndpoint(e: string, parseUrl: string -> Url): (r: (string, string, int))
    requires ':' in parseUrl(e).host
  {
    var u := parseUrl(e);
    var addrs := Split(u.host, ':');
    assert |addrs| >= 2 by { assert IndexOf(u.host, ':') >= 0; }
    (u.scheme, addrs[0], ParseInt(addrs[1], MaxUint32, MaxInt32 + 1))
  }

  predicate EndpointsParse(ki: KratosInstance, parseUrl: string -> Url)
  {
    forall k :: 0 <= k < |ki.endpoints| ==> ':' in parseUrl(ki.endpoints[k]).host
  }

  /**
   * The instance FromKratosInstance builds for endpoint `k`, given the
   * metadata map it ends up holding.
   */
  function Converted(ki: KratosInstance, k: nat, md: map<string, string>,
                     parseUrl: string -> Url, unmarshalTags: string -> seq<string>): Instance
    requires k < |ki.endpoints| && EndpointsParse(ki, parseUrl)
  {
    var (scheme, ip, port) := ParseEndpoint(ki.endpoints[k], parseUrl);
    Instance(
      Some(Service(MetaOf(ki.metadata, NamespaceIdKey), ki.name)),
      ki.id + "-" + scheme,
      MetaOf(ki.metadata, RegionKey),
      ip, port, md,
      Atoi(MetaOf(ki.metadata, StatusKey)),
      unmarshalTags(MetaOf(ki.metadata, TagsKey)))
  }

  /** Whatever metadata map it ends up with, instance k has a service and the ID of endpoint k. */
  lemma ConvertedIdentity(ki: KratosInstance, k: nat, md: map<string, string>,
                          parseUrl: string -> Url, unmarshalTags: string -> seq<string>)
    requires k < |ki.endpoints| && EndpointsParse(ki, parseUrl)
    ensures Converted(ki, k, md, parseUrl, unmarshalTags).service.Some?
    ensures Converted(ki, k, md, parseUrl, unmarshalTags).id == ki.id + "-" + SchemeAt(ki, k, parseUrl)
  {
  }

  function SchemeAt(ki: KratosInstance, k: nat, parseUrl: string -> Url): string
    requires k < |ki.endpoints|
  {
    parseUrl(ki.endpoints[k]).scheme
  }

  /**
   * FromKratosInstance.  Every instance holds the kratos instance's own
   * metadata map when it has one, so the "protocol" entry written for each
   * endpoint is seen by all of them and by the kratos instance; without a
   * map each instance gets a fresh one.  Returns the instances and the
   * kratos instance's metadata afterwards.
   */
  method FromKratosInstance(ki: KratosInstance, parseUrl: string -> Url, unmarshalTags: string -> seq<string>)
    returns (inss: seq<Instance>, kiMetadata: Option<map<string, string>>)
    requires EndpointsParse(ki, parseUrl)
    ensures |inss| == |ki.endpoints|
    ensures ki.metadata.None? ==> (kiMetadata.None? &&
      forall k :: 0 <= k < |inss| ==>
        inss[k] == Converted(ki, k, map[ProtocolKey := SchemeAt(ki, k, parseUrl)], parseUrl, unmarshalTags))
    ensures ki.metadata.Some? && |ki.endpoints| == 0 ==> kiMetadata == ki.metadata
    ensures ki.metadata.Some? && |ki.endpoints| > 0 ==>
      var shared := ki.metadata.value[ProtocolKey := SchemeAt(ki, |ki.endpoints| - 1, parseUrl)];
      && kiMetadata == Some(shared)
      && forall k :: 0 <= k < |inss| ==> inss[k] == Converted(ki, k, shared, parseUrl, unmarshalTags)
  {
    inss := [];
    kiMetadata := ki.metadata;
    var i := 0;
    while i < |ki.endpoints|
      invariant 0 <= i <= |ki.endpoints| && |inss| == i
      invariant ki.metadata.None? ==> (kiMetadata.None? &&
        forall k :: 0 <= k < i ==>
          inss[k] == Converted(ki, k, map[ProtocolKey := SchemeAt(ki, k, parseUrl)], parseUrl, unmarshalTags))
      invariant ki.metadata.Some? && i == 0 ==> kiMetadata == ki.metadata
      invariant ki.metadata.Some? && i > 0 ==>
        var shared := ki.metadata.value[ProtocolKey := SchemeAt(ki, i - 1, parseUrl)];
        && kiMetadata == Some(shared)
        && forall k :: 0 <= k < i ==> inss[k] == Converted(ki, k, shared, parseUrl, unmarshalTags)
    {
      var (scheme, ip, port) := ParseEndpoint(ki.endpoints[i], parseUrl);
      var md: map<string, string>;
      if kiMetadata.None? {
        md := map[ProtocolKey := scheme];
      } else {
        // the write lands in the shared map, so every instance built so far sees it
        md := kiMetadata.value[ProtocolKey := scheme];
        assert md == ki.metadata.value[ProtocolKey := scheme];
        kiMetadata := Some(md);
        inss := seq(|inss|, k requires 0 <= k < |inss| => inss[k].(metadata := md));
      }
      var ins := Instance(
        Some(Service(MetaOf(ki.metadata, NamespaceIdKey), ki.name)),
        ki.id + "-" + scheme,
        MetaOf(ki.metadata, RegionKey),
        ip, port, md,
        Atoi(MetaOf(ki.metadata, StatusKey)),
        unmarshalTags(MetaOf(ki.metadata, TagsKey)));
      inss := inss + [ins];
      i := i + 1;
    }
  }

  /** The endpoint ToKratosInstance publishes is the protocol followed by Addr. */
  lemma EndpointIsAddr(i: Instance, marshalTags: seq<string> -> string)
    requires i.service.Some?
    ensures ToKratosInstance(i, marshalTags).endpoints[0] == ProtocolOf(i.metadata) + "://" + i.Addr()
  {
  }

  /**
   * Converting to kratos and back, with codecs that invert each other,
   * gives one instance that keeps host, port, status, tags and name; its
   * ID gains "-" + protocol, its namespace and region come from metadata,
   * and its metadata is the published map with "protocol" set.
   */
  lemma {:induction false} RoundTrip(i: Instance, marshalTags: seq<string> -> string,
                                     unmarshalTags: string -> seq<string>, parseUrl: string -> Url)
    requires i.service.Some?
    requires ':' !in i.host && MinInt32 <= i.port <= MaxInt32
    requires MinInt64 <= i.status <= MaxInt64
    requires unmarshalTags(marshalTags(i.tags)) == i.tags
    requires var p := ProtocolOf(i.metadata);
      parseUrl(p + "://" + i.Addr()) == Url(p, i.host + ":" + FormatInt(i.port))
    ensures var ki := ToKratosInstance(i, marshalTags);
      EndpointsParse(ki, parseUrl) &&
      var md := KratosMetadata(i, marshalTags);
      var p := ProtocolOf(i.metadata);
      |ki.endpoints| == 1 &&
      Converted(ki, 0, md[ProtocolKey := p], parseUrl, unmarshalTags) ==
        i.(id := i.id + "-" + p,
           service := Some(Service(Lookup(md, NamespaceIdKey), i.service.value.name)),
           region := Lookup(md, RegionKey),
           metadata := md[ProtocolKey := p])
  {
    var ki := ToKratosInstance(i, marshalTags);
    var p := ProtocolOf(i.metadata);
    var hostPort := i.host + ":" + FormatInt(i.port);
    assert parseUrl(ki.endpoints[0]) == Url(p, hostPort);
    SplitAround(i.host, ':', FormatInt(i.port));
    assert hostPort == i.host + [':'] + FormatInt(i.port);
    FormatIntNoColon(i.port);
    SplitNoSep(FormatInt(i.port), ':');
    assert Split(hostPort, ':') == [i.host, FormatInt(i.port)];
    ParseIntFormat(i.port, MaxUint32, MaxInt32 + 1);
    AtoiFormat(i.status);
  }
}
