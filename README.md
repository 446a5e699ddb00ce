# tsf-go traffic core in Dafny

This project models the client-side traffic logic of tsf-go, the Go SDK of Tencent Service Framework, and proves properties of that model. It also models the value helpers that logic relies on. Each Dafny module follows one source file or package:

- **Metadata and tags** (`Meta`, `Tag`). Request metadata is two maps: system values of any type, and user strings. A tag tests one field with an operator, and a rule combines tags with AND or OR. The regular-expression engine is a caller-supplied function.
- **Rule converters** (`LaneRule`, `RouteRule`, `AuthRule`). These turn lane, route and authentication documents into tag rules.
- **Authenticator** (`Authenticator`). It applies whitelist and blacklist semantics and replaces its rule set when the configuration changes.
- **Routers.**
  - `Router` and `RouteMatch` model the destination/weight router. The weighted draw and the iteration order of the candidate table are parameters.
  - `Lane` models the lane (canary) router and its rebuilt views.
  - `PkgComposite` and `RouteComposite` model the two composites.
- **Balancers** (`Random`, `P2c`, `Wrr`).
  - `Random(nodes)`, the power-of-two-choices picker and smooth weighted round robin are all modelled. Random draws, clock readings and compare-and-swap outcomes are parameters.
  - The exponential weight and the square root are caller-supplied functions. WRR weights are reals.
  - P2C keeps the source's aliasing as written: `prePick` stores the second candidate under the first one's address (pkg/balancer/p2c/p2c.go:134).
  - The P2C subConn table is a map from address to subConn objects.
- **Consul clients.**
  - `ConsulWatch` is the subscription table shared by the three clients. A watcher's one-slot channel is a boolean flag. A `select` over several ready cases takes the index of the case it picks.
  - `ConsulHealth` holds the node comparison and the health-reply classification. It also holds the poll-step fold `Start`/`Tick`/`After`/`Published`.
  - `ConsulRegistry` holds registration and the heartbeat retry state.
  - `PkgConsul` (pkg/naming/consul), `KratosConsul` (naming/consul) and `ConfigConsul` (pkg/config/consul) are the three clients. `Watcher.Close` in `ConsulWatch` is the one `Close`/`Stop` for all three.
- **Errors** (`GoErrors`, `ErrCodes`, `StatusErrors`, `StatusCodes`, `GrpcStatus`). These cover error-code equality, status errors, their code constants, and the mapping to and from gRPC status codes.
- **Server plumbing.**
  - `HttpSniff` models the HTTP/1 versus HTTP/2/TLS connection sniffer and the replaying connection.
  - `InterceptorChain`, `ServerChain` and `ClientChain` model interceptor ordering.
- **Configuration** (`TsfConfig`, `ConfigData`). `TsfConfig` models the typed getters of config/config.go. pkg/config/tconf/config.go is the same code under another type name, so the rows cite config/config.go.
- **Reporting** (`ApiMeta`, `StatMonitor`). These model the API description builder, and the call statistics with their per-minute summary.
- **Go library behaviour** (`GoStrings`, `Strconv`, `Seqs`, `Wrappers`). These model the parts of `strings` and `strconv` the code relies on, with Go's edge cases. For example, `ParseUint` saturates on a range error.

Go's map iteration order is an explicit parameter wherever the result depends on it.

## Model

| member | source | states |
|---|---|---|
| Tag.Target | pkg/sys/tag/tag.go:34-48 | a user tag always tests a string, the empty one when the field is missing; a system tag tests something iff its field holds a string |
| Tag.SysMissingNeverHits | pkg/sys/tag/tag.go:35-48 | a system tag on an absent or non-string field never hits, whatever its operator |
| Tag.OperatorSemantics | pkg/sys/tag/tag.go:49-61 | EQUAL is equality, NOT_EQUAL its negation, IN is "Value contains the target", NOT_IN its negation, REGEX a successful compiled match, any other operator false |
| Tag.UserInOnMissingFieldHits | pkg/sys/tag/tag.go:38-54 | a user tag with IN on a field the request lacks always hits |
| Tag.AllHitIff | pkg/sys/tag/rule.go:25-31 | the AND loop hits iff every tag hits |
| Tag.AnyHitIff | pkg/sys/tag/rule.go:32-37 | the OR loop hits iff some tag hits |
| Tag.RuleHit | pkg/sys/tag/rule.go:22-43 | an empty rule hits; AND needs all tags, OR some tag; COMPOSITE and unknown expressions with tags never hit |
| Meta.IsOutgoing | pkg/meta/key.go:51-57 | a key is outgoing iff it is carried or a link key |
| Meta.GetUserKey | pkg/meta/key.go:63-65 | a key without the user_def. prefix is returned as is; with it, the stripped key is the one UserKey prefixes |
| Meta.SourceKey | pkg/meta/key.go:71-73 | the result starts with "source." followed by the key |
| Meta.DestKey | pkg/meta/key.go:75-77 | the result starts with "destination." followed by the key |
| Meta.UserKeyRoundTrip | pkg/meta/key.go:59-69 | UserKey's result is a user key and GetUserKey undoes UserKey |
| Meta.LinkKeyIsLaneOnly | pkg/meta/key.go:26-39 | lane.id is the only link key and is not carried |
| Meta.UnpropagatedKeys | pkg/meta/key.go:20-35 | Namespace and tsf.tracer are never outgoing |
| Meta.ApplyPairsSpec | pkg/meta/metadata.go:23-29 | the copied map holds the old entries overridden by the pairs, the last pair for a key winning |
| Meta.WithUser | pkg/meta/metadata.go:21-31 | WithUser stores a user map and leaves the system map alone |
| Meta.WithSys | pkg/meta/metadata.go:33-43 | WithSys stores a system map and leaves the user map alone |
| Meta.Sys | pkg/meta/metadata.go:70-77 | nil without a system map or without the key |
| Meta.User | pkg/meta/metadata.go:79-86 | the empty string without a user map or without the key |
| Meta.WithSysReadBack | pkg/meta/metadata.go:33-43 | a key stored with WithSys reads back its value; other system and user keys are unchanged |
| Meta.WithUserReadBack | pkg/meta/metadata.go:21-31 | a key stored with WithUser reads back its value; other user and system keys are unchanged |
| Meta.WithSysLaterWins | pkg/meta/metadata.go:33-43 | over many pairs Sys reads the last pair for the key, otherwise the old value |
| Meta.WithUserLaterWins | pkg/meta/metadata.go:21-31 | over many pairs User reads the last pair for the key, otherwise the old value |
| Meta.RangeMap | pkg/meta/metadata.go:54-56 | every entry of the map is visited exactly once, with its value |
| Meta.RangeSys | pkg/meta/metadata.go:49-57 | nothing is visited without a system map, otherwise each entry once |
| Meta.RangeUser | pkg/meta/metadata.go:59-67 | nothing is visited without a user map, otherwise each entry once |
| LaneRule.ToTagRule | pkg/route/lane/laneRule.go:27-44 | the rule keeps the lane rule's ID; exactly "RELEATION_OR" gives OR and anything else AND; one user tag per lane tag, in order, with name, operator and value copied |
| LaneRule.LaneRuleHit | pkg/route/lane/laneRule.go:27-44 | a converted lane rule hits iff all its user tags hit, or one of them for "RELEATION_OR"; without tags it always hits |
| RouteRule.Expand | route/router/rule.go:55-102 | a "U" tag becomes one user tag unchanged; another tag one system tag with its source.* field renamed; a source.namespace.service.name tag two system tags split at the first "/", or none without a "/" |
| RouteRule.ToTagRule | route/router/rule.go:51-105 | the rule is AND over the expansions of the tags in order |
| RouteRule.ConversionKeepsOrder | route/router/rule.go:55-103 | converting two tag lists in sequence gives the two conversions in that order |
| RouteRule.ConversionLength | route/router/rule.go:55-103 | the output length is the inputs plus the expansions minus the drops |
| AuthRule.Expand | pkg/auth/authenticator/rule.go:34-66 | an "S" source.namespace.service.name tag splits at the first "/" into Namespace and Service.name system tags, or is dropped; any other tag loses a leading "destination." and is a system tag iff its type is "S" |
| AuthRule.GenTagRules | pkg/auth/authenticator/rule.go:30-68 | the stored tag rule is AND, carries the rule's ID and holds the expansions in order; nothing else in the rule changes |
| AuthRule.GenTagRulesIdempotent | pkg/auth/authenticator/rule.go:30-68 | regenerating the tag rule changes nothing |
| AuthRule.ConversionKeepsOrder | pkg/auth/authenticator/rule.go:34-66 | converting two tag lists in sequence gives the two conversions in that order |
| Authenticator.FirstHit | pkg/auth/authenticator/authenticator.go:50-59 | the index of the first rule that hits, every earlier one missing; none when no rule hits |
| Authenticator.FirstTrue | pkg/auth/authenticator/authenticator.go:50-59 | the scan over the rules' verdicts stops at the first rule that hits, every earlier one missing; none when none hits |
| Authenticator.Verify | pkg/auth/authenticator/authenticator.go:42-65 | no config or no rules allows; a whitelist allows iff some rule hits; any other type forbids iff some rule hits |
| Authenticator.FirstHitDecides | pkg/auth/authenticator/authenticator.go:50-59 | rules after the first hit do not change the verdict |
| Authenticator.Authenticator.RefreshStep | pkg/auth/authenticator/authenticator.go:67-107 | deadline and close stop the loop and other watch errors keep the config; otherwise nothing decoded with an error recorded keeps the old config, else the first decoded config replaces it, or it is cleared |
| Authenticator.ForeignKeySkipped | pkg/auth/authenticator/authenticator.go:80-84 | a spec under a foreign key contributes nothing and records an error |
| Naming.NewService | pkg/naming/naming.go:28-33 | the name is kept; "" and "local" become the local namespace, any other namespace is kept |
| Naming.NewServiceIdempotent | pkg/naming/naming.go:28-33 | normalising a normalised service changes nothing |
| Naming.ServiceEquality | pkg/naming/naming.go:23-26 | two services are the same key iff namespace and name match |
| Naming.AddrParsesBack | pkg/naming/naming.go:55-57 | Addr splits back into host and port through ParseAddr and IPFromAddr when the host has no ':' and the port fits 16 bits |
| Strconv.FormatIntNoColon | pkg/naming/naming.go:55-57 | the decimal port of an address holds no ':', so the address splits at the host's end |
| Util.ParseAddr | util/util.go:24-34 | the host is the text before the first ':'; the port is the second field parsed as a 16-bit decimal with strconv's error results, 0 without a ':' |
| Util.IPFromAddr | pkg/util/net.go:8-18 | "" for an empty address, otherwise the text before the first ':' |
| Util.HostPartsAgree | pkg/util/net.go:8-18 | IPFromAddr and ParseAddr agree on the host of every address |
| Util.ParseAddrRoundTrip | util/util.go:24-34 | "host:port" with a 16-bit port parses back to host and port |
| Util.ParseAddrSaturates | util/util.go:30-31 | a port past 16 bits reads as 65535 |
| KratosNaming.ToKratosInstance | naming/service.go:56-76 | the published metadata is a copy of the instance's with tsf_status and tsf_tags overriding; id and name are kept, the version is TSF_PROG_VERSION, and the one endpoint is protocol (default "http") "://" host:port |
| KratosNaming.ConvertedIdentity | naming/service.go:82-90 | each converted instance has a service and the id of the kratos instance followed by "-" and the endpoint's scheme |
| KratosNaming.FromKratosInstance | naming/service.go:78-99 | one instance per endpoint; with a nil metadata map each gets a fresh map holding only its protocol; otherwise all share the kratos instance's map, which ends up holding the last endpoint's protocol |
| KratosNaming.EndpointIsAddr | naming/service.go:73 | the published endpoint is the protocol, "://" and Addr |
| KratosNaming.RoundTrip | naming/service.go:56-107 | converting to kratos and back keeps host, port, status, tags and name; the id gains "-" and the protocol, namespace and region come from the metadata |
| ErrCodes.New | pkg/errCode/errCode.go:37-39 | a fresh status holding the code truncated to 32 bits, the message and no details |
| ErrCodes.Details | pkg/errCode/errCode.go:94-99 | nil for the zero value, otherwise the status's details |
| ErrCodes.WithDetails | pkg/errCode/errCode.go:87-92 | the details are appended in order to the shared status; the zero value is left alone |
| ErrCodes.ZeroValue | pkg/errCode/errCode.go:56-75 | the zero value reports code 200 and an empty message, and equals nil |
| ErrCodes.EqualNil | pkg/errCode/errCode.go:70-76 | Equal(nil) holds iff the code is 200 |
| ErrCodes.EqualOnlySameCode | pkg/errCode/errCode.go:77-84 | Equal holds only for an ErrCode of the same code |
| ErrCodes.EqualMessages | pkg/errCode/errCode.go:77-83 | below 1000 the messages are ignored; from 1000 on they must match |
| ErrCodes.EqualReflexiveSymmetric | pkg/errCode/errCode.go:70-85 | Equal is reflexive and symmetric on ErrCode values |
| StatusErrors.New | pkg/statusError/status.go:17-23 | a fresh error holding exactly the code, reason and details |
| StatusErrors.Details | pkg/statusError/status.go:54-59 | nil on a nil receiver, otherwise the details |
| StatusErrors.Is | pkg/statusError/status.go:39-51 | both nil is true and one nil false; against a StatusError code and reason must match; any other target is false; a typed-nil target with code 200 dereferences nil |
| StatusErrors.WithDetails | pkg/statusError/status.go:62-67 | the details are appended in order; a nil receiver is left alone |
| StatusErrors.NilAccessors | pkg/statusError/status.go:31-75 | a nil error reports 200, "OK" and no details |
| StatusErrors.IsIgnoresDetails | pkg/statusError/status.go:39-51 | Is compares code and reason only, and is symmetric between two errors |
| GoErrors.ToInt32 | pkg/errCode/errCode.go:38 | int32(code) lies in the 32-bit range and differs from the code by a multiple of 2^32 |
| GoErrors.ToInt32InRange | pkg/errCode/errCode.go:38 | a code that fits 32 bits is unchanged |
| StatusCodes.CodesDistinct | pkg/statusError/code.go:8-23 | the fourteen codes are pairwise distinct |
| StatusCodes.Make | pkg/statusError/code.go:25-200 | each constructor builds a fresh error with its own code and the given reason and details |
| StatusCodes.NilIsOnlyOK | pkg/statusError/code.go:30-39 | a nil error is OK and of no other kind |
| StatusCodes.WrappedKind | pkg/statusError/code.go:46-52 | a StatusError of a kind is of that kind however deeply it is wrapped |
| StatusCodes.AtMostOneKind | pkg/statusError/code.go:30-208 | at most one IsX predicate holds for a non-nil error |
| StatusCodes.NoStatusNoKind | pkg/statusError/code.go:46-52 | an error without a StatusError in its chain is of no kind |
| StatusCodes.BadRequestIsNotNotFound | pkg/statusError/code.go:46-52 | a BadRequest error is BadRequest and not NotFound |
| GrpcStatus.ToGrpcCode | pkg/grpc/status/status.go:71-100 | 444 and 499 map to Aborted and every unlisted code to Internal |
| GrpcStatus.ToGrpcStatus | pkg/grpc/status/status.go:51-69 | a non-ErrCode error is returned as is; code 200 becomes nil; any other ErrCode becomes a gRPC status error |
| GrpcStatus.FromGrpcStatus | pkg/grpc/status/status.go:10-49 | a non-status error is returned as is; OK becomes nil; Unknown comes back unchanged; any other code becomes an ErrCode of the mapped code whose message is the status error's text |
| GrpcStatus.RoundTripCodes | pkg/grpc/status/status.go:10-100 | the listed built-in codes other than 200 and 499 survive the round trip through gRPC |
| GrpcStatus.RoundTripLossy | pkg/grpc/status/status.go:31-32 | 499 comes back as 444, and a built-in code off the table comes back as 500 |
| GrpcStatus.UnlistedGrpcIsInternal | pkg/grpc/status/status.go:46-47 | every gRPC code the switch does not list becomes 500 |
| RouteMatch.WeightSumRemove | route/router/route.go:137-139 | the weight sum over a set of ids is any one bucket's weight plus the sum over the rest |
| RouteMatch.AddMatchTracks | route/router/route.go:122-130 | recording one match keeps the bookkeeping invariant: buckets hold exactly the nodes matched so far and the total is their weight sum |
| RouteMatch.AddNodeTracks | route/router/route.go:115-131 | the destination loop for one node keeps the bookkeeping invariant |
| RouteMatch.CollectTracks | route/router/route.go:114-132 | the node loop keeps the bookkeeping invariant against each destination's matches |
| RouteMatch.MatchingIsSubsequence | route/router/route.go:114-132 | the nodes a destination matches form a subsequence of the input |
| RouteMatch.MatchingMembers | route/router/route.go:116-122 | a node is among a destination's matches iff it is an input node whose metadata matches every item |
| RouteMatch.CandidatesSpec | route/router/route.go:109-132 | with distinct ids, a destination has a bucket iff it matches some node, the bucket holds its matches in input order with its weight, and the total is the weight sum |
| RouteMatch.BucketsAreSubsequences | route/router/route.go:114-131 | with distinct ids every bucket is a subsequence of the input |
| RouteMatch.CollectNonEmpty | route/router/route.go:122-130 | no bucket is ever empty |
| RouteMatch.CollectSumNonNegative | route/router/route.go:123-126 | non-negative weights give a non-negative total |
| RouteMatch.DuplicateIdsInconsistent | route/router/route.go:123-129 | an id listed twice with different weights leaves the total at the first weight and the bucket at the last, so the draw can miss every bucket |
| RouteMatch.ItemsMatch | route/router/route.go:116-121 | the item loop reports a match iff every item equals the node's metadata value |
| RouteMatch.BuildCandidates | route/router/route.go:109-132 | the node and destination loops build the candidate table and total |
| RouteMatch.LeftVisited | route/router/route.go:137-138 | over an iteration order of the table, the loop's remainder is the total minus the weights of the buckets visited so far |
| RouteMatch.LeftAtEnd | route/router/route.go:137-143 | after every bucket the remainder is the total minus the weight sum, so it is 0 exactly when the bookkeeping is consistent |
| RouteMatch.LeftShrinks | route/router/route.go:137-138 | with non-negative weights the remainder never grows along the order |
| RouteMatch.DrawInterval | route/router/route.go:136-141 | with non-negative weights the j-th bucket visited is taken by exactly the draws in [remainder after it, remainder before it) |
| RouteMatch.DrawCountBelow | route/router/route.go:136-141 | the number of draws below n that take the j-th bucket is the overlap of [0, n) with that interval |
| RouteMatch.DrawsProportional | route/router/route.go:136-141 | when the total is the weight sum, for every iteration order each bucket is taken by exactly as many of the draws 0 .. total-1 as its weight: the weighted random choice |
| RouteMatch.Scan | route/router/route.go:136-143 | for the iteration order given, the result is the bucket of the first visit that brings the remainder to the draw or below; a panic means the remainder stayed above the draw after every bucket, which happens only when the total is not the weight sum; a chosen bucket has positive weight |
| RouteMatch.MatchByRule | route/router/route.go:108-144 | a zero total gives no instances, a negative one panics; otherwise the draw in [0, total) takes, over the map's iteration order, the bucket Scan describes: a non-empty bucket of positive weight, or a panic only when the bookkeeping is inconsistent |
| Router.Decider | route/router/route.go:86-99 | the first rule that hits and matches instances with a non-zero total; every earlier hit rule matched nothing |
| Router.FirstDecisive | route/router/route.go:86-99 | the scan stops at the first rule that hits with a non-zero total, every earlier hit rule having a zero total; none when no rule decides |
| Router.WellFormedSelection | route/router/route.go:86-104 | for rules with distinct destination ids and non-negative weights nothing panics and the selection is a subsequence of the nodes |
| Router.PermitsSubsequence | route/router/route.go:67-106 | with a well-formed catalog Select never panics and returns a subsequence of its input |
| Router.AddGroup | route/router/route.go:165-171 | a decoded group is filed under its normalised service, and also under "global" when its namespace is foreign; other entries are kept |
| Router.CatalogEntries | route/router/route.go:157-172 | every catalog entry is the first group of a spec that decoded, under its own service or its global alias |
| Router.LastSpecWins | route/router/route.go:158-172 | the last spec that decodes wins its service key and its global alias |
| Router.DeciderIs | route/router/route.go:86-99 | a hit rule with a non-zero total after hit rules with zero totals is the deciding one |
| Router.EmptyMatchMeansZero | route/router/route.go:133-135 | an empty match means the rule's total was zero |
| Router.AllowedDecided | route/router/route.go:89-95 | the loop stops at the deciding rule with its outcome |
| Router.AllowedExhausted | route/router/route.go:100-104 | a loop without a non-empty selection returns all nodes when nothing hit or the group falls back, otherwise none |
| Router.MatchRule | route/router/route.go:108-144 | matchByRule for one rule with its own draw and iteration order keeps matchByRule's promises, including which bucket the draw takes |
| Router.ApplyRules | route/router/route.go:86-105 | the rule loop and fallback select what the group's rules allow: all nodes without a hit, the fallback when hits match nothing, else the deciding rule's draw |
| Router.Router.constructor | route/router/route.go:55-65 | the router subscribes to "route/" + namespace + "/" and starts with no catalog |
| Router.Router.Select | route/router/route.go:67-106 | no nodes, no catalog, no group for the normalised service or a group without rules return the nodes unchanged; otherwise the group's rules decide |
| Router.Router.RefreshStep | route/router/route.go:146-179 | deadline and close stop the loop and other errors keep the catalog; otherwise the rebuilt catalog replaces the old one unless it is empty and the last spec failed |
| Lane.HasEntranceSpec | pkg/route/lane/lane.go:258-261 | the group loop marks a lane effective iff one of its groups is the local group with the entrance flag |
| Lane.NamespaceKeysSpec | pkg/route/lane/lane.go:262-269 | the group loop files the lane under exactly the namespaces of its non-entrance groups |
| Lane.GroupKeysSpec | pkg/route/lane/lane.go:270-275 | the group loop files the lane under exactly the ids of its groups |
| Lane.SpreadSpec | pkg/route/lane/lane.go:263-275 | filing a lane under keys creates the missing sets, adds only that lane, and touches only those keys |
| Lane.AddLaneGroups | pkg/route/lane/lane.go:258-276 | the group loop for one lane adds it to the effective lanes when it is effective and to the namespace and group sets of its groups |
| Lane.EffectiveViewStep | pkg/route/lane/lane.go:257-261 | one more lane keeps the effective map equal to the effective lanes visited so far |
| Lane.NamespaceViewStep | pkg/route/lane/lane.go:257-269 | one more lane keeps each namespace's set equal to the visited lanes that list it |
| Lane.GroupViewStep | pkg/route/lane/lane.go:257-275 | one more lane keeps each group's set equal to the visited lanes that list it |
| Lane.FoldViews | pkg/route/lane/lane.go:257-277 | whatever the map's iteration order, the three maps are the views over the lanes visited |
| Lane.BuildViews | pkg/route/lane/lane.go:254-277 | refreshLanes' loops build the effective-lane, namespace and group views over all lanes |
| Lane.InLaneListed | pkg/route/lane/lane.go:144-148 | under the group view an instance is in a lane iff that lane lists the instance's group |
| Lane.ColorNodesSpec | pkg/route/lane/lane.go:143-152 | selectColor keeps exactly the lane's instances, in input order |
| Lane.UncoloredSpec | pkg/route/lane/lane.go:164-179 | selectNormal's filter keeps exactly the instances of no lane, in input order |
| Lane.Participation | pkg/route/lane/lane.go:114-126 | the search loops find a hit iff some instance shares application and namespace with a group of the lane |
| Lane.RulesOfAddLane | pkg/route/lane/lane.go:288-294 | collecting one more lane adds that lane's rules, whatever the order of lanes |
| Lane.RulesOfNone | pkg/route/lane/lane.go:287 | no lanes collect no rules |
| Lane.RulesOfMembers | pkg/route/lane/lane.go:289-293 | a rule is collected iff it is one of the rules and names one of the lanes |
| Lane.InsertRule | pkg/route/lane/lane.go:295-300 | inserting into a list sorted by priority then creation time keeps it sorted and adds that one rule |
| Lane.SortRules | pkg/route/lane/lane.go:295-300 | sort.Slice by priority, then creation time: sorted and a permutation |
| Lane.RulesForLane | pkg/route/lane/lane.go:289-293 | the inner loop collects the rules of one lane in order |
| Lane.CollectRules | pkg/route/lane/lane.go:287-294 | the outer loop collects, as a multiset, the rules of every effective lane |
| Lane.FirstLaneHit | pkg/route/lane/lane.go:80-88 | the first effective rule whose lane is known and whose tags hit, every earlier rule failing one of the two |
| Lane.RequestLane | pkg/route/lane/lane.go:95-96 | the lane id is the request's system LaneID when it is a non-empty string |
| Lane.Decoded | pkg/route/lane/lane.go:194-202 | the decode loop keeps at most one item per spec |
| Lane.LaneTable | pkg/route/lane/lane.go:228-238 | allLanes is keyed by each lane's own id |
| Lane.LaneTableSpec | pkg/route/lane/lane.go:228-238 | every decoded lane is in allLanes and allLanes holds only decoded lanes |
| Lane.DecodeAll | pkg/route/lane/lane.go:193-202 | undecodable specs are skipped, and the flag says whether the last spec failed |
| Lane.KeyById | pkg/route/lane/lane.go:228-238 | the loop files each decoded lane under its id, later ones winning |
| Lane.Lane.constructor | pkg/route/lane/lane.go:55-72 | a new router starts with empty rules, lanes, views and cache |
| Lane.Lane.GetLaneID | pkg/route/lane/lane.go:74-89 | the id of the lane of the first effective rule whose lane is known and whose tags hit, and "" when there is none |
| Lane.Lane.SelectColor | pkg/route/lane/lane.go:138-153 | selectColor returns exactly the instances of the lane, in order |
| Lane.Lane.SelectNormal | pkg/route/lane/lane.go:155-180 | selectNormal returns all nodes when the callee's namespace has no lanes, else the instances of no lane |
| Lane.Lane.Selection | pkg/route/lane/lane.go:91-136 | Select's result is always a subsequence of the input nodes |
| Lane.Lane.Select | pkg/route/lane/lane.go:91-136 | Select returns Selection in its starting state and caches a participation that was not yet cached; nothing else changes |
| Lane.Lane.RefreshLanes | pkg/route/lane/lane.go:253-284 | refreshLanes rebuilds the three views from allLanes and clears the services cache |
| Lane.Lane.RefreshRules | pkg/route/lane/lane.go:286-304 | refreshRules sets the rules to the effective lanes' rules, sorted and as a permutation |
| Lane.Lane.RefreshRuleStep | pkg/route/lane/lane.go:183-213 | one refreshAllRule round stops on deadline or close, keeps the old rules on other errors or when nothing decoded and the last spec failed, and otherwise replaces them and rebuilds |
| Lane.Lane.RefreshLaneStep | pkg/route/lane/lane.go:217-250 | one refreshAllLane round, under the same rules, replaces allLanes with the decoded table and rebuilds the views and rules |
| PkgComposite.Composite.constructor | pkg/route/composite/composite.go:34-36 | New keeps the router and the lane router it is given |
| PkgComposite.Composite.Select | pkg/route/composite/composite.go:38-44 | an empty lane selection is returned as it is; otherwise the router runs on it, and with a router that keeps subsequences the result is a subsequence of the input |
| PkgComposite.Composite.Lane | pkg/route/composite/composite.go:46-48 | Lane returns the lane router the composite was built with |
| PkgComposite.Defaults.DefaultComposite | pkg/route/composite/composite.go:25-32 | the first call builds the composite and every later call returns that same object |
| RouteComposite.Composite.constructor | route/composite/composite.go:35-37 | New keeps the router and the lane router it is given |
| RouteComposite.Composite.Select | route/composite/composite.go:39-45 | an empty lane selection is returned as it is; otherwise route/router decides, and with a well-formed catalog the result is a subsequence of the input |
| RouteComposite.Composite.Lane | route/composite/composite.go:47-49 | Lane returns the lane router the composite was built with |
| RouteComposite.Defaults.DefaultComposite | route/composite/composite.go:26-33 | the first call builds the composite and every later call returns that same object |
| Random.Pick | pkg/balancer/random/random.go:20-26 | no node for an empty list, otherwise the node at the drawn index |
| Random.EveryNodeReachable | pkg/balancer/random/random.go:24-25 | every node of the list is picked by exactly one draw in range, so the pick is uniform |
| P2c.U64 | pkg/balancer/p2c/p2c.go:72 | uint64 arithmetic keeps values below 2^64 and leaves values already in range alone |
| P2c.PenaltyNeverApplies | pkg/balancer/p2c/p2c.go:70-78 | without wrap-around the load is sqrt-term times inflight: the penalty branch never changes the value |
| P2c.ShiftDistinct | pkg/balancer/p2c/p2c.go:122-126 | prePick's two indices are in range and distinct |
| P2c.ShiftCovers | pkg/balancer/p2c/p2c.go:122-126 | every ordered pair of distinct indices can be drawn |
| P2c.EwmaBetween | pkg/balancer/p2c/p2c.go:202-214 | a moving-average step lands between the old value and the sample |
| P2c.EwmaUndecayed | pkg/balancer/p2c/p2c.go:199-202 | with weight 0 the sample is taken as it is |
| P2c.SuccessSampleAsWritten | pkg/balancer/p2c/p2c.go:205-212 | the success sample as the code computes it is 0 or 1000 |
| P2c.WrappedDeadlineCountsAsSuccess | pkg/balancer/p2c/p2c.go:207 | a wrapped deadline error counts as a success as written, and as a failure as intended |
| P2c.SuccessSample | pkg/balancer/p2c/p2c.go:205-212 | the intended sample: 1000 without error, 0 iff the error is or wraps a context deadline or cancel, or the error handler flags it |
| P2c.SuccessSampleAgreesUnwrapped | pkg/balancer/p2c/p2c.go:207 | the written and intended samples agree on every error that is not wrapped |
| P2c.RecordAsWrittenVsIntended | pkg/balancer/p2c/p2c.go:199-212 | the done step as written and as intended differ only in health: the written sample is never lower, and both records agree on every other field, and entirely on unwrapped errors |
| P2c.RecordFirstSample | pkg/balancer/p2c/p2c.go:198-203 | with no lag recorded yet, the first latency and success samples are taken as they are |
| P2c.RecordHealthBounds | pkg/balancer/p2c/p2c.go:205-215 | health stays at most 1000; a success never lowers it and a failure never raises it |
| P2c.RecordUndoesPick | pkg/balancer/p2c/p2c.go:180-184 | a pick followed by its done leaves inflight as it was |
| P2c.SubConn.constructor | pkg/balancer/p2c/p2c.go:53-60 | a new subConn has lag 0, success 1000 and inflight 1 |
| P2c.Picker.Build | pkg/balancer/p2c/p2c.go:94-105 | one new subConn per address of the nodes, later duplicates replacing earlier ones |
| P2c.Picker.Draw | pkg/balancer/p2c/p2c.go:127-135 | each side is the table's subConn or a new one; a new B is stored under A's address |
| P2c.Picker.Round | pkg/balancer/p2c/p2c.go:122-135 | one round draws two distinct in-range indices and meets only known or new subConns |
| P2c.Picker.PrePick | pkg/balancer/p2c/p2c.go:119-143 | at most two rounds; a second only when neither side of the first was valid |
| P2c.Picker.Pick | pkg/balancer/p2c/p2c.go:145-183 | nothing for no nodes; the table's (or a new) subConn for one node; otherwise the less loaded side relative to health or a forced swap to the other; the chosen subConn's inflight and reqs grow by one and no other subConn changes |
| P2c.Picker.Choose | pkg/balancer/p2c/p2c.go:160-174 | the preferred side, and the swap to the other side when it has not been picked for more than forceGap and the compare-and-swap wins |
| P2c.Picker.Account | pkg/balancer/p2c/p2c.go:176-181 | the pick stamp moves unless the chosen side is also the other side, and inflight and reqs grow by one |
| P2c.Picker.Done | pkg/balancer/p2c/p2c.go:183-215 | the done callback applies one Record step with the success sample as written (the swapped errors.Is test) and the picker's error handler |
| Wrr.EWT | pkg/balancer/wrr/wrr.go:74-79 | the effective weight is positive for a non-negative score |
| Wrr.FirstMaxSpec | pkg/balancer/wrr/wrr.go:152-159 | the winner has the largest grown weight, and every earlier key has strictly less |
| Wrr.BumpedSum | pkg/balancer/wrr/wrr.go:152-158 | growing every weight adds totalWeight to the sum of current weights |
| Wrr.ReplaceSum | pkg/balancer/wrr/wrr.go:160 | replacing one subConn changes the weight sum by the change in its weight |
| Wrr.PickConservesWeight | pkg/balancer/wrr/wrr.go:152-160 | a pick leaves the sum of the current weights unchanged |
| Wrr.PickWinner | pkg/balancer/wrr/wrr.go:152-163 | the winner has the largest grown weight and the first such key wins; every other subConn just has its weight grown |
| Wrr.OrderEmpty | pkg/balancer/wrr/wrr.go:152 | the iteration order is empty exactly when the table is |
| Wrr.BumpNAt | pkg/balancer/wrr/wrr.go:152-155 | after n steps a key's weight is grown iff it is among the first n keys |
| Wrr.BumpNEverything | pkg/balancer/wrr/wrr.go:152-159 | the first loop grows every weight |
| Wrr.WinN | pkg/balancer/wrr/wrr.go:156-158 | after one or more keys there is a pc, and it is one of the keys seen |
| Wrr.WinNIsFirstMax | pkg/balancer/wrr/wrr.go:156-158 | the pc the loop keeps is the first key of largest grown weight |
| Wrr.AddWeights | pkg/balancer/wrr/wrr.go:152-159 | the first loop computes the grown weights, their total and the winner |
| Wrr.FirstLoopResult | pkg/balancer/wrr/wrr.go:152-159 | over a whole iteration order the first loop grows every weight and keeps as pc the first key of largest grown weight |
| Wrr.AfterPickFlowing | pkg/balancer/wrr/wrr.go:160-163 | after a pick every subConn still has a call in flight, so EWT stays defined |
| Wrr.Step | pkg/balancer/wrr/wrr.go:150-163 | the round-robin step returns the winner's node and the table after the pick |
| Wrr.Load | pkg/balancer/wrr/wrr.go:85-92 | the load is positive: lag + 1, or the penalty when that wraps |
| Wrr.RawScore | pkg/balancer/wrr/wrr.go:211-215 | the recomputed score is non-negative, and positive iff the scaled health is positive |
| Wrr.PosTotalPositive | pkg/balancer/wrr/wrr.go:218-221 | the total of the positive scores is non-negative, and positive when one of them is |
| Wrr.RescoredKeeps | pkg/balancer/wrr/wrr.go:210-233 | a recompute keeps every key, node, statistic and weight, and leaves no score negative |
| Wrr.RescoredScores | pkg/balancer/wrr/wrr.go:223-233 | with at least two positive scores every score ends up positive; otherwise every score is the raw one |
| Wrr.RawNAt | pkg/balancer/wrr/wrr.go:210-216 | after n steps a key's score is recomputed iff it is among the first n keys |
| Wrr.FillNAt | pkg/balancer/wrr/wrr.go:229-233 | after n steps a key's score is filled in iff it is among the first n keys |
| Wrr.RawLoopDone | pkg/balancer/wrr/wrr.go:210-222 | the first recompute loop rescores every subConn |
| Wrr.FillLoopDone | pkg/balancer/wrr/wrr.go:229-233 | the second loop fills in every non-positive score |
| Wrr.RawScores | pkg/balancer/wrr/wrr.go:206-222 | the first loop rescores every subConn and counts and sums the positive scores |
| Wrr.FillScores | pkg/balancer/wrr/wrr.go:229-233 | the second loop sets every non-positive score to a quarter of the average |
| Wrr.Rescore | pkg/balancer/wrr/wrr.go:206-234 | the two loops compute the rescored table |
| Wrr.KeepsFlowing | pkg/balancer/wrr/wrr.go:166 | replacing one entry by one with calls in flight keeps every inflight count positive |
| Wrr.Picker.Build | pkg/balancer/wrr/wrr.go:108-122 | one new subConn per address, later ones replacing earlier, and updateAt set to now |
| Wrr.Picker.Pick | pkg/balancer/wrr/wrr.go:139-165 | no node for an empty list; a nil dereference when the table is empty; otherwise the largest grown weight wins over the whole table |
| Wrr.Picker.Done | pkg/balancer/wrr/wrr.go:165-235 | one Record step on the picked subConn, with the success sample as written (the swapped errors.Is test); then, when updateGap has passed and the compare-and-swap wins, updateAt moves to now and every score is recomputed |
| ConsulWatch.Select | pkg/naming/consul/consul.go:585-597 | the select blocks iff no case is ready and otherwise yields one ready case: the caller's deadline, the watcher's close, or the stored value |
| ConsulWatch.EveryReadyCaseChosen | pkg/naming/consul/consul.go:586-595 | every ready case of the select can be the one chosen |
| ConsulWatch.Hub.constructor | pkg/naming/consul/consul.go:205-223 | a new client starts with an empty table |
| ConsulWatch.Hub.Join | pkg/naming/consul/consul.go:462-482 | Subscribe adds a new watcher to the key's entry, creating the entry and its polling when missing; it prefills the slot iff the entry already holds a non-empty value; other entries are unchanged |
| ConsulWatch.Hub.Lookup | pkg/naming/consul/consul.go:493-508 | Fetch reports whether the key is known and its stored value; an unknown key gets a new polling entry and no value |
| ConsulWatch.Entry.constructor | pkg/naming/consul/consul.go:484-491 | a new entry has no value, no watchers, and its polling running |
| ConsulWatch.Entry.Broadcast | pkg/naming/consul/consul.go:548-558 | broadcast stores the value and fills every watcher's slot |
| ConsulWatch.Watcher.constructor | pkg/naming/consul/consul.go:463-466 | a new watcher has an empty slot and is open |
| ConsulWatch.Watcher.Receive | pkg/naming/consul/consul.go:585-597 | Watch yields the select's case and takes the token out of the slot only when the event is received |
| ConsulWatch.Watcher.Close | pkg/naming/consul/consul.go:599-613 | a second Close does nothing; otherwise the watcher leaves its entry, and the last one out removes the entry and stops its polling |
| ConsulHealth.CompareEquivalence | pkg/naming/consul/consul.go:66-76 | compare is reflexive, symmetric and transitive and ignores metadata and name |
| ConsulHealth.CompareNodes | pkg/naming/consul/consul.go:78-95 | compareNodes holds iff the lengths match and every new node has an equal old node |
| ConsulHealth.SameNodesPermutation | pkg/naming/consul/consul.go:78-95 | a reordered reply compares equal |
| ConsulHealth.SameNodesIgnoresMultiplicity | pkg/naming/consul/consul.go:82-92 | a repeated node can hide a missing one, and the comparison is not symmetric |
| ConsulHealth.HealthService | pkg/naming/consul/consul.go:302-322 | NotFound counts as success; other errors come back with index 0; a missing or unparsable X-Consul-Index is an error; the nodes are always returned |
| ConsulHealth.HealthServiceIndex | pkg/naming/consul/consul.go:311-313 | a header holding the decimal form of an int64 yields exactly that index, with no error |
| ConsulHealth.HealthServiceNeedsIndex | pkg/naming/consul/consul.go:312-316 | a reply without the index header is an error |
| ConsulHealth.QueryParams | pkg/naming/consul/consul.go:285-296 | a foreign-namespace service asks for GLOBAL or its own namespace; otherwise the configured namespace is used when set; the app id follows when set |
| ConsulHealth.OneNamespaceParam | pkg/naming/consul/consul.go:285-293 | at most one namespace parameter is sent |
| ConsulHealth.Start | pkg/naming/consul/consul.go:517 | the initial query's results are kept even when it failed |
| ConsulHealth.Tick | pkg/naming/consul/consul.go:528-543 | an error only counts a retry; a success resets the retries and adopts the index, and replaces the nodes exactly when it is broadcast |
| ConsulHealth.EmptySuccessKeepsSnapshot | pkg/naming/consul/consul.go:536-541 | an empty success is not broadcast and keeps the remembered nodes |
| ConsulHealth.PublishedIsRemembered | pkg/naming/consul/consul.go:517-544 | once anything was broadcast, the remembered nodes are the latest broadcast ones, and they are not empty |
| ConsulHealth.RetriesCountErrors | pkg/naming/consul/consul.go:531-542 | the retry counter is the number of errors since the last success |
| ConsulHealth.Subscribe | pkg/naming/consul/consul.go:510-546 | the poll loop ends in the folded state; the entry holds the latest broadcast snapshot, and every watcher's slot is filled iff something was broadcast or it already was |
| ConsulRegistry.CheckId | pkg/naming/consul/consul.go:619-621 | the check id is "service:" followed by the instance id, which can be read back |
| ConsulRegistry.CheckIdInjective | pkg/naming/consul/consul.go:619-621 | distinct instances get distinct check ids |
| ConsulRegistry.Definition | pkg/naming/consul/consul.go:326-337 | the definition carries the instance's id, service name, host, metadata, port and tags, and a 40-second TTL check |
| ConsulRegistry.AgentParams | pkg/naming/consul/consul.go:339-344 | the agent calls add nid and uid, each only when set, and never GLOBAL |
| ConsulRegistry.AgentParamsAreLocalQuery | pkg/naming/consul/consul.go:339-344 | the agent's parameters are those of a health query for a service of the process's own namespace |
| ConsulRegistry.InsInfo.constructor | pkg/naming/consul/consul.go:408-412 | a recorded instance starts with its heartbeat context not cancelled |
| ConsulRegistry.Registry.constructor | pkg/naming/consul/consul.go:209 | the registry starts empty |
| ConsulRegistry.Registry.Register | pkg/naming/consul/consul.go:402-418 | a recorded id returns nil and sends nothing; otherwise the id is recorded before the definition is sent, the agent's answer is returned, and the heartbeat starts iff it was nil |
| ConsulRegistry.Registry.Deregister | pkg/naming/consul/consul.go:450-460 | a recorded id's heartbeat is cancelled, the deregistration is sent, nil is returned and the id stays recorded |
| ConsulRegistry.Streak | pkg/naming/consul/consul.go:436-443 | the retry count never exceeds the number of ticks |
| ConsulRegistry.Calls | pkg/naming/consul/consul.go:429-435 | each tick makes one or two agent calls |
| ConsulRegistry.StreakOfFailures | pkg/naming/consul/consul.go:436-443 | k failures after a success use the backoffs for 0, 1, ..., k-1 retries |
| ConsulRegistry.RunHeartbeat | pkg/naming/consul/consul.go:419-446 | the heartbeat loop makes the calls of each tick, resets the timer to the backoff for the retry count after a failure and to 20s after a success |
| PkgConsul.HealthParams | pkg/naming/consul/consul.go:285-296 | GLOBAL is asked for iff the service is foreign and its name is "global"; any nid is the service's or the configured namespace |
| PkgConsul.GlobalIsTestedOnName | pkg/naming/consul/consul.go:286-290 | the GLOBAL test looks at the service name, not its namespace |
| PkgConsul.Store | pkg/naming/consul/consul.go:560-575 | one instance per node, in order, with the normalised service, the node's id, address, port and metadata, and status Up |
| PkgConsul.StoreKeepsComparison | pkg/naming/consul/consul.go:560-575 | two nodes compare equal iff their stored instances have the same id, host and port |
| PkgConsul.WatchResult | pkg/naming/consul/consul.go:585-597 | Deadline or ClientClosed for the context cases; the stored instances for the event; a panic when nothing was stored |
| PkgConsul.Watch | pkg/naming/consul/consul.go:585-597 | Watch is the select followed by WatchResult, consuming the token only for the event |
| PkgConsul.ClosedWatcherReportsClosed | pkg/naming/consul/consul.go:590-592 | a closed watcher with no event pending reports ClientClosed |
| PkgConsul.Consul.constructor | pkg/naming/consul/consul.go:205-223 | New starts with empty discovery and registry tables |
| PkgConsul.Consul.Subscribe | pkg/naming/consul/consul.go:462-482 | one shared entry per service; the first watcher creates it and a later one is prefilled when the stored snapshot is non-empty |
| PkgConsul.Consul.Fetch | pkg/naming/consul/consul.go:493-508 | the stored instances of a known service; nil and false for an unknown one, which gets a polling entry |
| PkgConsul.Consul.Poll | pkg/naming/consul/consul.go:510-546 | the poll loop stores with this client's store and notifies every watcher iff something was broadcast |
| PkgConsul.Consul.Register | pkg/naming/consul/consul.go:402-418 | registration is idempotent by id, and the id is recorded before the definition is sent |
| PkgConsul.Consul.Heartbeat | pkg/naming/consul/consul.go:419-446 | the heartbeat task re-registers on NotFound and Internal and backs off after failures |
| PkgConsul.Consul.Deregister | pkg/naming/consul/consul.go:450-460 | cancels a recorded id's heartbeat, sends the deregistration and returns nil |
| KratosConsul.HealthParams | naming/consul/discovery.go:232-243 | GLOBAL is asked for iff the service is foreign and its namespace is "global"; any nid is the service's or the configured namespace |
| KratosConsul.GlobalRulesDiffer | naming/consul/discovery.go:232-237 | the two clients' queries differ exactly for a foreign service where only one of "name is global" and "namespace is global" holds |
| KratosConsul.Key | naming/consul/discovery.go:291 | Watch and GetService key by the service name with an empty namespace |
| KratosConsul.KeyedQueriesAreLocal | naming/consul/discovery.go:232-240 | so this client only ever sends the configured namespace, when set |
| KratosConsul.NodeInstance | naming/consul/discovery.go:396-403 | a node's instance takes its namespace from the metadata and its name from the service field, with status Up |
| KratosConsul.Store | naming/consul/discovery.go:393-408 | store converts each node's instance to a kratos instance, in order |
| KratosConsul.StoredInstance | naming/consul/discovery.go:396-405 | a stored instance keeps the node's id and name and publishes status "0" |
| KratosConsul.NextResult | naming/consul/discovery.go:418-427 | ClientClosed for a closed watcher, the stored instances for the event, and a panic when nothing was stored |
| KratosConsul.WatchNext | naming/consul/discovery.go:418-427 | Next is the select without a caller deadline, followed by NextResult |
| KratosConsul.NextAfterStop | naming/consul/discovery.go:418-444 | after Stop with no pending event, Next is ClientClosed; with neither, it blocks |
| KratosConsul.FirstFailure | naming/consul/registry.go:14-22 | the first instance whose registration is sent and fails, each earlier one either skipped or accepted |
| KratosConsul.IdsSnoc | naming/consul/registry.go:15 | one more instance adds its id |
| KratosConsul.NewAtUnseen | naming/consul/registry.go:26-29 | an instance is sent iff the registry lacks its id at that point |
| KratosConsul.FirstFailureStays | naming/consul/registry.go:16-18 | the first failure stays the first one |
| KratosConsul.Consul.constructor | naming/consul/discovery.go:313-320 | the client starts with empty discovery and registry tables |
| KratosConsul.Consul.Watch | naming/consul/discovery.go:290-311 | one shared entry per service name; a later watcher is prefilled when the snapshot is non-empty; never an error |
| KratosConsul.Consul.GetService | naming/consul/discovery.go:322-341 | an unknown service gets an entry and (nil, nil); a known one its stored instances, or "not found " when nothing was stored |
| KratosConsul.Consul.Poll | naming/consul/discovery.go:343-379 | the poll loop stores with this client's store and notifies every watcher iff something was broadcast |
| KratosConsul.Consul.RegisterAt | naming/consul/registry.go:16-18 | one step of Register registers instance i and fails iff it is the first failure |
| KratosConsul.Consul.RegisterEach | naming/consul/registry.go:15-21 | the loop returns the first failure's error and records the ids of the instances up to it |
| KratosConsul.Consul.Register | naming/consul/registry.go:14-22 | Register converts the instance and registers one id per endpoint, returning the first error |
| KratosConsul.Consul.Heartbeat | naming/consul/registry.go:41-69 | one immediate heartbeat, then the same loop as the other client |
| KratosConsul.Consul.DeregisterEach | naming/consul/registry.go:74-80 | the deregistrations are sent in order up to the first error, which is returned; the registry is not touched |
| KratosConsul.Consul.Deregister | naming/consul/registry.go:73-81 | Deregister sends one deregistration per endpoint id, stopping at the first error |
| KratosConsul.Consul.DeregisterIns | naming/consul/registry.go:83-93 | deregisterIns cancels a recorded id's heartbeat and returns nil |
| ConfigConsul.FetchParams | pkg/config/consul/consul.go:103-112 | recurse is asked for iff the path ends in "/", nid and uid iff configured, with the configured values |
| ConfigConsul.IsNotFoundIsEqual | pkg/config/consul/consul.go:128 | errCode.NotFound.Equal holds exactly for ErrCode errors of code 404 |
| ConfigConsul.Decoded | pkg/config/consul/consul.go:145-152 | the decoding loop yields at most one spec per item |
| ConfigConsul.DecodedFromItems | pkg/config/consul/consul.go:145-152 | every spec is an item, in the items' order, carrying the item's key and its decoded value |
| ConfigConsul.DecodedAll | pkg/config/consul/consul.go:145-152 | when every value decodes, spec k is item k with its decoded value |
| ConfigConsul.DecodeItems | pkg/config/consul/consul.go:145-152 | the loop skips the values that do not decode and keeps the rest in order |
| ConfigConsul.Fetched | pkg/config/consul/consul.go:126-153 | success iff the reply is fine or a 404 and the index header is present and parses; then the decoded items; a transport error iff an error other than 404 |
| ConfigConsul.Fetch | pkg/config/consul/consul.go:126-153 | fetch after its query returns what Fetched describes |
| ConfigConsul.NotFoundReadsAsEmpty | pkg/config/consul/consul.go:127-144 | a deleted key (404 with a valid index) reads as no specs, the index and no error |
| ConfigConsul.Start | pkg/config/consul/consul.go:162 | the initial fetch's results are taken whether or not it failed |
| ConfigConsul.Tick | pkg/config/consul/consul.go:173-181 | a failed tick changes nothing; a successful one replaces the remembered specs and index |
| ConfigConsul.PublishedIsRemembered | pkg/config/consul/consul.go:162-182 | after a broadcast the remembered specs are always the last broadcast ones |
| ConfigConsul.ChangeIsBroadcast | pkg/config/consul/consul.go:177-179 | a successful fetch that differs from the remembered state is broadcast |
| ConfigConsul.Poll | pkg/config/consul/consul.go:156-196 | the topic's loop ends in the state After describes, stores the last broadcast and notifies every watcher iff something was broadcast |
| ConfigConsul.WatchResult | pkg/config/consul/consul.go:240-252 | Deadline or ClientClosed for the two context cases, the stored specs (nil when none) for an event |
| ConfigConsul.Watch | pkg/config/consul/consul.go:240-252 | Watch is the select followed by WatchResult, consuming the event only when specs are delivered |
| ConfigConsul.DeletedKeyDeliversNothing | pkg/config/consul/consul.go:248-250 | after an empty broadcast, a fired event delivers no specs |
| ConfigConsul.RawUnmarshal | pkg/config/consul/consul.go:219-224 | nil data unmarshals to nothing without error; other data goes to the YAML decoder |
| ConfigConsul.RawBytes | pkg/config/consul/consul.go:226-231 | Raw returns the data itself, nil for nil |
| ConfigConsul.Consul.constructor | pkg/config/consul/consul.go:64-76 | the source starts with no topics |
| ConfigConsul.Consul.Subscribe | pkg/config/consul/consul.go:78-100 | the first subscriber of a path creates its topic and starts its poll; later ones join it; no slot is prefilled |
| ConfigConsul.Consul.Get | pkg/config/consul/consul.go:198-207 | Get returns nil whatever is stored |
| HttpSniff.Text | pkg/grpc/server/http.go:102 | string(buf) has one character per octet, with the octet's value |
| HttpSniff.TextInjective | pkg/grpc/server/http.go:102 | different octet sequences give different strings, so comparing strings compares the octets |
| HttpSniff.Classify | pkg/grpc/server/http.go:102-131 | the HTTP/2 preface and TLS 1.0-1.3 handshakes are not HTTP/1; otherwise HTTP/1 iff the octets start with one of the nine request-line prefixes |
| HttpSniff.PatchWithSpaceIsNotH1 | pkg/grpc/server/http.go:128 | "PATCH /" is not recognised, as only "PATCH\t/" is tested |
| HttpSniff.PatchWithTabIsH1 | pkg/grpc/server/http.go:128-129 | "PATCH\t/" is HTTP/1 |
| HttpSniff.ReadAtLeastErr | pkg/grpc/server/http.go:96-101 | the read of the preface fails iff fewer than 24 octets arrive, with ErrUnexpectedEOF after a partial read ending in EOF |
| HttpSniff.Conn.constructor | pkg/grpc/server/http.go:45-49 | a connection holds its pending octets and the error it ends with |
| HttpSniff.Conn.Read | pkg/grpc/server/http.go:51-62 | a read takes a prefix of the pending octets, as many as fit, and reports the end error only when none are left |
| HttpSniff.WrapConn.constructor | pkg/grpc/server/http.go:45-49 | wrapConn keeps the connection, the sniffed octets and the sniffing error |
| HttpSniff.WrapConn.Read | pkg/grpc/server/http.go:51-62 | buffered octets come first with the stored error, which is then cleared; the stream read so far plus what remains is unchanged |
| HttpSniff.IsH1 | pkg/grpc/server/http.go:95-133 | the first 24 octets are sniffed and replayed, so the wrapped stream equals the original; a short read is not HTTP/1 and returns its error; otherwise Classify decides |
| InterceptorChain.FirstRunsOutermost | pkg/grpc/server/chain.go:29-46 | the first interceptor runs first, with the call's arguments and info and the chain of the rest as its continuation |
| InterceptorChain.ShiftedChain | pkg/grpc/server/chain.go:35-41 | the chain built from position j of a list does not depend on what precedes it |
| InterceptorChain.ChainAppend | pkg/grpc/server/chain.go:12-15 | interceptors added by a later Use run inside the earlier ones, next to the handler |
| InterceptorChain.Taggers | pkg/grpc/server/chain.go:29-46 | one tagging interceptor per tag, in order |
| InterceptorChain.LeftToRight | pkg/grpc/server/chain.go:29-46 | context changes made by interceptors reach the handler in registration order |
| InterceptorChain.RunChain | pkg/grpc/server/chain.go:33-44 | the loop from the last interceptor to the first builds the chain; with none the handler is called directly |
| ServerChain.Server.constructor | pkg/grpc/server/chain.go:12-23 | a server starts with no interceptors |
| ServerChain.Server.Use | pkg/grpc/server/chain.go:12-15 | Use appends to the unary list and returns the server |
| ServerChain.Server.UseStream | pkg/grpc/server/chain.go:20-23 | UseStream appends to the stream list and returns the server |
| ServerChain.Server.Unary | pkg/grpc/server/chain.go:29-46 | a unary call runs the chain of the interceptors registered when it arrives |
| ServerChain.Server.Stream | pkg/grpc/server/chain.go:53-71 | a stream runs the chain of the stream interceptors |
| ClientChain.ClientConn.constructor | pkg/grpc/client/chain.go:12-23 | a connection starts with no interceptors |
| ClientChain.ClientConn.Use | pkg/grpc/client/chain.go:12-15 | Use appends to the unary list and returns the connection |
| ClientChain.ClientConn.UseStream | pkg/grpc/client/chain.go:20-23 | UseStream appends to the stream list and returns the connection |
| ClientChain.ClientConn.Unary | pkg/grpc/client/chain.go:29-46 | a unary call runs the chain with the invoker innermost |
| ClientChain.ClientConn.Stream | pkg/grpc/client/chain.go:52-69 | a stream runs the chain with the streamer innermost |
| TsfConfig.Get | config/config.go:76-82 | (nil, false) for a nil config or a missing key, else the stored value and true |
| TsfConfig.GetString | config/config.go:28-34 | ok iff the key holds a string, which is returned; otherwise "" |
| TsfConfig.GetBool | config/config.go:36-42 | ok iff the key holds a bool, which is returned; otherwise false |
| TsfConfig.GetInt | config/config.go:44-50 | ok iff the key holds an int64, which is returned; otherwise 0 |
| TsfConfig.GetFloat | config/config.go:52-58 | ok iff the key holds a float64, which is returned; otherwise 0 |
| TsfConfig.GetDuration | config/config.go:60-66 | ok iff the key holds a time.Duration, which is returned; otherwise 0 |
| TsfConfig.GetTime | config/config.go:68-74 | ok iff the key holds a time.Time, which is returned; otherwise the zero time |
| TsfConfig.NilConfigHasNothing | config/config.go:76-82 | a nil configuration answers every getter with the zero value and false |
| TsfConfig.AtMostOneGetter | config/config.go:24-74 | at most one typed getter succeeds for a key, exactly one when the value has one of the six types |
| TsfConfig.Unmarshal | config/config.go:84-89 | nil without decoding for a nil config or nil data, else the decoder's error |
| TsfConfig.Raw | config/config.go:91-96 | nil exactly for a nil config or nil data, else the data's bytes |
| ApiMeta.Methods | pkg/sys/apiMeta/apiMeta.go:86-91 | a path's method map holds only its method, answering "200 OK" with an empty schema |
| ApiMeta.BuildEntries | pkg/sys/apiMeta/apiMeta.go:85-93 | the keys are exactly the full names, each holding the methods of the last path of that name |
| ApiMeta.BuildShape | pkg/sys/apiMeta/apiMeta.go:85-93 | every entry has one method, whose response is "200 OK" |
| ApiMeta.LaterPathReplaces | pkg/sys/apiMeta/apiMeta.go:91 | two methods on one path are not merged: the later one replaces the earlier |
| ApiMeta.BuildSnoc | pkg/sys/apiMeta/apiMeta.go:91 | each path overwrites its name's entry |
| ApiMeta.FlatSnoc | pkg/sys/apiMeta/apiMeta.go:85-86 | services are visited in order, each one's paths in order |
| ApiMeta.WritePaths | pkg/sys/apiMeta/apiMeta.go:86-92 | the inner loop writes one service's paths over the map |
| ApiMeta.GenApiMeta | pkg/sys/apiMeta/apiMeta.go:81-95 | the Paths map is the one built from every path of every service in visiting order |
| ApiMeta.Encode | pkg/sys/apiMeta/apiMeta.go:36-39 | a nil description encodes as "" with no error |
| StatMonitor.LocalCodeIsPrefix | pkg/internal/monitor/stat.go:45-51 | the code with a remote endpoint strictly extends the local code |
| StatMonitor.CodesCanCollide | pkg/internal/monitor/stat.go:45-51 | parts are joined unescaped, so a local-only stat can share a code with one that has a remote |
| StatMonitor.Stat.constructor | pkg/internal/monitor/stat.go:29-37 | NewStat records the begin time and the endpoints, End and StatusCode zero |
| StatMonitor.Stat.Record | pkg/internal/monitor/stat.go:39-43 | Record sets End and StatusCode and appends the stat to its group |
| StatMonitor.Monitor.constructor | pkg/sys/monitor/monitor.go:20-26 | the monitor starts with no stats |
| StatMonitor.Monitor.SaveStat | pkg/sys/monitor/monitor.go:33-38 | the stat is appended to its hash code's group, the others untouched, every stat staying under its own code |
| StatMonitor.Monitor.Swap | pkg/sys/monitor/monitor.go:45-49 | the stats saved so far are handed over and an empty map replaces them |
| StatMonitor.GroupsKeepCodes | pkg/sys/monitor/monitor.go:33-38 | every stat in a group has that group's hash code |
| StatMonitor.Snapshots | pkg/sys/monitor/monitor.go:62-64 | dump reads each stat's code, endpoints and duration, in order |
| StatMonitor.Bucket | pkg/sys/monitor/monitor.go:66-88 | a duration lands in the first bucket whose bound it does not exceed, or the last |
| StatMonitor.BucketIsUnique | pkg/sys/monitor/monitor.go:66-88 | the bounds increase, so each duration lies in exactly one bucket |
| StatMonitor.BucketsSumToCount | pkg/sys/monitor/monitor.go:62-89 | the eleven bucket counts add up to the number of stats |
| StatMonitor.ClassOf | pkg/sys/monitor/monitor.go:96-108 | the serial class of each code, each named code in its class and every other code OtherErr |
| StatMonitor.ClassCountAdd | pkg/sys/monitor/monitor.go:96-108 | one more distinct code adds one to its class only |
| StatMonitor.GoRem60 | pkg/sys/monitor/monitor.go:126 | Go's % 60 takes the dividend's sign |
| StatMonitor.MinuteStamp | pkg/sys/monitor/monitor.go:125-126 | the timestamp is a multiple of 60 within a minute of the clock reading |
| StatMonitor.CodeSetMembers | pkg/sys/monitor/monitor.go:94-95 | the listed codes are exactly the codes of the entries |
| StatMonitor.ClassesPartition | pkg/sys/monitor/monitor.go:94-109 | the serial's class counts add up to the number of distinct codes |
| StatMonitor.AmountsSumToCount | pkg/sys/monitor/monitor.go:63-95 | the amounts add up to the number of calls |
| StatMonitor.SummaryFacts | pkg/sys/monitor/monitor.go:90-130 | a metric's amounts sum to SumAmount, its serial counts each listed code once, its timestamp is a whole minute and Range50 is at most the count |
| StatMonitor.CountGroup | pkg/sys/monitor/monitor.go:62-89 | the counting loop gives each code's count and each bucket's count |
| StatMonitor.ListCodes | pkg/sys/monitor/monitor.go:92-109 | the listing loop lists each code once with its amount, in map order, and the serial classifies the codes |
| StatMonitor.DumpGroup | pkg/sys/monitor/monitor.go:59-130 | a non-empty group's metric item summarises it, with the first stat's identity |
| StatMonitor.Dump | pkg/sys/monitor/monitor.go:54-137 | one metric item per non-empty group and none for an empty one, each summarising its group |
| Strconv.ParseUint16Saturates | util/util.go:30 | ParseUint(s, 10, 16) with its error discarded gives 65535 for a larger port, never a wrapped value |
| Strconv.ParseIntFormat | pkg/config/consul/consul.go:136 | parsing a formatted int64 index gives it back |
| Strconv.AtoiFormat | naming/service.go:81 | Atoi of a formatted int gives it back |
| GoStrings.JoinSplit | util/util.go:25 | splitting and joining with the same separator gives the text back |
| GoStrings.SplitTwo | route/router/rule.go:75 | SplitN(s, sep, 2) has two pieces iff the separator occurs |
| GoStrings.TrimPrefix | pkg/meta/key.go:64 | with the prefix present, prefix plus result is the text; otherwise the text is unchanged |

## Left out

- Network and process I/O: every HTTP request to consul is an input (its reply); the runner/listener routing and `serveHttp` in pkg/grpc/server/http.go are outside the model.
- Goroutines, tickers, timers, locks and atomics: each method is one critical section run to completion; a poll loop is a method over the sequence of replies it receives; timers and backoff durations (from util.BackoffConfig, which is not part of this model) are not represented.
- Floating point: EWMA decay and square root are caller-supplied functions, WRR scores are reals, and the monitor's `sum` and `avg` are not computed (only `Range50` of the duration block is reported).
- Foreign codecs: the regular-expression engine, YAML, JSON, base64 and gzip, and `url.Parse` are caller-supplied functions; `apiMeta.Encode` is modelled for its nil case only and `Decode` is left out.
- `refill`, `newTsfConfig` and the subscription fan-out of config/tsf.go and pkg/config/tconf/tsf.go are not part of this model.
- The monitor's `run` ticker is not modelled (its swap is `StatMonitor.Monitor.Swap`); `dump`'s logger output and its return on a JSON marshal error are left out, since marshalling is a foreign codec.
- `PrintStats` of the P2C and WRR pickers is logging only and is left out.
- Wrr: `withoutFlight` is recorded at Build and never read by the source, so it has no effect in the model either.
- int64 and uint64 arithmetic in the balancers is modelled with unbounded integers; counters are assumed not to overflow.
- pkg/route/router, the destination router of pkg/route/composite/composite.go, is not part of this model; that composite takes it as a function value.
- route/lane, the lane router of route/composite/composite.go, is not part of this model; that composite takes it as a function value.
- The random picker's done callback is a no-op and is not represented as a member.
- `catalog()`/`Catalog` accessors and the `DefaultConsul`/`DefaultLane` singleton constructors are left out; `DefaultComposite` is modelled by a `Defaults` holder object.
- The text rendering of URLs and query strings is not modelled; queries are datatypes of their parameters.
- Wrr.Picker.Done: requires the subConn's inflight to be at least 2 on entry, that is, each done follows its own Pick. A done without a matching Pick would drive inflight to 0, and EWT would then divide by zero in floating point; the model leaves that case out.
- PkgConsul.Consul.Register: requires a non-nil service for an id not yet registered, and PkgConsul.Consul.Deregister and KratosNaming.ToKratosInstance require one always, because the source dereferences it there.
- The per-node conversion loops of the `store` functions are modelled as sequence comprehensions rather than loops.
- HttpSniff.IsH1: `io.ReadAtLeast` is modelled as one read of everything available up to 24 octets, not as repeated partial reads.
- StatMonitor.Stat.HashCode: a nil `Local` endpoint (a nil dereference in the source) is not represented; `Local` is always present.
- ApiMeta.GenApiMeta: a nil `*Service` in the input map (a nil dereference in the source) is not represented.
- `time.Time.Sub` saturation at the int64 range is not modelled; durations are plain differences.
- KratosNaming.FromKratosInstance: requires every endpoint's host to contain ':' (`EndpointsParse`), because the source's `parseEndpoint` panics on an index out of range otherwise.
- Lane.SortRules: the order of rules with equal priority and creation time is left unspecified by the contract, as `sort.Slice` is not stable: it promises sortedness by priority then creation time and a permutation, nothing about ties.

## Findings

The done callbacks P2c.Picker.Done and Wrr.Picker.Done model the code as written and record P2c.SuccessSampleAsWritten; P2c.SuccessSample is the corrected test, and P2c.RecordAsWrittenVsIntended states how one done step differs under the two.

| source | as written | input that shows it | evidently intended | confidence | as-written member | corrected member |
|---|---|---|---|---|---|---|
| pkg/balancer/p2c/p2c.go:207 | `errors.Is(context.DeadlineExceeded, di.Err)` tests whether the sentinel wraps the call's error, which only holds when the error is the sentinel itself | a call error that wraps `context.DeadlineExceeded` (e.g. `fmt.Errorf("rpc: %w", context.DeadlineExceeded)`) gives a success sample of 1000 | `errors.Is(di.Err, context.DeadlineExceeded)`: any error that is or wraps a deadline or cancel counts as a failure (0) | not executed | P2c.WrappedDeadlineCountsAsSuccess | P2c.SuccessSample |
| pkg/balancer/wrr/wrr.go:189 | the same swapped `errors.Is` arguments in the WRR done callback | the same wrapped deadline error | the same corrected test | not executed | P2c.WrappedDeadlineCountsAsSuccess | P2c.SuccessSample |
