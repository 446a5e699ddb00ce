/**
 * Request metadata (pkg/meta): key names and their classification
 * (key.go), and the per-request system and user maps that a context
 * carries (metadata.go).
 */
module Meta {
  import opened Wrappers
  import opened GoStrings

  // ---- key.go ----

  const PrefixDest := "destination."
  const PrefixSource := "source."
  const PrefixUser := "user_def."

  const ApplicationID := "Application.id"
  const GroupID := "Group.id"
  const ConnectionIP := "Connection.ip"
  const ApplicationVersion := "Application.version"
  const ServiceName := "Service.name"
  const Interface := "Interface"
  const RequestHTTPMethod := "Request.http.method"
  const ServiceNamespace := "Service.namespace"
  const Namespace := "Namespace"
  const Tracer := "tsf.tracer"
  const LaneID := "lane.id"

  /** Keys carried from an incoming request to the outgoing ones. */
  const CarriedKeys: set<string> := {ApplicationID, GroupID, ConnectionIP, ApplicationVersion,
                                     ServiceName, Interface, RequestHTTPMethod, ServiceNamespace}
  const LinkKeys: set<string> := {LaneID}

  predicate IsLinkKey(key: string) { key in LinkKeys }

  predicate IsIncoming(key: string) { key in CarriedKeys }

  /** IsOutgoing: a carried key, or failing that a link key. */
  function IsOutgoing(key: string): (ok: bool)
    ensures ok == (IsIncoming(key) || IsLinkKey(key))
  {
    var carried := key in CarriedKeys;
    if !carried then key in LinkKeys else carried
  }

  function UserKey(key: string): string { PrefixUser + key }

  function GetUserKey(key: string): (r: string)
    ensures !IsUserKey(key) ==> r == key
    ensures IsUserKey(key) ==> UserKey(r) == key
  {
    TrimPrefix(key, PrefixUser)
  }

  predicate IsUserKey(key: string) { HasPrefix(key, PrefixUser) }

  function SourceKey(key: string): (r: string)
    ensures HasPrefix(r, PrefixSource) && r[|PrefixSource|..] == key
  {
    PrefixSource + key
  }

  function DestKey(key: string): (r: string)
    ensures HasPrefix(r, PrefixDest) && r[|PrefixDest|..] == key
  {
    PrefixDest + key
  }

  /** UserKey and GetUserKey are inverse, and UserKey is recognised by IsUserKey. */
  lemma UserKeyRoundTrip(k: string)
    ensures IsUserKey(UserKey(k))
    ensures GetUserKey(UserKey(k)) == k
  {
    assert UserKey(k)[..|PrefixUser|] == PrefixUser;
  }

  /** lane.id is the only link key, and it is not carried. */
  lemma LinkKeyIsLaneOnly(k: string)
    ensures IsLinkKey(k) <==> k == LaneID
    ensures !IsIncoming(LaneID)
  {
  }

  /** Namespace and tsf.tracer are neither carried nor link keys, so never outgoing. */
  lemma UnpropagatedKeys()
    ensures !IsOutgoing(Namespace) && !IsOutgoing(Tracer)
  {
  }

  // ---- metadata.go ----

  /** A value of the system map: Go's interface{}, of which only strings matter here. */
  datatype SysValue = Nil | Str(s: string) | NonString(repr: string)

  /**
   * What a context carries: the system and the user map, each absent
   * until WithSys / WithUser first stores one.
   */
  datatype Context = Context(sys: Option<map<string, SysValue>>, user: Option<map<string, string>>)

  const Background := Context(None, None)

  /** Copies `m` and applies the pairs in order, so later pairs win. */
  function ApplyPairs<V>(m: map<string, V>, pairs: seq<(string, V)>): map<string, V>
    decreases |pairs|
  {
    if pairs == [] then m else ApplyPairs(m[pairs[0].0 := pairs[0].1], pairs[1..])
  }

  /** The position of the last pair for `k`, or -1. */
  function LastPair<V>(pairs: seq<(string, V)>, k: string): (j: int)
    ensures -1 <= j < |pairs|
    ensures j >= 0 ==> pairs[j].0 == k && forall i :: j < i < |pairs| ==> pairs[i].0 != k
    ensures j == -1 ==> forall i :: 0 <= i < |pairs| ==> pairs[i].0 != k
  {
    if |pairs| == 0 then -1
    else if pairs[|pairs| - 1].0 == k then |pairs| - 1
    else LastPair(pairs[..|pairs| - 1], k)
  }

  /** ApplyPairs is the old map overridden by the pairs, the last pair for a key winning. */
  lemma {:induction false} ApplyPairsSpec<V>(m: map<string, V>, pairs: seq<(string, V)>, k: string)
    ensures var r := ApplyPairs(m, pairs); var j := LastPair(pairs, k);
      && (k in r <==> k in m || j >= 0)
      && (j >= 0 ==> r[k] == pairs[j].1)
      && (j < 0 && k in m ==> r[k] == m[k])
    decreases |pairs|
  {
    if pairs != [] {
      var m' := m[pairs[0].0 := pairs[0].1];
      ApplyPairsSpec(m', pairs[1..], k);
      var j := LastPair(pairs, k);
      var j' := LastPair(pairs[1..], k);
      if j' >= 0 {
        assert pairs[1..][j'] == pairs[j' + 1];
        LastPairUnique(pairs, k, j' + 1);
      } else if pairs[0].0 == k {
        LastPairUnique(pairs, k, 0);
      } else {
        assert forall i :: 0 <= i < |pairs| ==> pairs[i].0 != k by {
          forall i | 0 < i < |pairs| ensures pairs[i].0 != k { assert pairs[1..][i - 1] == pairs[i]; }
        }
      }
    }
  }

  lemma LastPairUnique<V>(pairs: seq<(string, V)>, k: string, j: nat)
    requires j < |pairs| && pairs[j].0 == k && forall i :: j < i < |pairs| ==> pairs[i].0 != k
    ensures LastPair(pairs, k) == j
  {
  }

  /** WithUser: a fresh user map, the old one (if any) overridden by the pairs; the system map is shared. */
  function WithUser(ctx: Context, pairs: seq<(string, string)>): (r: Context)
    ensures r.sys == ctx.sys && r.user.Some?
  {
    ctx.(user := Some(ApplyPairs(ctx.user.GetOr(map[]), pairs)))
  }

  /** WithSys: a fresh system map, the old one (if any) overridden by the pairs; the user map is shared. */
  function WithSys(ctx: Context, pairs: seq<(string, SysValue)>): (r: Context)
    ensures r.user == ctx.user && r.sys.Some?
  {
    ctx.(sys := Some(ApplyPairs(ctx.sys.GetOr(map[]), pairs)))
  }

  /** Sys: nil without a system map or without the key. */
  function Sys(ctx: Context, key: string): (v: SysValue)
    ensures ctx.sys.None? ==> v == Nil
    ensures ctx.sys.Some? && key !in ctx.sys.value ==> v == Nil
  {
    match ctx.sys
    case None => Nil
    case Some(m) => if key in m then m[key] else Nil
  }

  /** User: "" without a user map or without the key. */
  function User(ctx: Context, key: string): (v: string)
    ensures ctx.user.None? ==> v == ""
    ensures ctx.user.Some? && key !in ctx.user.value ==> v == ""
  {
    match ctx.user
    case None => ""
    case Some(m) => if key in m then m[key] else ""
  }

  /** Reading back a key just stored with WithSys gives its value; other keys keep theirs. */
  lemma WithSysReadBack(ctx: Context, k: string, v: SysValue, other: string)
    requires other != k
    ensures Sys(WithSys(ctx, [(k, v)]), k) == v
    ensures Sys(WithSys(ctx, [(k, v)]), other) == Sys(ctx, other)
    ensures User(WithSys(ctx, [(k, v)]), other) == User(ctx, other)
  {
    assert ApplyPairs(ctx.sys.GetOr(map[]), [(k, v)]) == ctx.sys.GetOr(map[])[k := v];
  }

  /** The same for WithUser, which leaves the system map alone. */
  lemma WithUserReadBack(ctx: Context, k: string, v: string, other: string)
    requires other != k
    ensures User(WithUser(ctx, [(k, v)]), k) == v
    ensures User(WithUser(ctx, [(k, v)]), other) == User(ctx, other)
    ensures Sys(WithUser(ctx, [(k, v)]), other) == Sys(ctx, other)
  {
    assert ApplyPairs(ctx.user.GetOr(map[]), [(k, v)]) == ctx.user.GetOr(map[])[k := v];
  }

  /** WithSys over many pairs: Sys reads the last pair for the key, else the old value. */
  lemma WithSysLaterWins(ctx: Context, pairs: seq<(string, SysValue)>, k: string)
    ensures var j := LastPair(pairs, k);
      Sys(WithSys(ctx, pairs), k) == if j >= 0 then pairs[j].1 else Sys(ctx, k)
  {
    ApplyPairsSpec(ctx.sys.GetOr(map[]), pairs, k);
  }

  /** WithUser over many pairs: User reads the last pair for the key, else the old value. */
  lemma WithUserLaterWins(ctx: Context, pairs: seq<(string, string)>, k: string)
    ensures var j := LastPair(pairs, k);
      User(WithUser(ctx, pairs), k) == if j >= 0 then pairs[j].1 else User(ctx, k)
  {
    ApplyPairsSpec(ctx.user.GetOr(map[]), pairs, k);
  }

  /**
   * Visits the entries of `m` once each, in an order the caller does not
   * control (Go map iteration); returns the visit order.
   */
  method RangeMap<V>(m: map<string, V>) returns (visited: seq<(string, V)>)
    ensures |visited| == |m|
    ensures forall i :: 0 <= i < |visited| ==> visited[i].0 in m && m[visited[i].0] == visited[i].1
    ensures forall i, j :: 0 <= i < j < |visited| ==> visited[i].0 != visited[j].0
    ensures forall k :: k in m ==> exists i :: 0 <= i < |visited| && visited[i].0 == k
  {
    visited := [];
    var rest := m.Keys;
    while rest != {}
      invariant rest <= m.Keys
      invariant |visited| + |rest| == |m|
      invariant forall i :: 0 <= i < |visited| ==> visited[i].0 in m && visited[i].0 !in rest && m[visited[i].0] == visited[i].1
      invariant forall i, j :: 0 <= i < j < |visited| ==> visited[i].0 != visited[j].0
      invariant forall k :: k in m && k !in rest ==> exists i :: 0 <= i < |visited| && visited[i].0 == k
      decreases |rest|
    {
      var k :| k in rest;
      ghost var prev := visited;
      visited := visited + [(k, m[k])];
      assert forall i :: 0 <= i < |prev| ==> visited[i] == prev[i];
      assert visited[|prev|].0 == k;
      rest := rest - {k};
    }
  }

  /** RangeSys: nothing without a system map, else every entry once. */
  method RangeSys(ctx: Context) returns (visited: seq<(string, SysValue)>)
    ensures ctx.sys.None? ==> visited == []
    ensures ctx.sys.Some? ==> (|visited| == |ctx.sys.value| &&
      (forall i :: 0 <= i < |visited| ==> visited[i].0 in ctx.sys.value && ctx.sys.value[visited[i].0] == visited[i].1) &&
      (forall k :: k in ctx.sys.value ==> exists i :: 0 <= i < |visited| && visited[i].0 == k))
  {
    visited := [];
    if ctx.sys.Some? {
      visited := RangeMap(ctx.sys.value);
    }
  }

  /** RangeUser: nothing without a user map, else every entry once. */
  method RangeUser(ctx: Context) returns (visited: seq<(string, string)>)
    ensures ctx.user.None? ==> visited == []
    ensures ctx.user.Some? ==> (|visited| == |ctx.user.value| &&
      (forall i :: 0 <= i < |visited| ==> visited[i].0 in ctx.user.value && ctx.user.value[visited[i].0] == visited[i].1) &&
      (forall k :: k in ctx.user.value ==> exists i :: 0 <= i < |visited| && visited[i].0 == k))
  {
    visited := [];
    if ctx.user.Some? {
      visited := RangeMap(ctx.user.value);
    }
  }
}
