/**
 * The route router (route/router/route.go): per callee service, an ordered
 * list of route rules; the first rule that hits the request and matches
 * some instances decides which instances the request may go to.  The rule
 * catalog is replaced whenever the config source publishes a new version.
 */
module Router {
  import opened Wrappers
  import opened Seqs
  import Naming
  import Tag
  import Meta
  import RouteRule
  import ConfigData
  import opened RouteMatch

  /** The result of Select: the instances to balance over, or a panic of matchByRule. */
  datatype Selection = Selected(nodes: seq<Naming.Instance>) | SelectPanicked

  type Catalog = map<Naming.Service, RouteRule.RuleGroup>

  predicate RuleHits(rule: RouteRule.Rule, ctx: Meta.Context, re: Tag.RegexEngine)
  {
    Tag.RuleHit(RouteRule.ToTagRule(rule), ctx, re)
  }

  predicate SomeRuleHits(rules: seq<RouteRule.Rule>, ctx: Meta.Context, re: Tag.RegexEngine)
  {
    exists i :: 0 <= i < |rules| && RuleHits(rules[i], ctx, re)
  }

  /**
   * The rule that decides: the first one that hits and matches instances
   * with a non-zero weight total.  Hit rules before it match nothing, so
   * the scan goes past them.
   */
  function Decider(rules: seq<RouteRule.Rule>, nodes: seq<Naming.Instance>, ctx: Meta.Context, re: Tag.RegexEngine): (r: Option<nat>)
    ensures r.Some? ==> (r.value < |rules| && RuleHits(rules[r.value], ctx, re) &&
      Collect(nodes, rules[r.value].destList).sum != 0)
    ensures r.Some? ==> forall j :: 0 <= j < r.value && RuleHits(rules[j], ctx, re) ==>
      Collect(nodes, rules[j].destList).sum == 0
    ensures r.None? ==> forall j :: 0 <= j < |rules| && RuleHits(rules[j], ctx, re) ==>
      Collect(nodes, rules[j].destList).sum == 0
  {
    FirstDecisive(Hits(rules, ctx, re), Totals(nodes, rules), 0)
  }

  /** Whether each rule hits, in rule order. */
  function Hits(rules: seq<RouteRule.Rule>, ctx: Meta.Context, re: Tag.RegexEngine): (h: seq<bool>)
    ensures |h| == |rules| && forall j :: 0 <= j < |rules| ==> h[j] == RuleHits(rules[j], ctx, re)
  {
    seq(|rules|, j requires 0 <= j < |rules| => RuleHits(rules[j], ctx, re))
  }

  /** The weight total each rule's destinations gather on the nodes, in rule order. */
  function Totals(nodes: seq<Naming.Instance>, rules: seq<RouteRule.Rule>): (t: seq<int>)
    ensures |t| == |rules| && forall j :: 0 <= j < |rules| ==> t[j] == Collect(nodes, rules[j].destList).sum
  {
    seq(|rules|, j requires 0 <= j < |rules| => Collect(nodes, rules[j].destList).sum)
  }

  /** The scan from rule k on, over each rule's hit and total. */
  function FirstDecisive(hits: seq<bool>, totals: seq<int>, k: nat): (r: Option<nat>)
    requires |hits| == |totals| && k <= |hits|
    ensures r.Some? ==> k <= r.value < |hits| && hits[r.value] && totals[r.value] != 0
    ensures r.Some? ==> forall j :: k <= j < r.value && hits[j] ==> totals[j] == 0
    ensures r.None? ==> forall j :: k <= j < |hits| && hits[j] ==> totals[j] == 0
    decreases |hits| - k
  {
    if k == |hits| then None
    else if hits[k] && totals[k] != 0 then Some(k)
    else FirstDecisive(hits, totals, k + 1)
  }

  /**
   * What the rule loop and the fallback may produce for a group with rules.
   * No hit: all nodes.  Hits that all match nothing: no nodes, or all nodes
   * when the group falls back.  Otherwise the deciding rule's draw: a
   * negative total panics; a positive one yields one of its buckets of
   * positive weight, or a panic when the total is not the weight sum.
   */
  ghost predicate Allowed(group: RouteRule.RuleGroup, nodes: seq<Naming.Instance>, ctx: Meta.Context,
                          re: Tag.RegexEngine, res: Selection)
  {
    var rules := group.ruleList;
    if !SomeRuleHits(rules, ctx, re) then res == Selected(nodes)
    else match Decider(rules, nodes, ctx, re)
      case None => res == Selected(if group.fallbackStatus then nodes else [])
      case Some(i) =>
        var c := Collect(nodes, rules[i].destList);
        if c.sum < 0 then res == SelectPanicked
        else
          (res.Selected? && exists k :: k in c.buckets && c.buckets[k].inss == res.nodes && c.buckets[k].weight > 0)
          || (res.SelectPanicked? && !Consistent(c))
  }

  /** A group whose every rule lists distinct destination ids with non-negative weights. */
  predicate WellFormed(group: RouteRule.RuleGroup)
  {
    forall i :: 0 <= i < |group.ruleList| ==>
      DistinctIds(group.ruleList[i].destList) && NonNegativeWeights(group.ruleList[i].destList)
  }

  /** For a well-formed group nothing panics and the selection is a subsequence of the nodes, in their order. */
  lemma WellFormedSelection(group: RouteRule.RuleGroup, nodes: seq<Naming.Instance>, ctx: Meta.Context,
                            re: Tag.RegexEngine, res: Selection)
    requires WellFormed(group) && Allowed(group, nodes, ctx, re, res)
    ensures res.Selected? && IsSubsequence(res.nodes, nodes)
  {
    SubsequenceRefl(nodes);
    SubsequenceEmpty(nodes);
    var rules := group.ruleList;
    if SomeRuleHits(rules, ctx, re) {
      var d := Decider(rules, nodes, ctx, re);
      if d.Some? {
        var dests := rules[d.value].destList;
        CollectSumNonNegative(nodes, dests);
        CandidatesSpec(nodes, dests);
        BucketsAreSubsequences(nodes, dests);
      }
    }
  }

  /**
   * What Select may return.  No nodes, no catalog, no group for the
   * (namespace-normalised) service or a group without rules: the nodes
   * unchanged; otherwise what the group's rules allow.
   */
  ghost predicate Permits(services: Option<Catalog>, localNs: string, ctx: Meta.Context, svc: Naming.Service,
                          nodes: seq<Naming.Instance>, re: Tag.RegexEngine, res: Selection)
  {
    var key := Naming.NewService(localNs, svc.namespace, svc.name);
    if |nodes| == 0 || services.None? || key !in services.value || |services.value[key].ruleList| == 0 then
      res == Selected(nodes)
    else Allowed(services.value[key], nodes, ctx, re, res)
  }

  /** Every group of the catalog is well formed. */
  predicate CatalogWellFormed(services: Option<Catalog>)
  {
    services.Some? ==> forall k :: k in services.value ==> WellFormed(services.value[k])
  }

  /** With a well-formed catalog, Select never panics and returns a subsequence of its input. */
  lemma PermitsSubsequence(services: Option<Catalog>, localNs: string, ctx: Meta.Context, svc: Naming.Service,
                           nodes: seq<Naming.Instance>, re: Tag.RegexEngine, res: Selection)
    requires CatalogWellFormed(services) && Permits(services, localNs, ctx, svc, nodes, re, res)
    ensures res.Selected? && IsSubsequence(res.nodes, nodes)
  {
    SubsequenceRefl(nodes);
    var key := Naming.NewService(localNs, svc.namespace, svc.name);
    if !(|nodes| == 0 || services.None? || key !in services.value || |services.value[key].ruleList| == 0) {
      WellFormedSelection(services.value[key], nodes, ctx, re, res);
    }
  }

  /** The catalog entries one decoded group adds: under its own service, and under "global" when its namespace is foreign. */
  function AddGroup(m: Catalog, localNs: string, g: RouteRule.RuleGroup): (r: Catalog)
    ensures Naming.NewService(localNs, g.namespaceId, g.microserviceName) in r
    ensures r[Naming.NewService(localNs, g.namespaceId, g.microserviceName)] == g
    ensures g.namespaceId != "" && g.namespaceId != localNs ==>
      r.Keys == m.Keys + {Naming.NewService(localNs, g.namespaceId, g.microserviceName), Naming.Service(Naming.NsGlobal, g.microserviceName)}
      && r[Naming.Service(Naming.NsGlobal, g.microserviceName)] == g
    ensures !(g.namespaceId != "" && g.namespaceId != localNs) ==>
      r.Keys == m.Keys + {Naming.NewService(localNs, g.namespaceId, g.microserviceName)}
    ensures forall s :: (s in m && s != Naming.NewService(localNs, g.namespaceId, g.microserviceName) &&
      s != Naming.Service(Naming.NsGlobal, g.microserviceName)) ==> s in r && r[s] == m[s]
  {
    var own := m[Naming.NewService(localNs, g.namespaceId, g.microserviceName) := g];
    if g.namespaceId != "" && g.namespaceId != localNs
    then own[Naming.NewService(localNs, Naming.NsGlobal, g.microserviceName) := g]
    else own
  }

  /** The catalog one batch of specs builds: specs in order, each decoded one adding its first group. */
  function CatalogOf(specs: seq<ConfigData.Spec>, localNs: string,
                     decode: ConfigData.Data -> Option<seq<RouteRule.RuleGroup>>): Catalog
    decreases |specs|
  {
    if |specs| == 0 then map[]
    else
      var m := CatalogOf(specs[..|specs| - 1], localNs, decode);
      var parsed := decode(specs[|specs| - 1].data);
      if parsed.None? || |parsed.value| == 0 then m else AddGroup(m, localNs, parsed.value[0])
  }

  /** The error the loop ends with: the last spec failed to decode (an empty but valid list is no error). */
  predicate LastSpecFailed(specs: seq<ConfigData.Spec>, decode: ConfigData.Data -> Option<seq<RouteRule.RuleGroup>>)
  {
    |specs| > 0 && decode(specs[|specs| - 1].data).None?
  }

  /** The group a spec contributes, if it decodes to a non-empty list. */
  predicate Contributes(s: ConfigData.Spec, decode: ConfigData.Data -> Option<seq<RouteRule.RuleGroup>>)
  {
    decode(s.data).Some? && |decode(s.data).value| > 0
  }

  /** Entry `s -> g` is the one spec `sp` adds: `g` is its first group, under its service or for a foreign namespace its global alias. */
  predicate EntryFrom(sp: ConfigData.Spec, localNs: string, decode: ConfigData.Data -> Option<seq<RouteRule.RuleGroup>>,
                      s: Naming.Service, g: RouteRule.RuleGroup)
  {
    Contributes(sp, decode) && g == decode(sp.data).value[0] &&
    (s == Naming.NewService(localNs, g.namespaceId, g.microserviceName) ||
     (s == Naming.Service(Naming.NsGlobal, g.microserviceName) && g.namespaceId != "" && g.namespaceId != localNs))
  }

  /**
   * Every catalog entry comes from a spec that decoded: it is that spec's
   * first group, under its own service or, for a foreign namespace, under
   * the "global" alias.
   */
  lemma {:induction false} CatalogEntries(specs: seq<ConfigData.Spec>, localNs: string,
                                          decode: ConfigData.Data -> Option<seq<RouteRule.RuleGroup>>, s: Naming.Service)
    requires s in CatalogOf(specs, localNs, decode)
    ensures exists i :: 0 <= i < |specs| && EntryFrom(specs[i], localNs, decode, s, CatalogOf(specs, localNs, decode)[s])
    decreases |specs|
  {
    var prefix := specs[..|specs| - 1];
    var m := CatalogOf(prefix, localNs, decode);
    var last := |specs| - 1;
    var parsed := decode(specs[last].data);
    if parsed.Some? && |parsed.value| > 0 {
      var g := parsed.value[0];
      if s == Naming.NewService(localNs, g.namespaceId, g.microserviceName) ||
         (s == Naming.Service(Naming.NsGlobal, g.microserviceName) && g.namespaceId != "" && g.namespaceId != localNs) {
        assert EntryFrom(specs[last], localNs, decode, s, CatalogOf(specs, localNs, decode)[s]);
        return;
      }
      assert s in m;
    }
    CatalogEntries(prefix, localNs, decode, s);
    var i :| 0 <= i < |prefix| && EntryFrom(prefix[i], localNs, decode, s, m[s]);
    assert prefix[i] == specs[i];
  }

  /** The last spec that decodes wins its service key (and its global alias). */
  lemma LastSpecWins(specs: seq<ConfigData.Spec>, s: ConfigData.Spec, localNs: string,
                     decode: ConfigData.Data -> Option<seq<RouteRule.RuleGroup>>)
    requires Contributes(s, decode)
    ensures var g := decode(s.data).value[0];
      var m := CatalogOf(specs + [s], localNs, decode);
      && m[Naming.NewService(localNs, g.namespaceId, g.microserviceName)] == g
      && (g.namespaceId != "" && g.namespaceId != localNs ==> m[Naming.Service(Naming.NsGlobal, g.microserviceName)] == g)
  {
    assert (specs + [s])[..|specs|] == specs;
  }

  lemma DeciderIs(rules: seq<RouteRule.Rule>, nodes: seq<Naming.Instance>, ctx: Meta.Context,
                  re: Tag.RegexEngine, i: nat)
    requires i < |rules| && RuleHits(rules[i], ctx, re) && Collect(nodes, rules[i].destList).sum != 0
    requires forall j :: 0 <= j < i && Hits(rules, ctx, re)[j] ==> Totals(nodes, rules)[j] == 0
    ensures Decider(rules, nodes, ctx, re) == Some(i)
  {
  }

  /** The matchByRule outcome as the selection Select returns. */
  function AsSelection(m: MatchOutcome): Selection
  {
    if m.Panicked? then SelectPanicked else Selected(m.inss)
  }

  /** What MatchByRule promises about its outcome `m` on `dests`. */
  ghost predicate MatchOutcomeOk(nodes: seq<Naming.Instance>, dests: seq<RouteRule.Dest>, m: MatchOutcome)
  {
    var c := Collect(nodes, dests);
    && (c.sum == 0 ==> m == Matched([]))
    && (c.sum < 0 ==> m == Panicked)
    && (c.sum > 0 && m.Matched? ==>
          m.inss != [] && exists k :: k in c.buckets && c.buckets[k].inss == m.inss && c.buckets[k].weight > 0)
    && (c.sum > 0 && m.Panicked? ==> !Consistent(c))
  }

  /** An empty selection from matchByRule means the rule's total was zero. */
  lemma EmptyMatchMeansZero(nodes: seq<Naming.Instance>, dests: seq<RouteRule.Dest>, m: MatchOutcome)
    requires MatchOutcomeOk(nodes, dests, m) && m == Matched([])
    ensures Collect(nodes, dests).sum == 0
  {
  }

  /** The loop stops at the deciding rule with its outcome. */
  lemma AllowedDecided(group: RouteRule.RuleGroup, nodes: seq<Naming.Instance>, ctx: Meta.Context,
                       re: Tag.RegexEngine, i: nat, m: MatchOutcome)
    requires i < |group.ruleList| && RuleHits(group.ruleList[i], ctx, re)
    requires forall j :: 0 <= j < i && Hits(group.ruleList, ctx, re)[j] ==> Totals(nodes, group.ruleList)[j] == 0
    requires MatchOutcomeOk(nodes, group.ruleList[i].destList, m)
    requires m.Panicked? || m.inss != []
    ensures Allowed(group, nodes, ctx, re, AsSelection(m))
  {
    assert Collect(nodes, group.ruleList[i].destList).sum != 0;
    DeciderIs(group.ruleList, nodes, ctx, re, i);
  }

  /** The loop ran through without a non-empty selection. */
  lemma AllowedExhausted(group: RouteRule.RuleGroup, nodes: seq<Naming.Instance>, ctx: Meta.Context,
                         re: Tag.RegexEngine, hit: bool)
    requires hit <==> exists j :: 0 <= j < |group.ruleList| && Hits(group.ruleList, ctx, re)[j]
    requires forall j :: 0 <= j < |group.ruleList| && Hits(group.ruleList, ctx, re)[j] ==> Totals(nodes, group.ruleList)[j] == 0
    ensures Allowed(group, nodes, ctx, re, Selected(if !hit || group.fallbackStatus then nodes else []))
  {
    if hit {
      var d := Decider(group.ruleList, nodes, ctx, re);
      assert d.None?;
    }
  }

  /** One more rule scanned past: it did not hit, or it hit and its total is zero. */
  lemma ScanStep(hits: seq<bool>, totals: seq<int>, i: nat, hit: bool)
    requires i < |hits| == |totals|
    requires hits[i] ==> totals[i] == 0
    requires forall j :: 0 <= j < i && hits[j] ==> totals[j] == 0
    requires hit <==> (hits[i] || exists j :: 0 <= j < i && hits[j])
    ensures forall j :: 0 <= j < i + 1 && hits[j] ==> totals[j] == 0
    ensures hit <==> exists j :: 0 <= j < i + 1 && hits[j]
  {
  }

  /**
   * matchByRule for the rule at index i, drawing with `draw(i, _)` and
   * visiting the candidate table in the order `orderOf(i, _)`.
   */
  method MatchRule(rule: RouteRule.Rule, nodes: seq<Naming.Instance>, draw: (nat, int) -> int,
                   orderOf: (nat, set<string>) -> seq<string>, i: nat) returns (m: MatchOutcome)
    requires forall i: nat, n: int :: n > 0 ==> 0 <= draw(i, n) < n
    requires forall i: nat, keys: set<string> :: IsOrder(orderOf(i, keys), keys)
    ensures MatchOutcomeOk(nodes, rule.destList, m)
    ensures var c := Collect(nodes, rule.destList);
      c.sum > 0 ==> DrawOutcome(c, orderOf(i, c.buckets.Keys), draw(i, c.sum), m)
  {
    m := MatchByRule(rule, nodes, (n: int) => draw(i, n), (keys: set<string>) => orderOf(i, keys));
  }

  /**
   * The rule loop and fallback of Select, for a group with rules: each hit
   * rule runs matchByRule with its own draw (`draw(i, n)` for the rule at
   * index i) and iteration order (`orderOf(i, ids)`), and the first
   * non-empty selection ends the loop.
   */
  method ApplyRules(group: RouteRule.RuleGroup, nodes: seq<Naming.Instance>, ctx: Meta.Context, re: Tag.RegexEngine,
                    draw: (nat, int) -> int, orderOf: (nat, set<string>) -> seq<string>) returns (res: Selection)
    requires forall i: nat, n: int :: n > 0 ==> 0 <= draw(i, n) < n
    requires forall i: nat, keys: set<string> :: IsOrder(orderOf(i, keys), keys)
    ensures Allowed(group, nodes, ctx, re, res)
  {
    var rules := group.ruleList;
    ghost var hits, totals := Hits(rules, ctx, re), Totals(nodes, rules);
    var hit := false;
    var selects: seq<Naming.Instance> := [];
    var i := 0;
    while i < |rules|
      invariant 0 <= i <= |rules|
      invariant hit <==> exists j :: 0 <= j < i && hits[j]
      invariant forall j :: 0 <= j < i && hits[j] ==> totals[j] == 0
      invariant selects == []
    {
      var rule := rules[i];
      if RuleHits(rule, ctx, re) {
        hit := true;
        var m := MatchRule(rule, nodes, draw, orderOf, i);
        if m.Panicked? || |m.inss| != 0 {
          AllowedDecided(group, nodes, ctx, re, i, m);
          return AsSelection(m);
        }
        EmptyMatchMeansZero(nodes, rule.destList, m);
        selects := m.inss;
      }
      ScanStep(hits, totals, i, hit);
      i := i + 1;
    }
    AllowedExhausted(group, nodes, ctx, re, hit);
    if !hit || group.fallbackStatus {
      return Selected(nodes);
    }
    return Selected(selects);
  }

  class Router {
    /** The namespace this process runs in. */
    const localNs: string
    /** The key prefix the router subscribes to. */
    const watchPrefix: string
    /** The published catalog; None until the first batch is stored. */
    var services: Option<Catalog>

    constructor (localNs: string)
      ensures this.localNs == localNs && watchPrefix == "route/" + localNs + "/" && services.None?
    {
      this.localNs := localNs;
      watchPrefix := "route/" + localNs + "/";
      services := None;
    }

    /**
     * Select.  No nodes, no catalog, no group for the (namespace-normalised)
     * service or a group without rules: the nodes unchanged.  Otherwise the
     * group's rules decide.
     */
    method Select(ctx: Meta.Context, svc: Naming.Service, nodes: seq<Naming.Instance>, re: Tag.RegexEngine,
                  draw: (nat, int) -> int, orderOf: (nat, set<string>) -> seq<string>) returns (res: Selection)
      requires forall i: nat, n: int :: n > 0 ==> 0 <= draw(i, n) < n
      requires forall i: nat, keys: set<string> :: IsOrder(orderOf(i, keys), keys)
      ensures Permits(services, localNs, ctx, svc, nodes, re, res)
    {
      if |nodes| == 0 {
        return Selected(nodes);
      }
      var key := Naming.NewService(localNs, svc.namespace, svc.name);
      if services.None? || key !in services.value {
        return Selected(nodes);
      }
      var group := services.value[key];
      var rules := group.ruleList;
      if |rules| == 0 {
        return Selected(nodes);
      }
      res := ApplyRules(group, nodes, ctx, re, draw, orderOf);
    }

    /**
     * One round of refresh after Watch returned.  Deadline or close ends
     * the loop; another error keeps the catalog.  Otherwise a new catalog
     * is built from the specs; it replaces the old one unless it is empty
     * and the last spec failed to decode.
     */
    method RefreshStep(w: ConfigData.WatchOutcome, decode: ConfigData.Data -> Option<seq<RouteRule.RuleGroup>>)
      returns (stop: bool)
      modifies this
      ensures stop <==> w.DeadlineOrClosed?
      ensures !w.Specs? ==> services == old(services)
      ensures w.Specs? ==>
        var built := CatalogOf(w.specs, localNs, decode);
        services == if |built| == 0 && LastSpecFailed(w.specs, decode) then old(services) else Some(built)
    {
      stop := w.DeadlineOrClosed?;
      if !w.Specs? {
        return;
      }
      var m: Catalog := map[];
      var failed := false;
      var i := 0;
      while i < |w.specs|
        invariant 0 <= i <= |w.specs|
        invariant m == CatalogOf(w.specs[..i], localNs, decode)
        invariant failed == LastSpecFailed(w.specs[..i], decode)
      {
        assert w.specs[..i + 1][..i] == w.specs[..i];
        var parsed := decode(w.specs[i].data);
        failed := parsed.None?;
        if parsed.Some? && |parsed.value| > 0 {
          var g := parsed.value[0];
          m := m[Naming.NewService(localNs, g.namespaceId, g.microserviceName) := g];
          if g.namespaceId != "" && g.namespaceId != localNs {
            m := m[Naming.NewService(localNs, Naming.NsGlobal, g.microserviceName) := g];
          }
        }
        i := i + 1;
      }
      assert w.specs[..i] == w.specs;
      if |m| == 0 && failed {
        return;
      }
      services := Some(m);
    }
  }
}
