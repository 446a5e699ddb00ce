/**
 * Service authentication (pkg/auth/authenticator/authenticator.go): a
 * whitelist or blacklist of tag rules decides whether a request may call
 * the service; the rule set is replaced when the config source publishes
 * a new version.
 */
module Authenticator {
  import opened Wrappers
  import Tag
  import Meta
  import Naming
  import ConfigData
  import opened AuthRule

  const Whitelist := "W"

  datatype Verdict = Allow | Forbidden

  /** Whether auth rule `r` matches the request (the rule's tags are converted afresh on every call). */
  predicate RuleHits(r: AuthRule, ctx: Meta.Context, re: Tag.RegexEngine)
  {
    Tag.RuleHit(GenTagRules(r).tagRule, ctx, re)
  }

  /** The index of the first rule that hits, scanning in list order, if any. */
  function FirstHit(rules: seq<AuthRule>, ctx: Meta.Context, re: Tag.RegexEngine): (r: Option<nat>)
    ensures r.Some? ==> r.value < |rules| && RuleHits(rules[r.value], ctx, re)
    ensures r.Some? ==> forall j :: 0 <= j < r.value ==> !RuleHits(rules[j], ctx, re)
    ensures r.None? ==> forall j :: 0 <= j < |rules| ==> !RuleHits(rules[j], ctx, re)
  {
    FirstTrue(Hits(rules, ctx, re), 0)
  }

  /** Whether each rule hits, in list order. */
  function Hits(rules: seq<AuthRule>, ctx: Meta.Context, re: Tag.RegexEngine): (h: seq<bool>)
    ensures |h| == |rules| && forall j :: 0 <= j < |rules| ==> h[j] == RuleHits(rules[j], ctx, re)
  {
    seq(|rules|, j requires 0 <= j < |rules| => RuleHits(rules[j], ctx, re))
  }

  /** The scan from index k on: the first true verdict. */
  function FirstTrue(hits: seq<bool>, k: nat): (r: Option<nat>)
    requires k <= |hits|
    ensures r.Some? ==> k <= r.value < |hits| && hits[r.value]
    ensures r.Some? ==> forall j :: k <= j < r.value ==> !hits[j]
    ensures r.None? ==> forall j :: k <= j < |hits| ==> !hits[j]
    decreases |hits| - k
  {
    if k == |hits| then None
    else if hits[k] then Some(k)
    else FirstTrue(hits, k + 1)
  }

  /**
   * Verify: no config or no rules allows.  Otherwise the first hitting
   * rule decides: a whitelist ("W") allows on a hit and forbids when
   * nothing hits; any other type is a blacklist, forbidding on a hit.
   */
  function Verify(config: Option<AuthConfig>, ctx: Meta.Context, re: Tag.RegexEngine): (v: Verdict)
    ensures config.None? || |config.value.rules| == 0 ==> v == Allow
    ensures config.Some? && |config.value.rules| > 0 && config.value.authType == Whitelist ==>
      (v == Allow <==> exists i :: 0 <= i < |config.value.rules| && RuleHits(config.value.rules[i], ctx, re))
    ensures config.Some? && |config.value.rules| > 0 && config.value.authType != Whitelist ==>
      (v == Forbidden <==> exists i :: 0 <= i < |config.value.rules| && RuleHits(config.value.rules[i], ctx, re))
  {
    if config.None? || |config.value.rules| == 0 then Allow
    else
      match FirstHit(config.value.rules, ctx, re)
      case Some(_) => if config.value.authType == Whitelist then Allow else Forbidden
      case None => if config.value.authType == Whitelist then Forbidden else Allow
  }

  /** Verify depends on the rules only up to the first one that hits. */
  lemma {:induction false} FirstHitDecides(c: AuthConfig, extra: seq<AuthRule>, ctx: Meta.Context, re: Tag.RegexEngine, i: nat)
    requires i < |c.rules| && RuleHits(c.rules[i], ctx, re)
    ensures Verify(Some(c), ctx, re) == Verify(Some(c.(rules := c.rules[..i + 1] + extra)), ctx, re)
  {
    var c' := c.(rules := c.rules[..i + 1] + extra);
    assert c'.rules[i] == c.rules[i];
  }

  /** The key the authenticator's config lives under. */
  function ConfigKey(svc: Naming.Service): string
  {
    "authority/" + svc.namespace + "/" + svc.name + "/data"
  }

  /** The outcome of one spec in refreshRule: the decoded configs, or None for a bad key or a decode error. */
  function SpecResult(s: ConfigData.Spec, key: string, decode: ConfigData.Data -> Option<seq<AuthConfig>>): Option<seq<AuthConfig>>
  {
    if s.key != key then None else decode(s.data)
  }

  /** The configs the loop ends with: those of the last spec that decoded, or none. */
  function LastDecoded(specs: seq<ConfigData.Spec>, key: string, decode: ConfigData.Data -> Option<seq<AuthConfig>>): seq<AuthConfig>
    decreases |specs|
  {
    if |specs| == 0 then []
    else match SpecResult(specs[|specs| - 1], key, decode)
      case Some(cs) => cs
      case None => LastDecoded(specs[..|specs| - 1], key, decode)
  }

  /** Whether the loop ends with an error recorded: the last spec had a bad key or failed to decode. */
  predicate EndsInError(specs: seq<ConfigData.Spec>, key: string, decode: ConfigData.Data -> Option<seq<AuthConfig>>)
  {
    |specs| > 0 && SpecResult(specs[|specs| - 1], key, decode).None?
  }

  class Authenticator {
    const svc: Naming.Service
    var authConfig: Option<AuthConfig>

    constructor (svc: Naming.Service)
      ensures this.svc == svc && authConfig.None?
    {
      this.svc := svc;
      authConfig := None;
    }

    function VerifyRequest(ctx: Meta.Context, re: Tag.RegexEngine): Verdict
      reads this
    {
      Verify(authConfig, ctx, re)
    }

    /**
     * One round of refreshRule after Watch returned.  Deadline and close
     * end the loop; other errors keep the config.  Otherwise the specs are
     * decoded in order; when nothing decoded and the last spec failed, the
     * old config stays; else the first decoded config replaces it, or it is
     * cleared when none decoded.
     */
    method RefreshStep(w: ConfigData.WatchOutcome, decode: ConfigData.Data -> Option<seq<AuthConfig>>) returns (stop: bool)
      modifies this
      ensures stop <==> w.DeadlineOrClosed?
      ensures !w.Specs? ==> authConfig == old(authConfig)
      ensures w.Specs? ==>
        var decoded := LastDecoded(w.specs, ConfigKey(svc), decode);
        authConfig ==
          if |decoded| == 0 && EndsInError(w.specs, ConfigKey(svc), decode) then old(authConfig)
          else if |decoded| > 0 then Some(decoded[0])
          else None
    {
      stop := w.DeadlineOrClosed?;
      if !w.Specs? {
        return;
      }
      var key := ConfigKey(svc);
      var configs: seq<AuthConfig> := [];
      var failed := false;
      var i := 0;
      while i < |w.specs|
        invariant 0 <= i <= |w.specs|
        invariant configs == LastDecoded(w.specs[..i], key, decode)
        invariant failed == EndsInError(w.specs[..i], key, decode)
      {
        var spec := w.specs[i];
        assert w.specs[..i + 1][..i] == w.specs[..i];
        if spec.key != key {
          failed := true;
        } else {
          var parsed := decode(spec.data);
          if parsed.None? {
            failed := true;
          } else {
            failed := false;
            configs := parsed.value;
          }
        }
        i := i + 1;
      }
      assert w.specs[..i] == w.specs;
      if |configs| == 0 && failed {
        return;
      }
      if |configs| > 0 {
        // genTagRules runs on copies of the rules, so the stored config is the decoded one
        authConfig := Some(configs[0]);
      } else {
        authConfig := None;
      }
    }
  }

  /** A spec under a foreign key never contributes configs, whatever it holds. */
  lemma {:induction false} ForeignKeySkipped(specs: seq<ConfigData.Spec>, s: ConfigData.Spec, key: string,
                                            decode: ConfigData.Data -> Option<seq<AuthConfig>>)
    requires s.key != key
    ensures LastDecoded(specs + [s], key, decode) == LastDecoded(specs, key, decode)
    ensures EndsInError(specs + [s], key, decode)
  {
    assert (specs + [s])[..|specs|] == specs;
  }
}
