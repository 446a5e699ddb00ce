/**
 * The composite router of pkg/route/composite/composite.go: the lane router
 * first, then the destination router on what the lane router kept.  The
 * destination router it chains (pkg/route/router) is not part of this
 * model, so it is a function value here.
 */
module PkgComposite {
  import opened Seqs
  import Naming
  import Meta
  import LaneRouter = Lane

  /** A router's Select, as a value. */
  type RouteSelect = (Meta.Context, Naming.Service, seq<Naming.Instance>) -> seq<Naming.Instance>

  /** The router only ever returns a subsequence of the instances it is given. */
  ghost predicate KeepsSubsequence(f: RouteSelect)
  {
    forall ctx, svc, nodes :: IsSubsequence(f(ctx, svc, nodes), nodes)
  }

  class Composite {
    const router: RouteSelect
    const lane: LaneRouter.Lane

    constructor (router: RouteSelect, lane: LaneRouter.Lane)
      ensures this.router == router && this.lane == lane
    {
      this.router := router;
      this.lane := lane;
    }

    /**
     * Select: the lane router's result when it is empty (the router is not
     * consulted), else the router applied to it.
     */
    method Select(ctx: Meta.Context, svc: Naming.Service, nodes: seq<Naming.Instance>) returns (r: seq<Naming.Instance>)
      modifies lane
      ensures var res := old(lane.Selection(ctx, svc, nodes));
        r == if |res| == 0 then res else router(ctx, svc, res)
      ensures KeepsSubsequence(router) ==> IsSubsequence(r, nodes)
    {
      var res := lane.Select(ctx, svc, nodes);
      if |res| == 0 {
        return res;
      }
      r := router(ctx, svc, res);
      if KeepsSubsequence(router) {
        SubsequenceTrans(r, res, nodes);
      }
    }

    /** The lane router the composite was built with. */
    method Lane() returns (l: LaneRouter.Lane)
      ensures l == lane
    {
      return lane;
    }
  }

  /** The package-level singleton behind DefaultComposite. */
  class Defaults {
    var composite: Composite?

    constructor ()
      ensures composite == null
    {
      composite := null;
    }

    /**
     * DefaultComposite: built on the first call from the default router and
     * the default lane router (passed in here), then the same object on
     * every call.
     */
    method DefaultComposite(router: RouteSelect, lane: LaneRouter.Lane) returns (c: Composite)
      modifies this
      ensures old(composite) != null ==> c == old(composite)
      ensures old(composite) == null ==> fresh(c) && c.router == router && c.lane == lane
      ensures composite == c
    {
      if composite == null {
        composite := new Composite(router, lane);
      }
      c := composite;
    }
  }
}

/**
 * The composite router of route/composite/composite.go: the lane router
 * first, then route/router's Router on what the lane router kept.  The lane
 * router it chains (route/lane) is not part of this model, so it is a
 * function value here.
 */
module RouteComposite {
  import opened Seqs
  import Naming
  import Meta
  import Tag
  import Router

  /** A lane router's Select, as a value. */
  type LaneSelect = (Meta.Context, Naming.Service, seq<Naming.Instance>) -> seq<Naming.Instance>

  /** The lane router only ever returns a subsequence of the instances it is given. */
  ghost predicate KeepsSubsequence(f: LaneSelect)
  {
    forall ctx, svc, nodes :: IsSubsequence(f(ctx, svc, nodes), nodes)
  }

  class Composite {
    const route: Router.Router
    const lane: LaneSelect

    constructor (router: Router.Router, lane: LaneSelect)
      ensures route == router && this.lane == lane
    {
      route := router;
      this.lane := lane;
    }

    /**
     * Select: the lane router's result when it is empty (the router is not
     * consulted), else what the router may return for it.  With a
     * well-formed catalog and a lane router that keeps subsequences, the
     * result is a subsequence of the input.
     */
    method Select(ctx: Meta.Context, svc: Naming.Service, nodes: seq<Naming.Instance>, re: Tag.RegexEngine,
                  draw: (nat, int) -> int, orderOf: (nat, set<string>) -> seq<string>) returns (r: Router.Selection)
      requires forall i: nat, n: int :: n > 0 ==> 0 <= draw(i, n) < n
      requires forall i: nat, keys: set<string> :: IsOrder(orderOf(i, keys), keys)
      ensures var res := lane(ctx, svc, nodes);
        if |res| == 0 then r == Router.Selected(res)
        else Router.Permits(route.services, route.localNs, ctx, svc, res, re, r)
      ensures KeepsSubsequence(lane) && Router.CatalogWellFormed(route.services) ==>
        r.Selected? && IsSubsequence(r.nodes, nodes)
    {
      var res := lane(ctx, svc, nodes);
      if |res| == 0 {
        SubsequenceEmpty(nodes);
        return Router.Selected(res);
      }
      r := route.Select(ctx, svc, res, re, draw, orderOf);
      if KeepsSubsequence(lane) && Router.CatalogWellFormed(route.services) {
        Router.PermitsSubsequence(route.services, route.localNs, ctx, svc, res, re, r);
        SubsequenceTrans(r.nodes, res, nodes);
      }
    }

    /** The lane router the composite was built with. */
    method Lane() returns (l: LaneSelect)
      ensures l == lane
    {
      return lane;
    }
  }

  /** The package-level singleton behind DefaultComposite. */
  class Defaults {
    var composite: Composite?

    constructor ()
      ensures composite == null
    {
      composite := null;
    }

    /**
     * DefaultComposite: built on the first call from the default router and
     * the default lane router (passed in here), then the same object on
     * every call.
     */
    method DefaultComposite(router: Router.Router, lane: LaneSelect) returns (c: Composite)
      modifies this
      ensures old(composite) != null ==> c == old(composite)
      ensures old(composite) == null ==> fresh(c) && c.route == router && c.lane == lane
      ensures composite == c
    {
      if composite == null {
        composite := new Composite(router, lane);
      }
      c := composite;
    }
  }
}
