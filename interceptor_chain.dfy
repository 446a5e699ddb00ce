/**
 * Interceptor chaining as the gRPC server and client of this repository do
 * it (pkg/grpc/server/chain.go, pkg/grpc/client/chain.go): the registered
 * interceptors, read when a call arrives, are wrapped around the final
 * handler from the last to the first, so that the first runs outermost.
 *
 * A call's arguments are one value of type A (the context and request; for
 * the client also the method, reply, connection and options), R is what the
 * call returns, and F the info every interceptor of one call is given (the
 * client's interceptors take none and use the unit type).
 */
module InterceptorChain {

  type Interceptor<!A, !F, !R> = (A, F, A -> R) -> R

  /** chainer: the handler that runs `inter` with `next` as its continuation. */
  function Chainer<A, F, R>(inter: Interceptor<A, F, R>, next: A -> R, info: F): A -> R
  {
    a => inter(a, info, next)
  }

  /** The handler the loop has built once it has wrapped inters[k..] around `handler`. */
  function ChainFrom<A, F, R>(inters: seq<Interceptor<A, F, R>>, info: F, handler: A -> R, k: nat): A -> R
    requires k <= |inters|
    decreases |inters| - k
  {
    if k == |inters| then handler else Chainer(inters[k], ChainFrom(inters, info, handler, k + 1), info)
  }

  /** The chain of all interceptors. */
  function Chain<A, F, R>(inters: seq<Interceptor<A, F, R>>, info: F, handler: A -> R): A -> R
  {
    ChainFrom(inters, info, handler, 0)
  }

  /**
   * The first interceptor runs first, with the same arguments and info,
   * and its continuation is the chain of the others.
   */
  lemma FirstRunsOutermost<A, F, R>(inters: seq<Interceptor<A, F, R>>, info: F, handler: A -> R, a: A)
    requires |inters| > 0
    ensures Chain(inters, info, handler)(a) == inters[0](a, info, Chain(inters[1..], info, handler))
  {
    ShiftedChain(inters[..1], inters[1..], info, handler, 0);
    assert inters[..1] + inters[1..] == inters;
  }

  /** Dropping a prefix of the list does not change the chain built after it. */
  lemma {:induction false} ShiftedChain<A, F, R>(a: seq<Interceptor<A, F, R>>, b: seq<Interceptor<A, F, R>>,
                                                  info: F, handler: A -> R, j: nat)
    requires j <= |b|
    ensures ChainFrom(a + b, info, handler, |a| + j) == ChainFrom(b, info, handler, j)
    decreases |b| - j
  {
    if j < |b| {
      ShiftedChain(a, b, info, handler, j + 1);
      assert (a + b)[|a| + j] == b[j];
    }
  }

  /**
   * Chaining a + b is chaining a around the chain of b: interceptors added
   * later run inside the ones added before, next to the handler.
   */
  lemma {:induction false} ChainAppend<A, F, R>(a: seq<Interceptor<A, F, R>>, b: seq<Interceptor<A, F, R>>,
                                                 info: F, handler: A -> R, k: nat)
    requires k <= |a|
    ensures ChainFrom(a + b, info, handler, k) == ChainFrom(a, info, Chain(b, info, handler), k)
    decreases |a| - k
  {
    if k == |a| {
      ShiftedChain(a, b, info, handler, 0);
    } else {
      ChainAppend(a, b, info, handler, k + 1);
      assert (a + b)[k] == a[k];
    }
  }

  /**
   * Context passing, left to right: when each interceptor appends its tag to
   * the arguments and continues, the handler sees the tags in list order.
   */
  function Tagger<T, F, R>(tag: T): Interceptor<seq<T>, F, R>
  {
    (t: seq<T>, info: F, next: seq<T> -> R) => next(t + [tag])
  }

  function Taggers<T, F, R>(tags: seq<T>): (r: seq<Interceptor<seq<T>, F, R>>)
    ensures |r| == |tags| && forall i :: 0 <= i < |tags| ==> r[i] == Tagger(tags[i])
  {
    if tags == [] then [] else [Tagger(tags[0])] + Taggers(tags[1..])
  }

  lemma {:induction false} LeftToRight<T, F, R>(tags: seq<T>, info: F, handler: seq<T> -> R, t: seq<T>, k: nat)
    requires k <= |tags|
    ensures ChainFrom(Taggers(tags), info, handler, k)(t) == handler(t + tags[k..])
    decreases |tags| - k
  {
    if k == |tags| {
      assert t + tags[k..] == t;
    } else {
      var inters := Taggers<T, F, R>(tags);
      var next := ChainFrom(inters, info, handler, k + 1);
      assert ChainFrom(inters, info, handler, k) == Chainer(Tagger(tags[k]), next, info);
      assert ChainFrom(inters, info, handler, k)(t) == next(t + [tags[k]]);
      LeftToRight(tags, info, handler, t + [tags[k]], k + 1);
      assert t + [tags[k]] + tags[k + 1..] == t + tags[k..];
    }
  }

  /** The server and the client run the interceptors' loop the same way. */
  method RunChain<A, F, R>(inters: seq<Interceptor<A, F, R>>, info: F, handler: A -> R, a: A) returns (r: R)
    ensures r == Chain(inters, info, handler)(a)
    ensures inters == [] ==> r == handler(a)
  {
    var chained := handler;
    var i := |inters|;
    while i > 0
      invariant 0 <= i <= |inters|
      invariant chained == ChainFrom(inters, info, handler, i)
    {
      i := i - 1;
      chained := Chainer(inters[i], chained, info);
    }
    r := chained(a);
  }
}

/** The interceptor lists of the gRPC server (pkg/grpc/server/chain.go). */
module ServerChain {
  import opened InterceptorChain

  class Server<A, F, R, SA, SF, SR> {
    var interceptors: seq<Interceptor<A, F, R>>
    var streamInterceptors: seq<Interceptor<SA, SF, SR>>

    constructor ()
      ensures interceptors == [] && streamInterceptors == []
    {
      interceptors := [];
      streamInterceptors := [];
    }

    /** Use: appends, in call order, and returns the server. */
    method Use(xs: seq<Interceptor<A, F, R>>) returns (s: Server<A, F, R, SA, SF, SR>)
      modifies this
      ensures s == this && interceptors == old(interceptors) + xs
      ensures streamInterceptors == old(streamInterceptors)
    {
      interceptors := interceptors + xs;
      return this;
    }

    /** UseStream: appends to the stream list and returns the server. */
    method UseStream(xs: seq<Interceptor<SA, SF, SR>>) returns (s: Server<A, F, R, SA, SF, SR>)
      modifies this
      ensures s == this && streamInterceptors == old(streamInterceptors) + xs
      ensures interceptors == old(interceptors)
    {
      streamInterceptors := streamInterceptors + xs;
      return this;
    }

    /**
     * The interceptor chainUnaryInterceptors returns, as called: the list is
     * read when the call arrives, every interceptor gets the call's info,
     * and with no interceptors the handler is called directly.
     */
    method Unary(a: A, info: F, handler: A -> R) returns (r: R)
      ensures r == Chain(interceptors, info, handler)(a)
      ensures interceptors == [] ==> r == handler(a)
    {
      r := RunChain(interceptors, info, handler, a);
    }

    /** The interceptor chainStreamServer returns, as called. */
    method Stream(a: SA, info: SF, handler: SA -> SR) returns (r: SR)
      ensures r == Chain(streamInterceptors, info, handler)(a)
      ensures streamInterceptors == [] ==> r == handler(a)
    {
      r := RunChain(streamInterceptors, info, handler, a);
    }
  }
}

/** The interceptor lists of the gRPC client connection (pkg/grpc/client/chain.go). */
module ClientChain {
  import opened InterceptorChain

  /** The client's interceptors take no info. */
  type ClientInterceptor<!A, !R> = Interceptor<A, (), R>

  class ClientConn<A, R, SA, SR> {
    var interceptors: seq<ClientInterceptor<A, R>>
    var streamInterceptors: seq<ClientInterceptor<SA, SR>>

    constructor ()
      ensures interceptors == [] && streamInterceptors == []
    {
      interceptors := [];
      streamInterceptors := [];
    }

    /** Use: appends, in call order, and returns the connection. */
    method Use(xs: seq<ClientInterceptor<A, R>>) returns (c: ClientConn<A, R, SA, SR>)
      modifies this
      ensures c == this && interceptors == old(interceptors) + xs
      ensures streamInterceptors == old(streamInterceptors)
    {
      interceptors := interceptors + xs;
      return this;
    }

    /** UseStream: appends to the stream list and returns the connection. */
    method UseStream(xs: seq<ClientInterceptor<SA, SR>>) returns (c: ClientConn<A, R, SA, SR>)
      modifies this
      ensures c == this && streamInterceptors == old(streamInterceptors) + xs
      ensures interceptors == old(interceptors)
    {
      streamInterceptors := streamInterceptors + xs;
      return this;
    }

    /** The interceptor chainUnaryClient returns, as called, with the invoker innermost. */
    method Unary(a: A, invoker: A -> R) returns (r: R)
      ensures r == Chain(interceptors, (), invoker)(a)
      ensures interceptors == [] ==> r == invoker(a)
    {
      r := RunChain(interceptors, (), invoker, a);
    }

    /** The interceptor chainStreamClient returns, as called, with the streamer innermost. */
    method Stream(a: SA, streamer: SA -> SR) returns (r: SR)
      ensures r == Chain(streamInterceptors, (), streamer)(a)
      ensures streamInterceptors == [] ==> r == streamer(a)
    {
      r := RunChain(streamInterceptors, (), streamer, a);
    }
  }
}
