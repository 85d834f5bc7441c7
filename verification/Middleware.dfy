/** Middleware chains: the first middleware of a list is outermost. */
module Middleware {
  import opened Wrappers
  import opened Endpoints

  /** `h` inside all of `mws`. */
  function Chain(mws: seq<nat>, h: Option<Handler>): Option<Handler> {
    if mws == [] then h else Some(Wrap(mws[0], Chain(mws[1..], h)))
  }

  /** Wraps from the last middleware to the first. */
  method ChainHelper(middlewares: seq<nat>, endpoint: Option<Handler>) returns (h: Option<Handler>)
    ensures h == Chain(middlewares, endpoint)
  {
    if middlewares == [] {
      return endpoint;
    }
    var i := |middlewares| - 1;
    h := Some(Wrap(middlewares[i], endpoint));
    assert middlewares[i..] == [middlewares[i]];
    while i > 0
      invariant 0 <= i < |middlewares|
      invariant h == Chain(middlewares[i..], endpoint)
    {
      i := i - 1;
      h := Some(Wrap(middlewares[i], h));
      assert middlewares[i..][1..] == middlewares[i + 1..];
    }
    assert middlewares[0..] == middlewares;
  }

  /** Middlewares::make_handler: a handler that remembers its chain, also when the endpoint is null. */
  method MakeHandler(middlewares: seq<nat>, h: Option<Handler>) returns (c: Handler)
    ensures c == Chained(Chain(middlewares, h), h, middlewares)
  {
    var chain := ChainHelper(middlewares, h);
    c := Chained(chain, h, middlewares);
  }

  /** The middlewares a request passes through, outermost first. */
  function Layers(h: Option<Handler>): seq<nat> {
    match h
    case Some(Wrap(mw, inner)) => [mw] + Layers(inner)
    case Some(Chained(chain, _, _)) => Layers(chain)
    case _ => []
  }

  /** What is left when every middleware just calls on. */
  function Core(h: Option<Handler>): (r: Option<Handler>)
    ensures r.Some? ==> !r.value.Wrap? && !r.value.Chained?
  {
    match h
    case Some(Wrap(_, inner)) => Core(inner)
    case Some(Chained(chain, _, _)) => Core(chain)
    case _ => h
  }

  /** A chain is entered in the order of its list and ends where its endpoint does. */
  lemma {:induction false} ChainLayers(mws: seq<nat>, h: Option<Handler>)
    ensures Layers(Chain(mws, h)) == mws + Layers(h)
    ensures Core(Chain(mws, h)) == Core(h)
  {
    if mws == [] {
      assert mws + Layers(h) == Layers(h);
    } else {
      ChainLayers(mws[1..], h);
      assert [mws[0]] + (mws[1..] + Layers(h)) == mws + Layers(h);
    }
  }

  /** Chaining a concatenated list is chaining its parts in turn. */
  lemma {:induction false} ChainAppend(a: seq<nat>, b: seq<nat>, h: Option<Handler>)
    ensures Chain(a + b, h) == Chain(a, Chain(b, h))
  {
    if a == [] {
      assert a + b == b;
    } else {
      assert (a + b)[1..] == a[1..] + b;
      ChainAppend(a[1..], b, h);
    }
  }
}
