/** The routing context that a request carries through a stack of routers. */
module Context {
  import opened Endpoints

  datatype RouteParams = RouteParams(keys: seq<string>, values: seq<string>) {
    predicate Aligned() {
      |keys| == |values|
    }

    function Push(value: string): RouteParams {
      this.(values := values + [value])
    }

    function Plus(other: RouteParams): RouteParams {
      RouteParams(keys + other.keys, values + other.values)
    }
  }

  const NO_PARAMS := RouteParams([], [])

  /** Index of the last occurrence of `key`, or -1. */
  function LastIndex(keys: seq<string>, key: string): (i: int)
    ensures -1 <= i < |keys|
    ensures i >= 0 ==> keys[i] == key
    ensures forall j :: i < j < |keys| ==> keys[j] != key
  {
    if keys == [] then -1
    else if keys[|keys| - 1] == key then |keys| - 1
    else LastIndex(keys[..|keys| - 1], key)
  }

  lemma {:induction false} LastIndexConcat(a: seq<string>, b: seq<string>, key: string)
    ensures LastIndex(a + b, key) == if LastIndex(b, key) >= 0 then |a| + LastIndex(b, key) else LastIndex(a, key)
  {
    if b == [] {
      assert a + b == a;
    } else {
      assert (a + b)[..|a + b| - 1] == a + b[..|b| - 1];
      LastIndexConcat(a, b[..|b| - 1], key);
    }
  }

  /** The value bound to a key: its last occurrence among the keys that have a value. */
  function UrlParam(params: RouteParams, key: string): string {
    var n := if |params.keys| <= |params.values| then |params.keys| else |params.values|;
    var i := LastIndex(params.keys[..n], key);
    if i < 0 then "" else params.values[i]
  }

  /** A key has the value of its last occurrence that has one; without any, it has the empty string. */
  lemma UrlParamExact(params: RouteParams, key: string, i: nat)
    ensures i < |params.keys| && i < |params.values| && params.keys[i] == key
            && (forall j :: i < j < |params.keys| && j < |params.values| ==> params.keys[j] != key) ==>
              UrlParam(params, key) == params.values[i]
    ensures (forall j :: 0 <= j < |params.keys| && j < |params.values| ==> params.keys[j] != key) ==> UrlParam(params, key) == ""
  {
  }

  /** With as many values as keys, the parameters of the inner router hide those of the outer one. */
  lemma InnermostWins(outer: RouteParams, inner: RouteParams, key: string)
    requires outer.Aligned() && inner.Aligned()
    ensures outer.Plus(inner).Aligned()
    ensures UrlParam(outer.Plus(inner), key) == if key in inner.keys then UrlParam(inner, key) else UrlParam(outer, key)
  {
    var both := outer.Plus(inner);
    assert both.keys[..|both.keys|] == both.keys;
    assert inner.keys[..|inner.keys|] == inner.keys && outer.keys[..|outer.keys|] == outer.keys;
    LastIndexConcat(outer.keys, inner.keys, key);
  }

  class RoutingContext {
    var routePath: string
    var routeMethod: Method
    /** The parameters of all routers passed so far, outermost first. */
    var urlParams: RouteParams
    var routePatterns: seq<string>
    /** The parameters of the current router. */
    var routeParams: RouteParams
    var routePattern: string
    var methodNotAllowed: bool

    constructor ()
      ensures routePath == "" && routeMethod == UNKNOWN && urlParams == NO_PARAMS && routePatterns == []
      ensures routeParams == NO_PARAMS && routePattern == "" && !methodNotAllowed
    {
      routePath, routeMethod, urlParams, routePatterns := "", UNKNOWN, NO_PARAMS, [];
      routeParams, routePattern, methodNotAllowed := NO_PARAMS, "", false;
    }

    /** The innermost value recorded for that key; empty if there is none. */
    method GetUrlParam(key: string) returns (value: string)
      ensures value == UrlParam(urlParams, key)
    {
      var i := |urlParams.keys|;
      ghost var n := if |urlParams.keys| <= |urlParams.values| then |urlParams.keys| else |urlParams.values|;
      while i > 0
        invariant 0 <= i <= |urlParams.keys|
        invariant forall j :: i <= j < n ==> urlParams.keys[j] != key
      {
        i := i - 1;
        if urlParams.keys[i] == key {
          if i < |urlParams.values| {
            return urlParams.values[i];
          }
        }
      }
      return "";
    }
  }
}
