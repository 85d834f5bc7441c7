/** HTTP methods, endpoints, and the endpoint table that a trie node carries. */
module Endpoints {
  import opened Wrappers
  import opened Pattern

  /** A method is a bit mask: one bit each, and ALL for the nine valid ones. */
  datatype Method = Method(value: bv16)

  const UNKNOWN := Method(1)
  const METHODS := [Method(2), Method(4), Method(8), Method(16), Method(32),
                    Method(64), Method(128), Method(256), Method(512)]
  const ALL := Method(1022)

  /** What a mount registers for: ALL and UNKNOWN. */
  const MOUNTED := Method(1023)

  predicate HasBits(m: Method, bits: Method) {
    m.value & bits.value == bits.value
  }

  predicate IsValid(m: Method) {
    m in METHODS
  }

  /**
   Handlers as terms: a user's handler, a router's own dispatcher, the handler that enters
   a mounted router, a middleware applied to a handler, and a chain that remembers what it
   was made of. A null handler is None.
   */
  datatype Handler =
    | User(id: nat)
    | Serve(router: nat)
    | Mounted(router: nat)
    | Wrap(middleware: nat, inner: Option<Handler>)
    | Chained(chain: Option<Handler>, endpoint: Option<Handler>, middlewares: seq<nat>)

  datatype Endpoint = Endpoint(handler: Option<Handler>, pattern: string, paramKeys: seq<string>)

  const BLANK := Endpoint(None, "", [])

  type EndpointMap = map<Method, Endpoint>

  /** What a node offers: its endpoints, and the router mounted at it, if any. */
  datatype Leaf = Leaf(endpoints: EndpointMap, subroutes: Option<nat>)

  const EMPTY := Leaf(map[], None)

  /** One registration; `subroutes` is the router that mount records on the node. */
  datatype Route = Route(verb: Method, pattern: string, handler: Option<Handler>, subroutes: Option<nat>)

  /** The methods whose endpoint a registration replaces. */
  function Registered(m: Method): set<Method> {
    if HasBits(m, ALL) then {ALL} + set x | x in METHODS else {m}
  }

  function Value(eps: EndpointMap, m: Method): Endpoint {
    if m in eps then eps[m] else BLANK
  }

  /** The entry for `unknown` gets the handler only, when the mask has that bit. */
  function MarkUnknown(eps: EndpointMap, m: Method, h: Option<Handler>): EndpointMap {
    if HasBits(m, UNKNOWN) then eps[UNKNOWN := Value(eps, UNKNOWN).(handler := h)] else eps
  }

  function Everywhere(ep: Endpoint): (out: EndpointMap)
    ensures forall m :: m in out <==> m == ALL || m in METHODS
    ensures forall m <- out :: out[m] == ep
  {
    map m | m in METHODS + [ALL] :: ep
  }

  /** The endpoint table after set_endpoint with an accepted pattern. */
  function SetAll(eps: EndpointMap, r: Route): (out: EndpointMap)
    ensures out != map[]
  {
    var full := Endpoint(r.handler, r.pattern, Keys(r.pattern));
    var marked := MarkUnknown(eps, r.verb, r.handler);
    if HasBits(r.verb, ALL) then
      assert ALL in marked + Everywhere(full);
      marked + Everywhere(full)
    else
      assert r.verb in marked[r.verb := full];
      marked[r.verb := full]
  }

  /** Exactly the registered methods get the new endpoint; besides, only the handler of `unknown` may change. */
  lemma SetAllExact(eps: EndpointMap, r: Route, m: Method)
    ensures m in Registered(r.verb) ==>
              m in SetAll(eps, r) && SetAll(eps, r)[m] == Endpoint(r.handler, r.pattern, Keys(r.pattern))
    ensures m !in Registered(r.verb) && (m != UNKNOWN || !HasBits(r.verb, UNKNOWN)) ==>
              (m in SetAll(eps, r) <==> m in eps) && (m in eps ==> SetAll(eps, r)[m] == eps[m])
    ensures UNKNOWN !in Registered(r.verb) && HasBits(r.verb, UNKNOWN) ==>
              Value(SetAll(eps, r), UNKNOWN) == Value(eps, UNKNOWN).(handler := r.handler)
  {
    if HasBits(r.verb, ALL) {
      assert m in Registered(r.verb) <==> m in METHODS || m == ALL;
    }
  }

  /** A valid method is exactly one bit of ALL, and MOUNTED is ALL with the bit of UNKNOWN. */
  lemma MethodBits(m: Method)
    ensures IsValid(m) <==> m.value != 0 && m.value & (m.value - 1) == 0 && m.value & 1022 == m.value
    ensures ALL.value == 1022 && UNKNOWN.value == 1 && MOUNTED.value == ALL.value | UNKNOWN.value
  {
  }

  /** Which methods a registration is for: its own and, if it has all bits of ALL, every valid one. */
  lemma RegisteredExact(verb: Method, m: Method)
    requires IsValid(m)
    ensures m in Registered(verb) <==> m == verb || verb.value & 1022 == 1022
  {
  }

  /** A registration for one method leaves the endpoints of all other valid methods as they were. */
  lemma OneMethod(eps: EndpointMap, r: Route, m: Method)
    requires IsValid(r.verb) && IsValid(m)
    ensures var out := SetAll(eps, r);
            if m == r.verb then m in out && out[m] == Endpoint(r.handler, r.pattern, Keys(r.pattern))
            else (m in out <==> m in eps) && (m in eps ==> out[m] == eps[m])
  {
    SetAllExact(eps, r, m);
    assert m != UNKNOWN && !HasBits(r.verb, ALL);
  }

  /** A registration for all methods, or for a mount, replaces the endpoint of every valid method, and of ALL. */
  lemma AllMethods(eps: EndpointMap, r: Route, m: Method)
    requires (r.verb == ALL || r.verb == MOUNTED) && (IsValid(m) || m == ALL)
    ensures m in SetAll(eps, r) && SetAll(eps, r)[m] == Endpoint(r.handler, r.pattern, Keys(r.pattern))
  {
    SetAllExact(eps, r, m);
    assert HasBits(ALL, ALL) && HasBits(MOUNTED, ALL);
  }

  /** The entry for unknown: a mount sets its handler and nothing else; other registrations leave it alone. */
  lemma UnknownHandler(eps: EndpointMap, r: Route)
    requires IsValid(r.verb) || r.verb == ALL || r.verb == MOUNTED
    ensures var out := SetAll(eps, r);
            if r.verb == MOUNTED then UNKNOWN in out && out[UNKNOWN] == Value(eps, UNKNOWN).(handler := r.handler)
            else (UNKNOWN in out <==> UNKNOWN in eps) && (UNKNOWN in eps ==> out[UNKNOWN] == eps[UNKNOWN])
  {
    assert HasBits(MOUNTED, UNKNOWN) && HasBits(MOUNTED, ALL);
    assert r.verb != MOUNTED ==> !HasBits(r.verb, UNKNOWN);
    assert UNKNOWN !in METHODS && UNKNOWN != ALL;
  }

  /** A leaf after one registration: the whole leaf a registration promises. */
  function Register(leaf: Leaf, r: Route): Leaf {
    Leaf(SetAll(leaf.endpoints, r), if r.subroutes.Some? then r.subroutes else leaf.subroutes)
  }

  /** The handler a search may return for `m`, if there is one. */
  predicate Serves(eps: EndpointMap, m: Method) {
    m in eps && eps[m].handler.Some?
  }
}
