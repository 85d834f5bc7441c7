/**
 The router class: registration, mounting, matching and dispatch on the heap, proved
 against the steps of module MuxSteps and the functions of module Site.
 */
module Muxes {
  import opened Wrappers
  import opened Pattern
  import opened Endpoints
  import opened Context
  import opened Trie
  import opened TrieContents
  import opened TrieSearch
  import opened SearchReport
  import opened Middleware
  import opened Runs
  import opened MuxSteps
  import opened Site
  import opened TrieNode

  /** The nodes of one trie and all registrations made on it, shared by the routers that share the trie. */
  class Registry {
    ghost var nodes: set<Node>
    ghost var log: seq<Route>

    constructor ()
      ensures nodes == {} && log == []
    {
      nodes, log := {}, [];
    }
  }

  class Mux {
    const id: nat
    const tree: Node
    const isInline: bool
    const parent: Mux?
    ghost const registry: Registry

    /** The middleware chain around the router's dispatcher; null until routes may be registered. */
    var handler: Option<Handler>
    var middlewares: seq<nat>

    ghost predicate Valid()
      reads this, registry, registry.nodes
    {
      Standing({})
    }

    /** The trie stands for the registrations; nodes of `X` may still have something to be stored. */
    ghost predicate Standing(X: set<Node>)
      reads this, registry, registry.nodes
    {
      && tree in registry.nodes && tree.parent == null && tree.typ == Static
      && tree.model == Build(registry.log) && AllOk(registry.nodes, X)
    }

    ghost function State(): MuxState
      reads this
    {
      MuxState(id, isInline, middlewares, handler)
    }

    constructor (id: nat)
      ensures State() == NewMux(id) && parent == null && Valid()
      ensures fresh(registry) && registry.log == [] && fresh(registry.nodes)
    {
      this.id, isInline, parent := id, false, null;
      handler, middlewares := None, [];
      var root := new Node();
      var r := new Registry();
      tree, registry := root, r;
      new;
      registry.nodes := {root};
      assert root.LocalOk(registry.nodes);
    }

    /** An inline router: it shares the trie of the router it is made from. */
    constructor Inline(id: nat, from: Mux, middlewares: seq<nat>)
      requires from.Valid()
      ensures State() == MuxState(id, true, middlewares, None) && parent == from
      ensures tree == from.tree && registry == from.registry && Valid()
    {
      this.id, isInline, parent := id, true, from;
      handler, this.middlewares := None, middlewares;
      tree, registry := from.tree, from.registry;
    }

    /** Adds middlewares at the end of the stack; throws once the handler is set. */
    method Use(mws: seq<nat>) returns (ok: bool)
      modifies this`middlewares
      ensures match MuxSteps.Use(old(State()), mws)
              case None => !ok && State() == old(State())
              case Some(m) => ok && State() == m
    {
      if handler.Some? {
        return false;
      }
      middlewares := middlewares + mws;
      return true;
    }

    method UpdateRouteHandler()
      modifies this`handler
      ensures State() == WithHandler(old(State()))
    {
      handler := ChainHelper(middlewares, Some(Serve(id)));
    }

    /** A new inline router; from now on this router's own stack is frozen. */
    method With(newId: nat, additional: seq<nat>) returns (im: Mux)
      requires Valid()
      modifies this`handler
      ensures State() == Frozen(old(State())) && Valid()
      ensures fresh(im) && im.State() == MuxSteps.Inline(old(State()), newId, additional) && im.parent == this
      ensures im.tree == tree && im.registry == registry && im.Valid()
    {
      if !isInline && handler == None {
        UpdateRouteHandler();
      }
      var mws := [];
      if isInline {
        mws := mws + middlewares;
      }
      mws := mws + additional;
      im := new Mux.Inline(newId, this, mws);
    }

    /** Registers a handler, inside this router's stack if it is inline; null is a throw. */
    method HandleImpl(verb: Method, pattern: string, h: Option<Handler>, ghost promise: Option<nat>) returns (r: Node?)
      requires Valid()
      modifies this`handler, registry, registry.nodes
      ensures r != null <==> Rooted(pattern) && Accepted(pattern)
      ensures !Rooted(pattern) ==> State() == old(State()) && registry.log == old(registry.log) && registry.nodes == old(registry.nodes)
      ensures Rooted(pattern) ==> State() == Handling(old(State()))
      ensures Rooted(pattern) ==>
                registry.log == old(registry.log) + [Route(verb, pattern, Wrapped(old(State()), h), promise)]
      ensures old(registry.nodes) <= registry.nodes && fresh(registry.nodes - old(registry.nodes))
      ensures r == null || promise == None ==> Valid()
      ensures r != null ==> r in registry.nodes && Standing({r}) && r.Stored(Route(verb, pattern, Wrapped(old(State()), h), promise), registry.nodes)
    {
      hide Insert;
      hide Build;
      hide Good;
      hide Accepted;
      hide AllOk;
      hide Node.Stored;
      if pattern == "" || pattern[0] != '/' {
        return null;
      }
      if !isInline && handler == None {
        UpdateRouteHandler();
      }
      var chainedHandler := h;
      if isInline {
        handler := Some(Serve(id));
        var chained := MakeHandler(middlewares, h);
        chainedHandler := Some(chained);
      }
      ghost var route := Route(verb, pattern, chainedHandler, promise);
      Registering(registry.log, route);
      ghost var nodes;
      r, nodes := tree.InsertRoute(verb, pattern, chainedHandler, promise, registry.nodes);
      registry.nodes := nodes;
      registry.log := registry.log + [route];
      if r != null {
        r.StoredHere(route, nodes);
        if promise == None { r.Complete(route, nodes); }
      }
    }

    /** This is router `i` of that family. */
    ghost predicate Plays(f: Family, i: nat)
      reads this, registry
    {
      i < |f.muxes| && f.muxes[i] == State() && Log(f.entries) == registry.log
    }

    /** handle_impl as a step of the family. */
    method Register(verb: Method, pattern: string, h: Option<Handler>, ghost sub: Option<nat>, ghost f: Family, ghost i: nat)
      returns (r: Node?)
      requires Valid() && Plays(f, i)
      modifies this`handler, registry, registry.nodes
      ensures old(registry.nodes) <= registry.nodes && fresh(registry.nodes - old(registry.nodes))
      ensures Plays(Handle(f, i, verb, pattern, h, sub).family, i)
      ensures r != null <==> Handle(f, i, verb, pattern, h, sub).ok
      ensures r == null || sub == None ==> Valid()
      ensures r != null ==> r in registry.nodes && Standing({r}) && r.Stored(Route(verb, pattern, Wrapped(f.muxes[i], h), sub), registry.nodes)
    {
      hide Build;
      hide Accepted;
      hide AllOk;
      hide Node.Stored;
      hide Wrapped;
      hide Handling;
      r := HandleImpl(verb, pattern, h, sub);
    }

    /** Is something mounted there already? */
    method Occupied(pattern: string, ghost f: Family, ghost i: nat) returns (taken: bool)
      requires Valid() && Plays(f, i)
      ensures taken == Taken(Log(f.entries), pattern)
    {
      hide Build;
      hide AllOk;
      hide Good;
      hide TrieLookup.FindPattern;
      TrieIsTable(registry.log, []);
      taken := tree.FindPattern(pattern + "*", registry.nodes);
      if !taken {
        taken := tree.FindPattern(pattern + "/*", registry.nodes);
      }
    }

    /** Records the mounted router at the node of its wildcard. */
    method Record(n: Node, router: nat, ghost route: Endpoints.Route)
      requires n in registry.nodes && Standing({n}) && n.Stored(route, registry.nodes) && route.subroutes == Some(router)
      modifies n`subroutes
      ensures Valid()
    {
      hide Build;
      hide AllOk;
      hide Node.Stored;
      n.SetSubroutes(router, route, registry.nodes);
    }

    /** Mounts a router under the pattern and everything below it; throws on a path that is taken, or is not a pattern. */
    method Mount(pattern: string, sub: Option<nat>, ghost f: Family, ghost i: nat) returns (ok: bool)
      requires Valid() && Plays(f, i)
      modifies this`handler, registry, registry.nodes
      ensures Valid() && old(registry.nodes) <= registry.nodes && fresh(registry.nodes - old(registry.nodes))
      ensures sub == None ==> !ok && Plays(f, i)
      ensures sub.Some? ==> ok == MuxSteps.Mount(f, i, pattern, sub.value).ok
      ensures sub.Some? ==> Plays(MuxSteps.Mount(f, i, pattern, sub.value).family, i)
    {
      hide Handle;
      hide HandleAll;
      hide Valid;
      hide Standing;
      hide Node.Stored;
      hide Taken;
      hide Wrapped;
      if sub == None {
        return false;
      }
      var taken := Occupied(pattern, f, i);
      if taken {
        return false;
      }
      var mountHandler := Some(Mounted(sub.value));
      var newPattern := pattern;
      ghost var patterns, g, k := Mounts(pattern), f, 0;
      if newPattern == "" || newPattern[|newPattern| - 1] != '/' {
        HandleAllStep(g, i, patterns, 0, sub.value);
        var r := Register(MOUNTED, newPattern, mountHandler, None, g, i);
        if r == null {
          return false;
        }
        g := Handle(g, i, MOUNTED, newPattern, mountHandler, None).family;
        HandleAllStep(g, i, patterns, 1, sub.value);
        r := Register(MOUNTED, newPattern + "/", mountHandler, None, g, i);
        if r == null {
          return false;
        }
        g := Handle(g, i, MOUNTED, newPattern + "/", mountHandler, None).family;
        newPattern := newPattern + "/";
        k := 2;
        assert pattern + "/" + "*" == pattern + "/*";
      }
      HandleAllStep(g, i, patterns, k, sub.value);
      ghost var m := g.muxes[i];
      var n := Register(MOUNTED, newPattern + "*", mountHandler, sub, g, i);
      if n == null {
        return false;
      }
      g := Handle(g, i, MOUNTED, newPattern + "*", mountHandler, sub).family;
      HandleAllStep(g, i, patterns, |patterns|, sub.value);
      Record(n, sub.value, Route(MOUNTED, newPattern + "*", Wrapped(m, mountHandler), sub));
      return true;
    }

    /** The handler of a mount, up to the call of the mounted router. */
    method EnterMount(rctx: RoutingContext)
      modifies rctx`routePath, rctx`urlParams
      ensures rctx.routePath == NextRoutePath(rctx.routeParams)
      ensures rctx.urlParams == ResetWildcard(old(rctx.urlParams))
    {
      rctx.routePath := NextRoutePath(rctx.routeParams);
      var n := |rctx.urlParams.keys| - 1;
      if n >= 0 && rctx.urlParams.keys[n] == "*" && |rctx.urlParams.values| > n {
        rctx.urlParams := rctx.urlParams.(values := rctx.urlParams.values[n := ""]);
      }
    }

    /** find_route on this router's trie. */
    method FindRoute(rctx: RoutingContext, verb: Method, path: string, rx: Matcher, ghost r: Router)
      returns (node: Node?, h: Option<Handler>)
      requires Valid() && r.log == registry.log && IsValid(verb) && forall route <- r.log :: Below(route, id)
      modifies rctx`routePattern, rctx`routeParams, rctx`urlParams, rctx`routePatterns, rctx`methodNotAllowed
      ensures match Search(r, verb, path, rx)
              case None =>
                && node == null && h == None
                && rctx.urlParams == old(rctx.urlParams) && rctx.routePatterns == old(rctx.routePatterns)
              case Some(f) =>
                && node != null && node.subroutes == f.leaf.subroutes && h == f.endpoint.handler && h.Some?
                && rctx.routeParams == f.params && rctx.urlParams == old(rctx.urlParams).Plus(f.params)
                && rctx.routePattern == f.endpoint.pattern
                && rctx.routePatterns == old(rctx.routePatterns) + (if f.endpoint.pattern == "" then [] else [f.endpoint.pattern])
                && (f.leaf.subroutes.Some? ==> f.leaf.subroutes.value < id)
                && (Core(h).Some? && Core(h).value.Mounted? ==> Core(h).value.router < id)
    {
      hide Hits;
      hide Build;
      hide Reports;
      hide Good;
      hide Core;
      hide Below;
      hide Search;
      TrieIsTable(r.log, []);
      ghost var hint := rctx.methodNotAllowed;
      node, h := tree.FindRoute(rctx, verb, path, rx, registry.nodes);
      Reported(r, verb, path, rx, hint, LeafOf(node), MarksOf(rctx));
      FoundBelow(r, id, verb, path, rx);
      if node != null { node.OwnLeaf(registry.nodes); }
    }

    /** The dispatcher at the end of the middleware chain. */
    method RouteHttp(rctx: RoutingContext, verb: Method, urlPath: string, rx: Matcher, site: seq<Mux>, ghost routers: seq<Router>)
      returns (a: Answer)
      requires Stand(site, routers) && id < |site| && site[id] == this && handler.Some?
      modifies rctx
      ensures a == Answered(routers, id, old(Asked(rctx, verb, urlPath)), rx)
      ensures rctx.routeMethod == old(Asked(rctx, verb, urlPath)).verb
      ensures IsValid(rctx.routeMethod) ==>
                && rctx.urlParams == Bound(routers, id, old(Asked(rctx, verb, urlPath)), rx)
                && rctx.routePatterns == old(rctx.routePatterns) + Passed(routers, id, old(Asked(rctx, verb, urlPath)), rx)
      decreases id, 0
    {
      hide *;
      ghost var q := Asked(rctx, verb, urlPath);
      AskedNow(rctx, verb, urlPath);
      StandsHere(site, routers, id);
      AnsweredStep(routers, id, q, rx);
      var routePath := rctx.routePath;
      if routePath == "" {
        routePath := urlPath;
        if routePath == "" {
          routePath := "/";
        }
      }
      if rctx.routeMethod == UNKNOWN {
        rctx.routeMethod := verb;
      }
      if !IsValid(rctx.routeMethod) {
        return NotFound;
      }
      var node, h := FindRoute(rctx, rctx.routeMethod, routePath, rx, routers[id]);
      if h == None {
        return NotFound;
      }
      match Core(h) {
        case None => return Silent;
        case Some(Mounted(s)) =>
          EnterMount(rctx);
          AskedNow(rctx, verb, urlPath);
          StandsHere(site, routers, s);
          a := site[s].HandleRequest(rctx, verb, urlPath, rx, site, routers);
        case Some(other) => return Served(other);
      }
    }

    /** Answers a request, with middlewares that only call on. */
    method HandleRequest(rctx: RoutingContext, verb: Method, urlPath: string, rx: Matcher, site: seq<Mux>, ghost routers: seq<Router>)
      returns (a: Answer)
      requires Stand(site, routers) && id < |site| && site[id] == this
      modifies rctx
      ensures a == Answered(routers, id, old(Asked(rctx, verb, urlPath)), rx)
      ensures handler == None ==> unchanged(rctx)
      ensures handler.Some? ==> rctx.routeMethod == old(Asked(rctx, verb, urlPath)).verb
      ensures IsValid(old(Asked(rctx, verb, urlPath)).verb) ==>
                && rctx.urlParams == Bound(routers, id, old(Asked(rctx, verb, urlPath)), rx)
                && rctx.routePatterns == old(rctx.routePatterns) + Passed(routers, id, old(Asked(rctx, verb, urlPath)), rx)
      decreases id, 1
    {
      if handler == None {
        return NotFound;
      }
      CoreOfHandler(State());
      assert Core(handler) == Some(Serve(id));
      a := RouteHttp(rctx, verb, urlPath, rx, site, routers);
    }

    /** Would this router, or one mounted below it, serve the path? A method that does not parse is None. */
    method Match(rctx: RoutingContext, verb: Option<Method>, path: string, rx: Matcher, site: seq<Mux>, ghost routers: seq<Router>)
      returns (b: bool)
      requires Stand(site, routers) && id < |site| && site[id] == this && (verb.Some? ==> IsValid(verb.value))
      modifies rctx
      ensures b == (verb.Some? && Site.Match(routers, id, verb.value, path, rx))
      ensures NotesOf(rctx) == if verb == None then old(NotesOf(rctx)) else Noted(routers, id, verb.value, path, rx, old(NotesOf(rctx)))
      decreases id
    {
      hide Search;
      hide Valid;
      hide Below;
      if verb == None {
        return false;
      }
      var node, h := FindRoute(rctx, verb.value, path, rx, routers[id]);
      if node != null && node.subroutes.Some? {
        rctx.routePath := NextRoutePath(rctx.routeParams);
        b := site[node.subroutes.value].Match(rctx, verb, rctx.routePath, rx, site, routers);
        return;
      }
      return h != None;
    }
  }

  /** What a request asks of a router: a method, a path, and the URL parameters collected so far. */
  datatype Question = Question(verb: Method, path: string, params: RouteParams)

  ghost function Asked(rctx: RoutingContext, verb: Method, urlPath: string): Question
    reads rctx
  {
    Question(if rctx.routeMethod == UNKNOWN then verb else rctx.routeMethod,
             if rctx.routePath != "" then rctx.routePath else if urlPath != "" then urlPath else "/",
             rctx.urlParams)
  }

  ghost function NotesOf(rctx: RoutingContext): Notes
    reads rctx
  {
    Notes(rctx.routePath, rctx.urlParams, rctx.routePatterns)
  }

  lemma AskedNow(rctx: RoutingContext, verb: Method, urlPath: string)
    ensures Asked(rctx, verb, urlPath)
         == Question(if rctx.routeMethod == UNKNOWN then verb else rctx.routeMethod,
                     if rctx.routePath != "" then rctx.routePath else if urlPath != "" then urlPath else "/",
                     rctx.urlParams)
    ensures !IsValid(UNKNOWN)
  {
  }

  ghost function Answered(routers: seq<Router>, id: nat, q: Question, rx: Matcher): Answer
    requires id < |routers|
  {
    if IsValid(q.verb) then Dispatch(routers, id, q.verb, q.path, rx) else NotFound
  }

  ghost function Bound(routers: seq<Router>, id: nat, q: Question, rx: Matcher): RouteParams
    requires id < |routers|
  {
    Gather(routers, id, q.verb, q.path, q.params, rx)
  }

  /** The routers of a site, as objects and as values: their handlers are their chains, and what a router mounts has a smaller number. */
  ghost predicate Stand(site: seq<Mux>, routers: seq<Router>)
    reads site, set m | m in site :: m.registry, set m, n | m in site && n in m.registry.nodes :: n
  {
    && |routers| == |site|
    && forall i :: 0 <= i < |site| ==>
                     && site[i].id == i && site[i].Valid() && HandlerOk(site[i].State())
                     && routers[i] == Router(site[i].registry.log, site[i].handler.Some?)
                     && forall r <- routers[i].log :: Below(r, i)
  }

  ghost function Passed(routers: seq<Router>, id: nat, q: Question, rx: Matcher): seq<string>
    requires id < |routers|
  {
    Trail(routers, id, q.verb, q.path, rx)
  }

  lemma CoreOfHandler(m: MuxState)
    requires HandlerOk(m) && m.handler.Some?
    ensures Core(m.handler) == Some(Serve(m.id))
  {
    ChainLayers(m.middlewares, Some(Serve(m.id)));
  }

  lemma StandsHere(site: seq<Mux>, routers: seq<Router>, id: nat)
    requires Stand(site, routers)
    ensures |routers| == |site|
    ensures id < |site| ==>
              && site[id].id == id && site[id].Valid() && routers[id] == Router(site[id].registry.log, site[id].handler.Some?)
              && forall r <- routers[id].log :: Below(r, id)
  {
  }

  /** One router's share of an answer. */
  lemma AnsweredStep(routers: seq<Router>, id: nat, q: Question, rx: Matcher)
    requires id < |routers| && routers[id].routed
    ensures !IsValid(q.verb) ==> Answered(routers, id, q, rx) == NotFound
    ensures IsValid(q.verb) ==>
              match Search(routers[id], q.verb, q.path, rx)
              case None => Answered(routers, id, q, rx) == NotFound && Bound(routers, id, q, rx) == q.params && Passed(routers, id, q, rx) == []
              case Some(f) =>
                var params := q.params.Plus(f.params);
                var here := if f.endpoint.pattern == "" then [] else [f.endpoint.pattern];
                match Core(f.endpoint.handler)
                case None => Answered(routers, id, q, rx) == Silent && Bound(routers, id, q, rx) == params && Passed(routers, id, q, rx) == here
                case Some(Mounted(s)) =>
                  var next := Question(q.verb, NextRoutePath(f.params), ResetWildcard(params));
                  s < id ==> Answered(routers, id, q, rx) == Answered(routers, s, next, rx)
                             && Bound(routers, id, q, rx) == Bound(routers, s, next, rx)
                             && Passed(routers, id, q, rx) == here + Passed(routers, s, next, rx)
                case Some(h) =>
                  && Answered(routers, id, q, rx) == Served(h) && Bound(routers, id, q, rx) == params
                  && Passed(routers, id, q, rx) == here
  {
    hide Search;
  }

  lemma Registering(log: seq<Route>, route: Route)
    ensures Good(Build(log))
    ensures Insert(Build(log), route.pattern, route).ok == Accepted(route.pattern)
    ensures Insert(Build(log), route.pattern, route).tree == Build(log + [route])
  {
    TrieIsTable(log, []);
    InsertRefines(Build(log), route.pattern, route, []);
    BuildNext(log, route);
  }

  lemma BuildNext(log: seq<Route>, route: Route)
    ensures Build(log + [route]) == Insert(Build(log), route.pattern, route).tree
  {
    hide Insert;
    assert (log + [route])[..|log|] == log;
  }
}
