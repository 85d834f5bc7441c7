/**
 A router and the inline routers made from it, as values: they share one trie, each has
 its own middleware stack, and each stack is frozen by the first registration. Here are
 the steps they take and what holds over every run of them.
 */
module MuxSteps {
  import opened Wrappers
  import opened Pattern
  import opened Endpoints
  import opened Middleware
  import opened TrieSearch
  import opened TrieLookup
  import opened Runs

  /** The fields of one router; a handler is there once routes may be registered. */
  datatype MuxState = MuxState(id: nat, isInline: bool, middlewares: seq<nat>, handler: Option<Handler>)

  function NewMux(id: nat): MuxState {
    MuxState(id, false, [], None)
  }

  /** The middlewares around the router's own dispatcher. */
  function WithHandler(m: MuxState): MuxState {
    m.(handler := Chain(m.middlewares, Some(Serve(m.id))))
  }

  /** None is a throw: the stack is frozen. */
  function Use(m: MuxState, mws: seq<nat>): Option<MuxState> {
    if m.handler.Some? then None else Some(m.(middlewares := m.middlewares + mws))
  }

  /** The router's state once an inline router has been made from it. */
  function Frozen(m: MuxState): MuxState {
    if !m.isInline && m.handler.None? then WithHandler(m) else m
  }

  /** An inline router starts with the stack of the inline router it is made from, and the additions. */
  function Inline(m: MuxState, id: nat, mws: seq<nat>): MuxState {
    MuxState(id, true, (if m.isInline then m.middlewares else []) + mws, None)
  }

  /** The router's state once a route has been registered through it. */
  function Handling(m: MuxState): MuxState {
    if m.isInline then m.(handler := Some(Serve(m.id))) else Frozen(m)
  }

  /** What is stored for a handler registered through the router. */
  function Wrapped(m: MuxState, h: Option<Handler>): Option<Handler> {
    if m.isInline then Some(Chained(Chain(m.middlewares, h), h, m.middlewares)) else h
  }

  /** What a router's handler has to be. */
  predicate HandlerOk(m: MuxState) {
    m.handler.Some? ==>
      m.handler == if m.isInline then Some(Serve(m.id)) else Chain(m.middlewares, Some(Serve(m.id)))
  }

  predicate Rooted(pattern: string) {
    pattern != "" && pattern[0] == '/'
  }

  // ------------------------------------------------------------------ families

  /** A registration, the router it was made through, and the handler it was made with. */
  datatype Entry = Entry(via: nat, inner: Option<Handler>, route: Route)

  /** A router, first in the list, the inline routers made from it or from each other, and their registrations. */
  datatype Family = Family(muxes: seq<MuxState>, entries: seq<Entry>)

  function Log(entries: seq<Entry>): (r: seq<Route>)
    ensures |r| == |entries| && forall i :: 0 <= i < |r| ==> r[i] == entries[i].route
  {
    seq(|entries|, i requires 0 <= i < |entries| => entries[i].route)
  }

  /** A family and whether the call returned; what a call has done before it throws stays done. */
  datatype Result = Result(family: Family, ok: bool)

  datatype Op =
    | UseOp(mws: seq<nat>)
    | WithOp(id: nat, mws: seq<nat>)
    | HandleOp(verb: Method, pattern: string, handler: Option<Handler>)
    | MountOp(pattern: string, sub: nat)

  /** handle_impl, with the router that a mount is about to record. */
  ghost function Handle(f: Family, i: nat, verb: Method, pattern: string, h: Option<Handler>, sub: Option<nat>): (r: Result)
    requires i < |f.muxes|
    ensures |r.family.muxes| == |f.muxes|
  {
    if !Rooted(pattern) then Result(f, false)
    else
      var m := f.muxes[i];
      Result(Family(f.muxes[i := Handling(m)], f.entries + [Entry(i, h, Route(verb, pattern, Wrapped(m, h), sub))]),
             Accepted(pattern))
  }

  /** Is something already mounted there? */
  ghost predicate Taken(log: seq<Route>, pattern: string) {
    FindPattern(Build(log), pattern + "*") || FindPattern(Build(log), pattern + "/*")
  }

  /** What mount registers, in turn: the path itself and the path with a slash, if it does not end in one, and the wildcard. */
  function Mounts(pattern: string): (r: seq<string>)
    ensures r != []
  {
    if pattern == "" || pattern[|pattern| - 1] != '/' then [pattern, pattern + "/", pattern + "/*"] else [pattern + "*"]
  }

  /** Registers the patterns from index `n` on, stopping at the first that throws; the last one records the router. */
  ghost function HandleAll(f: Family, i: nat, patterns: seq<string>, n: nat, sub: nat): (r: Result)
    requires i < |f.muxes| && n <= |patterns|
    ensures |r.family.muxes| == |f.muxes|
    decreases |patterns| - n
  {
    if n == |patterns| then Result(f, true)
    else
      var r := Handle(f, i, MOUNTED, patterns[n], Some(Mounted(sub)), if n == |patterns| - 1 then Some(sub) else None);
      if r.ok then HandleAll(r.family, i, patterns, n + 1, sub) else r
  }

  /** One unfolding. */
  lemma HandleAllStep(f: Family, i: nat, patterns: seq<string>, n: nat, sub: nat)
    requires i < |f.muxes|
    ensures n < |patterns| ==>
              var r := Handle(f, i, MOUNTED, patterns[n], Some(Mounted(sub)), if n == |patterns| - 1 then Some(sub) else None);
              HandleAll(f, i, patterns, n, sub) == if r.ok then HandleAll(r.family, i, patterns, n + 1, sub) else r
    ensures n == |patterns| ==> HandleAll(f, i, patterns, n, sub) == Result(f, true)
  {
    hide Handle;
  }

  ghost function Mount(f: Family, i: nat, pattern: string, sub: nat): (r: Result)
    requires i < |f.muxes|
    ensures |r.family.muxes| == |f.muxes|
  {
    if Taken(Log(f.entries), pattern) then Result(f, false) else HandleAll(f, i, Mounts(pattern), 0, sub)
  }

  /** One call on router `i`; a call on a router that is not there does nothing. */
  ghost function Step(f: Family, i: nat, op: Op): Result {
    if i >= |f.muxes| then Result(f, false)
    else
      match op
      case UseOp(mws) =>
        (match Use(f.muxes[i], mws)
         case None => Result(f, false)
         case Some(m) => Result(f.(muxes := f.muxes[i := m]), true))
      case WithOp(id, mws) => Result(f.(muxes := f.muxes[i := Frozen(f.muxes[i])] + [Inline(f.muxes[i], id, mws)]), true)
      case HandleOp(verb, pattern, h) => Handle(f, i, verb, pattern, h, None)
      case MountOp(pattern, sub) => Mount(f, i, pattern, sub)
  }

  ghost function Run(f: Family, calls: seq<(nat, Op)>): Family
    decreases |calls|
  {
    if calls == [] then f else Run(Step(f, calls[0].0, calls[0].1).family, calls[1..])
  }

  function Start(id: nat): Family {
    Family([NewMux(id)], [])
  }

  // ----------------------------------------------------------------- invariant

  /**
   Registered through an existing router whose stack is frozen, under a pattern that begins
   with `/`, and wrapped in exactly that stack; where a router is recorded, the handler enters
   that router, for every method.
   */
  predicate EntryOk(muxes: seq<MuxState>, e: Entry) {
    && e.via < |muxes| && muxes[e.via].handler.Some?
    && e.route.pattern != "" && e.route.pattern[0] == '/' && e.route.handler == Wrapped(muxes[e.via], e.inner)
    && (e.route.subroutes.Some? ==> Enters(e.route.verb, e.inner, e.route.subroutes.value))
  }

  predicate Enters(verb: Method, h: Option<Handler>, sub: nat) {
    verb == MOUNTED && h == Some(Mounted(sub))
  }

  predicate FamilyOk(f: Family) {
    && f.muxes != [] && !f.muxes[0].isInline
    && (forall i :: 0 < i < |f.muxes| ==> f.muxes[i].isInline)
    && (|f.muxes| > 1 || f.entries != [] ==> f.muxes[0].handler.Some?)
    && (forall m <- f.muxes :: HandlerOk(m))
    && (forall e <- f.entries :: EntryOk(f.muxes, e))
  }

  /** `g` is a later state of `f`: frozen routers have not changed at all, registrations have only been added. */
  predicate Later(f: Family, g: Family) {
    && |f.muxes| <= |g.muxes|
    && (forall i :: 0 <= i < |f.muxes| ==>
                      && g.muxes[i].id == f.muxes[i].id && g.muxes[i].isInline == f.muxes[i].isInline
                      && f.muxes[i].middlewares <= g.muxes[i].middlewares
                      && (f.muxes[i].handler.Some? ==> g.muxes[i] == f.muxes[i]))
    && f.entries <= g.entries
  }

  lemma LaterTwice(f: Family, g: Family, h: Family)
    requires Later(f, g) && Later(g, h)
    ensures Later(f, h)
  {
  }

  lemma OldEntries(f: Family, muxes: seq<MuxState>)
    requires FamilyOk(f) && Later(f, Family(muxes, f.entries))
    ensures forall e <- f.entries :: EntryOk(muxes, e)
  {
    forall e | e in f.entries
      ensures EntryOk(muxes, e)
    {
      assert EntryOk(f.muxes, e) && muxes[e.via] == f.muxes[e.via];
    }
  }

  /** One router has changed, and no registration was made. */
  lemma MuxChanged(f: Family, i: nat, m: MuxState)
    requires FamilyOk(f) && i < |f.muxes| && HandlerOk(m)
    requires m.id == f.muxes[i].id && m.isInline == f.muxes[i].isInline && f.muxes[i].middlewares <= m.middlewares
    requires f.muxes[i].handler.Some? ==> m == f.muxes[i]
    ensures FamilyOk(f.(muxes := f.muxes[i := m])) && Later(f, f.(muxes := f.muxes[i := m]))
  {
    OldEntries(f, f.muxes[i := m]);
  }

  lemma HandleOk(f: Family, i: nat, verb: Method, pattern: string, h: Option<Handler>, sub: Option<nat>)
    requires FamilyOk(f) && i < |f.muxes| && (sub.Some? ==> Enters(verb, h, sub.value))
    ensures var r := Handle(f, i, verb, pattern, h, sub);
            && FamilyOk(r.family) && Later(f, r.family) && i < |r.family.muxes|
            && (r.ok ==> Rooted(pattern) && HasPattern(r.family, pattern))
  {
    var m := f.muxes[i];
    assert HandlerOk(m);
    assert Chain(m.middlewares, Some(Serve(m.id))).Some?;
    MuxChanged(f, i, Handling(m));
    var g := Handle(f, i, verb, pattern, h, sub).family;
    if Rooted(pattern) {
      assert g.entries[|f.entries|] in g.entries;
    }
  }

  predicate HasPattern(f: Family, pattern: string) {
    exists e <- f.entries :: e.route.pattern == pattern
  }

  lemma StillHas(f: Family, g: Family, pattern: string)
    requires Later(f, g) && HasPattern(f, pattern)
    ensures HasPattern(g, pattern)
  {
    var e :| e in f.entries && e.route.pattern == pattern;
    assert e in g.entries;
  }

  lemma {:induction false} HandleAllOk(f: Family, i: nat, patterns: seq<string>, n: nat, sub: nat)
    requires FamilyOk(f) && i < |f.muxes| && n <= |patterns|
    ensures var r := HandleAll(f, i, patterns, n, sub);
            && FamilyOk(r.family) && Later(f, r.family)
            && (r.ok && n < |patterns| ==> HasPattern(r.family, patterns[|patterns| - 1]))
    decreases |patterns| - n
  {
    hide Handle;
    hide FamilyOk;
    hide HasPattern;
    if n < |patterns| {
      var last := if n == |patterns| - 1 then Some(sub) else None;
      HandleOk(f, i, MOUNTED, patterns[n], Some(Mounted(sub)), last);
      var r := Handle(f, i, MOUNTED, patterns[n], Some(Mounted(sub)), last);
      if r.ok {
        HandleAllOk(r.family, i, patterns, n + 1, sub);
        LaterTwice(f, r.family, HandleAll(r.family, i, patterns, n + 1, sub).family);
      }
    }
  }

  lemma UseOk(f: Family, i: nat, mws: seq<nat>)
    requires FamilyOk(f) && i < |f.muxes|
    ensures var g := Step(f, i, UseOp(mws)).family; FamilyOk(g) && Later(f, g)
  {
    if f.muxes[i].handler.None? {
      MuxChanged(f, i, Use(f.muxes[i], mws).value);
    }
  }

  lemma WithOk(f: Family, i: nat, id: nat, mws: seq<nat>)
    requires FamilyOk(f) && i < |f.muxes|
    ensures var g := Step(f, i, WithOp(id, mws)).family; FamilyOk(g) && Later(f, g)
  {
    assert HandlerOk(f.muxes[i]);
    MuxChanged(f, i, Frozen(f.muxes[i]));
    OldEntries(f, f.muxes[i := Frozen(f.muxes[i])] + [Inline(f.muxes[i], id, mws)]);
  }

  lemma StepOk(f: Family, i: nat, op: Op)
    requires FamilyOk(f)
    ensures FamilyOk(Step(f, i, op).family) && Later(f, Step(f, i, op).family)
  {
    hide FamilyOk;
    hide Handle;
    hide HandleAll;
    if i < |f.muxes| {
      match op {
        case UseOp(mws) => UseOk(f, i, mws);
        case WithOp(id, mws) => WithOk(f, i, id, mws);
        case HandleOp(verb, pattern, h) => HandleOk(f, i, verb, pattern, h, None);
        case MountOp(pattern, sub) => HandleAllOk(f, i, Mounts(pattern), 0, sub);
      }
    }
  }

  /**
   Over any run from any point of any run: a router whose handler is set never changes
   again, its middleware stack included, and nothing registered is lost.
   */
  lemma {:induction false} FrozenForever(f: Family, calls: seq<(nat, Op)>)
    requires FamilyOk(f)
    ensures FamilyOk(Run(f, calls)) && Later(f, Run(f, calls))
    decreases |calls|
  {
    if calls != [] {
      var next := Step(f, calls[0].0, calls[0].1).family;
      StepOk(f, calls[0].0, calls[0].1);
      FrozenForever(next, calls[1..]);
      LaterTwice(f, next, Run(next, calls[1..]));
    }
  }

  // --------------------------------------------------------- over every run

  lemma RunOk(id: nat, calls: seq<(nat, Op)>)
    ensures FamilyOk(Run(Start(id), calls))
  {
    FrozenForever(Start(id), calls);
  }

  /**
   At every point of every run, the first router's handler, once set, takes a request through
   all of its present middlewares, in order, and then to its own dispatcher.
   */
  lemma HandlerIsChain(id: nat, calls: seq<(nat, Op)>)
    ensures var f := Run(Start(id), calls);
            && f.muxes != [] && (f.muxes[0].handler.Some? ==>
                 Layers(f.muxes[0].handler) == f.muxes[0].middlewares && Core(f.muxes[0].handler) == Some(Serve(id)))
  {
    var f := Run(Start(id), calls);
    FrozenForever(Start(id), calls);
    var m := f.muxes[0];
    assert HandlerOk(m);
    ChainLayers(m.middlewares, Some(Serve(m.id)));
    assert m.middlewares + [] == m.middlewares;
  }

  /** The middlewares of the inline router that a registration was made through. */
  function InlineStack(m: MuxState): seq<nat> {
    if m.isInline then m.middlewares else []
  }

  lemma WrappedLayers(m: MuxState, h: Option<Handler>)
    ensures Layers(Wrapped(m, h)) == InlineStack(m) + Layers(h) && Core(Wrapped(m, h)) == Core(h)
  {
    ChainLayers(m.middlewares, h);
    assert [] + Layers(h) == Layers(h);
  }

  /** What a request to a registration passes through: the first router's stack, then the inline one, then the handler's own. */
  lemma EntryLayers(f: Family, e: Entry)
    requires FamilyOk(f) && e in f.entries
    ensures f.muxes != [] && f.muxes[0].handler.Some? && e.via < |f.muxes|
    ensures Core(e.route.handler) == Core(e.inner)
    ensures Layers(f.muxes[0].handler) + Layers(e.route.handler)
         == f.muxes[0].middlewares + InlineStack(f.muxes[e.via]) + Layers(e.inner)
  {
    hide Wrapped;
    hide Core;
    hide Layers;
    hide InlineStack;
    assert EntryOk(f.muxes, e) && HandlerOk(f.muxes[0]);
    ChainLayers(f.muxes[0].middlewares, Some(Serve(f.muxes[0].id)));
    DispatcherLayers(f.muxes[0]);
    WrappedLayers(f.muxes[e.via], e.inner);
    var a, b, c := f.muxes[0].middlewares, InlineStack(f.muxes[e.via]), Layers(e.inner);
    assert a + (b + c) == a + b + c;
  }

  lemma DispatcherLayers(m: MuxState)
    ensures m.middlewares + Layers(Some(Serve(m.id))) == m.middlewares
  {
  }

  /** use succeeds exactly before the handler is set, adds its middlewares behind the others, and touches nothing else. */
  lemma UseExact(f: Family, i: nat, mws: seq<nat>)
    requires i < |f.muxes|
    ensures var r := Step(f, i, UseOp(mws));
            && (r.ok <==> f.muxes[i].handler == None) && (!r.ok ==> r.family == f)
            && |r.family.muxes| == |f.muxes| && r.family.entries == f.entries
            && (forall j :: 0 <= j < |f.muxes| && j != i ==> r.family.muxes[j] == f.muxes[j])
            && (r.ok ==> r.family.muxes[i].middlewares == f.muxes[i].middlewares + mws && r.family.muxes[i].handler == None)
  {
  }

  /**
   A handler registered through a new inline router is reached through the first router's
   stack, then the stack of the router that the inline one was made from, if that is inline
   too, then the additions, then the handler's own middlewares.
   */
  lemma ThroughInline(f: Family, i: nat, id: nat, mws: seq<nat>, verb: Method, pattern: string, h: Option<Handler>)
    requires FamilyOk(f) && i < |f.muxes| && pattern != "" && pattern[0] == '/'
    ensures var g := Step(f, i, WithOp(id, mws)).family;
            var n := |f.muxes|;
            && |g.muxes| == n + 1 && g.entries == f.entries
            && var r := Step(g, n, HandleOp(verb, pattern, h)).family;
               && |r.entries| == |f.entries| + 1 && r.muxes != [] && r.muxes[0].middlewares == f.muxes[0].middlewares
               && var route := r.entries[|f.entries|].route;
                  && route.verb == verb && route.pattern == pattern && Core(route.handler) == Core(h)
                  && Layers(r.muxes[0].handler) + Layers(route.handler)
                     == f.muxes[0].middlewares + ((if f.muxes[i].isInline then f.muxes[i].middlewares else []) + mws) + Layers(h)
  {
    hide Layers;
    hide Core;
    hide Wrapped;
    hide FamilyOk;
    hide EntryOk;
    hide Accepted;
    var g := Step(f, i, WithOp(id, mws)).family;
    var n := |f.muxes|;
    WithOk(f, i, id, mws);
    HandleOk(g, n, verb, pattern, h, None);
    var r := Handle(g, n, verb, pattern, h, None).family;
    var e := r.entries[|f.entries|];
    assert e in r.entries;
    EntryLayers(r, e);
    WrappedLayers(g.muxes[n], h);
  }

  /**
   At every point of every run, a request that is served by a search of the shared trie went
   to a handler that some registration was made with, through the middlewares of the first
   router, then those of the inline router of that registration as they are now, then those
   of the handler itself, all in order.
   */
  lemma ServedThrough(id: nat, calls: seq<(nat, Op)>, path: string, rx: Matcher, verb: Method)
    requires IsValid(verb)
    ensures var f := Run(Start(id), calls);
            var hits := Hits(Build(Log(f.entries)), path, rx);
            var i := FirstServing(hits, verb);
            i < |hits| ==>
              var h := hits[i].leaf.endpoints[verb].handler;
              f.muxes != [] && f.muxes[0].handler.Some? &&
              exists e <- f.entries ::
                && e.route.pattern == hits[i].leaf.endpoints[verb].pattern && e.via < |f.muxes|
                && Core(h) == Core(e.inner)
                && Layers(f.muxes[0].handler) + Layers(h)
                   == f.muxes[0].middlewares + InlineStack(f.muxes[e.via]) + Layers(e.inner)
  {
    hide Run;
    hide Hits;
    hide FirstServing;
    hide Build;
    hide FamilyOk;
    hide InlineStack;
    hide Core;
    hide Layers;
    var f := Run(Start(id), calls);
    var hits := Hits(Build(Log(f.entries)), path, rx);
    var i := FirstServing(hits, verb);
    RunOk(id, calls);
    if i < |hits| {
      MatchRoundTrip(Log(f.entries), path, rx, i, verb);
      var e := f.entries[LastFor(Log(f.entries), hits[i].route, verb)];
      assert e in f.entries;
      EntryLayers(f, e);
    }
  }
}
