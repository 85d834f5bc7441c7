/**
 A site is a set of routers that mount each other, each known by its number and by the
 registrations made on its trie. Mounting is acyclic: a router's number is greater than
 those of the routers mounted in it.
 */
module Site {
  import opened Wrappers
  import opened Pattern
  import opened Endpoints
  import opened Context
  import opened Trie
  import opened TrieSearch
  import opened TrieHits
  import opened SearchReport
  import opened Middleware
  import opened Runs
  import opened MuxSteps

  /** `routed` says that the router's handler is set: without it, every request is answered not found. */
  datatype Router = Router(log: seq<Route>, routed: bool)

  /** The answer to a request: a handler that is not a mount, the not-found handler, or a null handler's silence. */
  datatype Answer = Served(handler: Handler) | NotFound | Silent

  /** The path handed to a mounted router: what the wildcard took, or the root path. */
  function NextRoutePath(params: RouteParams): (path: string)
    ensures path != ""
  {
    var n := |params.keys| - 1;
    if n >= 0 && params.keys[n] == "*" && |params.values| > n then "/" + params.values[n] else "/"
  }

  /** What the search of one router finds: the leaf, the method's endpoint there, and its parameters. */
  datatype Find = Find(leaf: Leaf, endpoint: Endpoint, params: RouteParams)

  ghost function Search(r: Router, verb: Method, path: string, rx: Matcher): Option<Find> {
    var hits := Hits(Build(r.log), path, rx);
    var i := FirstServing(hits, verb);
    if i == |hits| then None
    else
      var ep := hits[i].leaf.endpoints[verb];
      Some(Find(hits[i].leaf, ep, RouteParams(ep.paramKeys, hits[i].values)))
  }

  /** Dispatch through the routers, with middlewares that only call on. */
  ghost function Dispatch(site: seq<Router>, id: nat, verb: Method, path: string, rx: Matcher): Answer
    requires id < |site|
    decreases id
  {
    if !site[id].routed then NotFound
    else
      match Search(site[id], verb, path, rx)
      case None => NotFound
      case Some(f) =>
        match Core(f.endpoint.handler)
        case None => Silent
        case Some(Mounted(s)) => if s < id then Dispatch(site, s, verb, NextRoutePath(f.params), rx) else NotFound
        case Some(h) => Served(h)
  }

  /** Mux::match: follows the router recorded on the node instead of running its handler. */
  ghost function Match(site: seq<Router>, id: nat, verb: Method, path: string, rx: Matcher): bool
    requires id < |site|
    decreases id
  {
    match Search(site[id], verb, path, rx)
    case None => false
    case Some(f) =>
      match f.leaf.subroutes
      case None => true
      case Some(s) => s < id && Match(site, s, verb, NextRoutePath(f.params), rx)
  }

  /** No mounted wildcard has been overwritten: where a router is recorded, its mount handler serves every method. */
  ghost predicate MountsIntact(site: seq<Router>) {
    forall id, toks, verb :: 0 <= id < |site| && IsValid(verb) ==> MountIntact(Lookup(Build(site[id].log), toks), verb)
  }

  ghost predicate MountIntact(leaf: Leaf, verb: Method) {
    leaf.subroutes.Some? && Serves(leaf.endpoints, verb) ==>
      Core(leaf.endpoints[verb].handler) == Some(Mounted(leaf.subroutes.value))
  }

  // ------------------------------------------------------- what a search finds

  /** What find_route reports is what the search finds. */
  lemma Reported(r: Router, verb: Method, path: string, rx: Matcher, hint: bool, found: Option<Leaf>, after: Marks)
    requires Reports(Hits(Build(r.log), path, rx), verb, Marks(NO_PARAMS, hint), found, after)
    ensures match Search(r, verb, path, rx)
            case None => found == None
            case Some(f) => found == Some(f.leaf) && after.params == f.params
                            && Serves(f.leaf.endpoints, verb) && f.endpoint == f.leaf.endpoints[verb]
  {
    hide Hits;
    hide Build;
    var hits := Hits(Build(r.log), path, rx);
    var i := FirstServing(hits, verb);
    if i < |hits| {
      var keys := hits[i].leaf.endpoints[verb].paramKeys;
      assert [] + keys == keys && [] + hits[i].values == hits[i].values;
    }
  }

  /** A router found at a node was recorded by a registration there. */
  lemma {:induction false} RecordedBy(log: seq<Route>, toks: seq<Token>)
    ensures var sub := Table(log, toks).subroutes;
            sub.Some? ==> exists i :: 0 <= i < |log| && Registers(log[i], toks) && log[i].subroutes == sub
  {
    if log != [] && Table(log, toks).subroutes.Some? {
      var front, last := log[..|log| - 1], log[|log| - 1];
      RecordedBy(front, toks);
      if Registers(last, toks) && last.subroutes.Some? {
        assert Registers(log[|log| - 1], toks);
      } else {
        var i :| 0 <= i < |front| && Registers(front[i], toks) && front[i].subroutes == Table(front, toks).subroutes;
        assert log[i] == front[i];
      }
    }
  }

  /** The router at a node is the one recorded last, whatever else has been registered there. */
  lemma {:induction false} RecordedLast(log: seq<Route>, toks: seq<Token>, i: nat)
    requires i < |log| && Registers(log[i], toks) && log[i].subroutes.Some?
    requires forall j :: i < j < |log| && Registers(log[j], toks) ==> log[j].subroutes.None?
    ensures Table(log, toks).subroutes == log[i].subroutes
  {
    if i < |log| - 1 {
      RecordedLast(log[..|log| - 1], toks, i);
    }
  }

  /** Routers mounted by a registration, or entered by its handler, have smaller numbers. */
  predicate Below(r: Route, id: nat) {
    && (r.subroutes.Some? ==> r.subroutes.value < id)
    && (Core(r.handler).Some? && Core(r.handler).value.Mounted? ==> Core(r.handler).value.router < id)
  }

  /** A search leads only to routers that the registrations mount. */
  lemma FoundBelow(r: Router, id: nat, verb: Method, path: string, rx: Matcher)
    requires IsValid(verb) && forall route <- r.log :: Below(route, id)
    ensures match Search(r, verb, path, rx)
            case None => true
            case Some(f) =>
              && (f.leaf.subroutes.Some? ==> f.leaf.subroutes.value < id)
              && (Core(f.endpoint.handler).Some? && Core(f.endpoint.handler).value.Mounted? ==>
                    Core(f.endpoint.handler).value.router < id)
  {
    hide Build;
    hide Table;
    hide Derives;
    hide Good;
    hide FirstServing;
    hide Hits;
    hide Core;
    var hits := Hits(Build(r.log), path, rx);
    var i := FirstServing(hits, verb);
    if i < |hits| {
      var toks := hits[i].route;
      MatchRoundTrip(r.log, path, rx, i, verb);
      assert r.log[LastFor(r.log, toks, verb)] in r.log;
      TrieIsTable(r.log, toks);
      HitsSound(Build(r.log), path, rx);
      assert Sound(Build(r.log), path, rx, hits[i]);
      RecordedBy(r.log, toks);
      if hits[i].leaf.subroutes.Some? {
        var n :| 0 <= n < |r.log| && Registers(r.log[n], toks) && r.log[n].subroutes == hits[i].leaf.subroutes;
        assert r.log[n] in r.log;
      }
    }
  }

  /**
   Does match follow a recorded router that dispatch does not enter, and is it refused there?
   It goes along with dispatch as long as the handler found enters the router recorded beside it.
   */
  ghost predicate Strays(site: seq<Router>, id: nat, verb: Method, path: string, rx: Matcher)
    requires id < |site|
    decreases id
  {
    match Search(site[id], verb, path, rx)
    case None => false
    case Some(f) =>
      match f.leaf.subroutes
      case None => false
      case Some(s) =>
        if Core(f.endpoint.handler) == Some(Mounted(s)) then s < id && Strays(site, s, verb, NextRoutePath(f.params), rx)
        else !(s < id && Match(site, s, verb, NextRoutePath(f.params), rx))
  }

  /** Of the requests that dispatch serves, match refuses exactly those that stray. */
  lemma {:induction false} MatchExact(site: seq<Router>, id: nat, verb: Method, path: string, rx: Matcher)
    requires id < |site|
    ensures Dispatch(site, id, verb, path, rx).Served? ==>
              (Match(site, id, verb, path, rx) <==> !Strays(site, id, verb, path, rx))
    decreases id
  {
    hide Search;
    hide Core;
    hide NextRoutePath;
    var found := Search(site[id], verb, path, rx);
    if found.Some? && found.value.leaf.subroutes.Some? {
      var s := found.value.leaf.subroutes.value;
      if s < id {
        MatchExact(site, s, verb, NextRoutePath(found.value.params), rx);
      }
    }
  }

  /** Where no mount has been overwritten, no request strays. */
  lemma {:induction false} IntactNeverStrays(site: seq<Router>, id: nat, verb: Method, path: string, rx: Matcher)
    requires id < |site| && IsValid(verb) && MountsIntact(site)
    ensures !Strays(site, id, verb, path, rx)
    decreases id
  {
    hide Good;
    hide Hits;
    hide Build;
    hide Core;
    var found := Search(site[id], verb, path, rx);
    if found.Some? && found.value.leaf.subroutes.Some? {
      var t := Build(site[id].log);
      var hits := Hits(t, path, rx);
      var i := FirstServing(hits, verb);
      TrieIsTable(site[id].log, []);
      HitsSound(t, path, rx);
      assert Sound(t, path, rx, hits[i]);
      assert MountIntact(Lookup(t, hits[i].route), verb);
      var s := found.value.leaf.subroutes.value;
      if s < id {
        IntactNeverStrays(site, s, verb, NextRoutePath(found.value.params), rx);
      }
    }
  }

  /** There match refuses nothing that dispatch would serve. */
  lemma MatchCoversDispatch(site: seq<Router>, id: nat, verb: Method, path: string, rx: Matcher)
    requires id < |site| && IsValid(verb) && MountsIntact(site)
    ensures Dispatch(site, id, verb, path, rx).Served? ==> Match(site, id, verb, path, rx)
  {
    hide Dispatch;
    hide Match;
    hide Strays;
    hide MountsIntact;
    MatchExact(site, id, verb, path, rx);
    IntactNeverStrays(site, id, verb, path, rx);
  }

  // ------------------------------------------------- mounts that stay intact

  /** A registration that records a router is for every method, and its handler enters that router. */
  predicate EntersRecorded(r: Route) {
    r.subroutes.Some? ==> r.verb == MOUNTED && Core(r.handler) == Some(Mounted(r.subroutes.value))
  }

  /** Where a router has been recorded, only another mount has registered since. */
  ghost predicate NotOverwritten(log: seq<Route>) {
    forall i, j, toks :: 0 <= i < j < |log| && log[i].subroutes.Some? && Registers(log[i], toks) && Registers(log[j], toks)
                         ==> log[j].subroutes.Some?
  }

  lemma {:induction false} TableIntact(log: seq<Route>, toks: seq<Token>, verb: Method)
    requires IsValid(verb) && NotOverwritten(log) && forall r <- log :: EntersRecorded(r)
    ensures MountIntact(Table(log, toks), verb)
  {
    hide Core;
    hide HasBits;
    if log != [] {
      var front, last := log[..|log| - 1], log[|log| - 1];
      assert forall i :: 0 <= i < |front| ==> log[i] == front[i];
      TableIntact(front, toks, verb);
      RecordedBy(front, toks);
      SetAllExact(Table(front, toks).endpoints, last, verb);
      AllMethods(Table(front, toks).endpoints, last.(verb := MOUNTED), verb);
      assert Table(log, toks) == if Registers(last, toks) then Register(Table(front, toks), last) else Table(front, toks);
      assert last in log;
    }
  }

  /** The condition of MatchCoversDispatch, on the registrations. */
  lemma StillIntact(site: seq<Router>)
    requires forall r <- site :: NotOverwritten(r.log) && forall route <- r.log :: EntersRecorded(route)
    ensures MountsIntact(site)
  {
    forall id, toks, verb | 0 <= id < |site| && IsValid(verb)
      ensures MountIntact(Lookup(Build(site[id].log), toks), verb)
    {
      assert site[id] in site;
      TrieIsTable(site[id].log, toks);
      TableIntact(site[id].log, toks, verb);
    }
  }

  /** What a router and its inline routers register is like that, on every run, as far as the handlers go. */
  lemma FamilyEnters(f: Family)
    requires FamilyOk(f)
    ensures forall route <- Log(f.entries) :: EntersRecorded(route)
  {
    forall i | 0 <= i < |f.entries|
      ensures EntersRecorded(Log(f.entries)[i])
    {
      var e := f.entries[i];
      assert e in f.entries && EntryOk(f.muxes, e);
      WrappedLayers(f.muxes[e.via], e.inner);
    }
  }

  // --------------------------------------------- parameters through mounts

  /** Entering a mounted router resets the wildcard that led there. */
  function ResetWildcard(params: RouteParams): (r: RouteParams)
    ensures r.keys == params.keys && |r.values| == |params.values|
  {
    var n := |params.keys| - 1;
    if n >= 0 && params.keys[n] == "*" && |params.values| > n then params.(values := params.values[n := ""]) else params
  }

  /** The URL parameters when the request is answered: those of every router on the way, on top of `acc`. */
  ghost function Gather(site: seq<Router>, id: nat, verb: Method, path: string, acc: RouteParams, rx: Matcher): RouteParams
    requires id < |site|
    decreases id
  {
    if !site[id].routed then acc
    else
      match Search(site[id], verb, path, rx)
      case None => acc
      case Some(f) =>
        match Core(f.endpoint.handler)
        case Some(Mounted(s)) =>
          if s < id then Gather(site, s, verb, NextRoutePath(f.params), ResetWildcard(acc.Plus(f.params)), rx)
          else acc.Plus(f.params)
        case _ => acc.Plus(f.params)
  }

  /** The patterns matched on the way, one for each router. */
  ghost function Trail(site: seq<Router>, id: nat, verb: Method, path: string, rx: Matcher): seq<string>
    requires id < |site|
    decreases id
  {
    if !site[id].routed then []
    else
      match Search(site[id], verb, path, rx)
      case None => []
      case Some(f) =>
        var here := if f.endpoint.pattern == "" then [] else [f.endpoint.pattern];
        match Core(f.endpoint.handler)
        case Some(Mounted(s)) => if s < id then here + Trail(site, s, verb, NextRoutePath(f.params), rx) else here
        case _ => here
  }

  function AllKeys(patterns: seq<string>): seq<string> {
    if patterns == [] then [] else Keys(patterns[0]) + AllKeys(patterns[1..])
  }

  /** The parameters of the last router's own search. */
  ghost function Innermost(site: seq<Router>, id: nat, verb: Method, path: string, rx: Matcher): RouteParams
    requires id < |site|
    decreases id
  {
    if !site[id].routed then NO_PARAMS
    else
      match Search(site[id], verb, path, rx)
      case None => NO_PARAMS
      case Some(f) =>
        match Core(f.endpoint.handler)
        case Some(Mounted(s)) => if s < id then Innermost(site, s, verb, NextRoutePath(f.params), rx) else f.params
        case _ => f.params
  }

  /**
   Through any stack of mounted routers there are as many values as keys, and a key bound
   by the innermost router has that router's value.
   */
  lemma {:induction false} ParamsAligned(site: seq<Router>, id: nat, verb: Method, path: string, acc: RouteParams, rx: Matcher, key: string)
    requires id < |site| && IsValid(verb) && acc.Aligned()
    ensures var all, last := Gather(site, id, verb, path, acc, rx), Innermost(site, id, verb, path, rx);
            && all.Aligned() && last.Aligned() && acc.keys <= all.keys
            && (key in last.keys ==> UrlParam(all, key) == UrlParam(last, key))
    decreases id
  {
    hide Search;
    hide UrlParam;
    hide Core;
    SearchFills(site[id], verb, path, rx);
    var found := Search(site[id], verb, path, rx);
    if site[id].routed && found.Some? {
      var f := found.value;
      InnermostWins(acc, f.params, key);
      var h := Core(f.endpoint.handler);
      if h.Some? && h.value.Mounted? && h.value.router < id {
        ParamsAligned(site, h.value.router, verb, NextRoutePath(f.params), ResetWildcard(acc.Plus(f.params)), rx, key);
      }
    }
  }

  /** Entering a router behind a wildcard empties the wildcard's parameter, and leaves every other name alone. */
  lemma WildcardReset(params: RouteParams, key: string)
    requires params.Aligned()
    ensures UrlParam(ResetWildcard(params), key)
         == if params.keys != [] && params.keys[|params.keys| - 1] == "*" == key then "" else UrlParam(params, key)
  {
    assert params.keys[..|params.keys|] == params.keys;
  }

  /** The value that the innermost router on the way which binds the key has for it. */
  ghost function BoundOnTheWay(site: seq<Router>, id: nat, verb: Method, path: string, rx: Matcher, key: string): Option<string>
    requires id < |site|
    decreases id
  {
    if !site[id].routed then None
    else
      match Search(site[id], verb, path, rx)
      case None => None
      case Some(f) =>
        var here := if key in f.params.keys then Some(UrlParam(f.params, key)) else None;
        match Core(f.endpoint.handler)
        case Some(Mounted(s)) =>
          if s >= id then here
          else
            var below := BoundOnTheWay(site, s, verb, NextRoutePath(f.params), rx, key);
            if below.Some? then below else here
        case _ => here
  }

  /**
   Through any stack of mounted routers, a name other than the wildcard's has the value of the
   innermost router that binds it, and the value it had before if none does.
   */
  lemma {:induction false} InnermostBinds(site: seq<Router>, id: nat, verb: Method, path: string, acc: RouteParams, rx: Matcher, key: string)
    requires id < |site| && IsValid(verb) && acc.Aligned() && key != "*"
    ensures UrlParam(Gather(site, id, verb, path, acc, rx), key)
         == match BoundOnTheWay(site, id, verb, path, rx, key) case None => UrlParam(acc, key) case Some(v) => v
    decreases id
  {
    hide Search;
    hide UrlParam;
    hide Core;
    hide NextRoutePath;
    hide ResetWildcard;
    SearchFills(site[id], verb, path, rx);
    var found := Search(site[id], verb, path, rx);
    if site[id].routed && found.Some? {
      var f := found.value;
      InnermostWins(acc, f.params, key);
      WildcardReset(acc.Plus(f.params), key);
      var h := Core(f.endpoint.handler);
      if h.Some? && h.value.Mounted? && h.value.router < id {
        InnermostBinds(site, h.value.router, verb, NextRoutePath(f.params), ResetWildcard(acc.Plus(f.params)), rx, key);
      }
    }
  }

  /** What match leaves in the routing context: the route path, the URL parameters and the matched patterns. */
  datatype Notes = Notes(path: string, params: RouteParams, patterns: seq<string>)

  /** match adds what every router on the way has found, and does not reset the wildcards. */
  ghost function Noted(site: seq<Router>, id: nat, verb: Method, path: string, rx: Matcher, before: Notes): Notes
    requires id < |site|
    decreases id
  {
    match Search(site[id], verb, path, rx)
    case None => before
    case Some(f) =>
      var here := if f.endpoint.pattern == "" then [] else [f.endpoint.pattern];
      var now := Notes(before.path, before.params.Plus(f.params), before.patterns + here);
      match f.leaf.subroutes
      case None => now
      case Some(s) =>
        if s >= id then now else Noted(site, s, verb, NextRoutePath(f.params), rx, now.(path := NextRoutePath(f.params)))
  }

  lemma AllKeysFront(pattern: string, rest: seq<string>)
    ensures AllKeys((if pattern == "" then [] else [pattern]) + rest) == Keys(pattern) + AllKeys(rest)
  {
    if pattern == "" {
      assert [] + rest == rest && Keys("") + AllKeys(rest) == AllKeys(rest);
    } else {
      assert ([pattern] + rest)[1..] == rest;
    }
  }

  /** The URL parameters bind exactly the keys of the patterns on the trail, in order. */
  lemma {:induction false} TrailKeys(site: seq<Router>, id: nat, verb: Method, path: string, acc: RouteParams, rx: Matcher)
    requires id < |site| && IsValid(verb)
    ensures Gather(site, id, verb, path, acc, rx).keys == acc.keys + AllKeys(Trail(site, id, verb, path, rx))
    decreases id
  {
    hide Search;
    hide Core;
    hide Keys;
    hide AllKeys;
    hide NextRoutePath;
    hide ResetWildcard;
    SearchFills(site[id], verb, path, rx);
    var found := Search(site[id], verb, path, rx);
    if site[id].routed && found.Some? {
      var f := found.value;
      var h := Core(f.endpoint.handler);
      if h.Some? && h.value.Mounted? && h.value.router < id {
        TrailKeys(site, h.value.router, verb, NextRoutePath(f.params), ResetWildcard(acc.Plus(f.params)), rx);
        OneHop(acc.keys, f.endpoint.pattern, Trail(site, h.value.router, verb, NextRoutePath(f.params), rx));
      } else {
        OneHop(acc.keys, f.endpoint.pattern, []);
      }
    } else {
      OneHop(acc.keys, "", []);
    }
  }

  lemma OneHop(keys: seq<string>, pattern: string, rest: seq<string>)
    ensures var here := if pattern == "" then [] else [pattern];
            && keys + Keys(pattern) + AllKeys(rest) == keys + AllKeys(here + rest)
            && (rest == [] ==> keys + Keys(pattern) == keys + AllKeys(here))
    ensures AllKeys([]) == [] && keys + [] == keys
  {
    AllKeysFront(pattern, rest);
    hide Keys;
    assert keys + Keys(pattern) + AllKeys(rest) == keys + (Keys(pattern) + AllKeys(rest));
    var here := if pattern == "" then [] else [pattern];
    assert here + [] == here && Keys(pattern) + [] == Keys(pattern);
  }

  lemma {:induction false} AllKeysLast(patterns: seq<string>, pattern: string)
    ensures AllKeys(patterns + (if pattern == "" then [] else [pattern])) == AllKeys(patterns) + Keys(pattern)
  {
    hide Keys;
    if pattern == "" {
      NoKeys();
      assert patterns + [] == patterns && AllKeys(patterns) + [] == AllKeys(patterns);
    } else if patterns == [] {
      assert ([] + [pattern])[1..] == [] && [] + Keys(pattern) == Keys(pattern) + [];
    } else {
      AllKeysLast(patterns[1..], pattern);
      assert (patterns + [pattern])[1..] == patterns[1..] + [pattern];
      assert Keys(patterns[0]) + (AllKeys(patterns[1..]) + Keys(pattern)) == Keys(patterns[0]) + AllKeys(patterns[1..]) + Keys(pattern);
    }
  }

  lemma NoKeys()
    ensures Keys("") == []
  {
  }

  /** match, too, keeps as many values as keys, and the keys those of the matched patterns, in order. */
  lemma {:induction false} NotedKeys(site: seq<Router>, id: nat, verb: Method, path: string, rx: Matcher, before: Notes)
    requires id < |site| && IsValid(verb) && before.params.Aligned() && before.params.keys == AllKeys(before.patterns)
    ensures var after := Noted(site, id, verb, path, rx, before);
            after.params.Aligned() && after.params.keys == AllKeys(after.patterns) && before.patterns <= after.patterns
    decreases id
  {
    hide Search;
    hide Keys;
    hide AllKeys;
    hide NextRoutePath;
    SearchFills(site[id], verb, path, rx);
    var found := Search(site[id], verb, path, rx);
    if found.Some? {
      var f := found.value;
      AllKeysLast(before.patterns, f.endpoint.pattern);
      var here := if f.endpoint.pattern == "" then [] else [f.endpoint.pattern];
      var now := Notes(before.path, before.params.Plus(f.params), before.patterns + here);
      if f.leaf.subroutes.Some? && f.leaf.subroutes.value < id {
        NotedKeys(site, f.leaf.subroutes.value, verb, NextRoutePath(f.params), rx, now.(path := NextRoutePath(f.params)));
      }
    }
  }

  // ---------------------------------------------------- paths through mounts

  /** What a mounted wildcard adds to the mounted pattern. */
  const WILDCARD := "/*"

  /** The endpoint of a mounted wildcard. */
  predicate IsWildcard(pattern: string) {
    |pattern| >= 2 && pattern[|pattern| - 2..] == WILDCARD
  }

  lemma {:induction false} CloseBraceBefore(base: string, i: nat, cc: nat)
    requires i <= |base| && cc > 0
    ensures CloseBrace(base + WILDCARD, i, cc) == CloseBrace(base, i, cc)
    decreases |base| - i
  {
    var p := base + WILDCARD;
    if i < |base| {
      assert p[i] == base[i];
      if base[i] == '{' {
        CloseBraceBefore(base, i + 1, cc + 1);
      } else if base[i] != '}' {
        CloseBraceBefore(base, i + 1, cc);
      } else if cc > 1 {
        CloseBraceBefore(base, i + 1, cc - 1);
      }
    } else {
      assert p[i] == '/' && p[i + 1] == '*';
      assert CloseBrace(p, i + 1, cc) == -1 by { assert CloseBrace(p, i + 2, cc) == -1; }
    }
  }

  /** The front of a pattern is the same with a wildcard added at its end. */
  lemma FrontBefore(base: string)
    requires base != "" && Tokens(base + WILDCARD).Some?
    ensures var p, n := base + WILDCARD, FrontLength(base);
            && FrontLength(p) == n && p[0] == base[0] != '*' && FrontClosed(base) && FrontClosed(p)
            && p[n..] == base[n..] + WILDCARD && Tokens(p[n..]).Some?
            && (p[0] == '{' ==> FrontParam(base).key == FrontParam(p).key)
  {
    var p := base + WILDCARD;
    if p[0] == '{' {
      CloseBraceBefore(base, 1, 1);
      if CloseBrace(base, 1, 1) >= 0 { KeyBefore(base, CloseBrace(base, 1, 1)); }
      hide CloseBrace;
      hide WildSegment;
    }
  }

  lemma KeyBefore(base: string, e: nat)
    requires 0 < e < |base|
    ensures WildSegment(base, 0, e).key == WildSegment(base + WILDCARD, 0, e).key
  {
    hide Anchor;
    hide IndexOf;
    assert base[0 + 1..e] == (base + WILDCARD)[0 + 1..e];
  }

  /** The wildcard binds the last key. */
  lemma {:induction false} WildcardKey(base: string)
    requires Tokens(base + WILDCARD).Some?
    ensures Keys(base + WILDCARD) == Keys(base) + ["*"]
    decreases |base|
  {
    if base == "" {
      assert base + WILDCARD == "/*";
      assert "/*"[1..] == "*" && Keys("*") == ["*"];
    } else {
      FrontBefore(base);
      hide FrontLength;
      hide FrontParam;
      hide FrontClosed;
      WildcardKey(base[FrontLength(base)..]);
    }
  }

  lemma OnlyWildcard(last: string)
    ensures Fill(WILDCARD, [last]) == "/" + last
  {
    assert "/*"[1..] == "*" && "*"[1..] == "";
    assert last + "" == last;
  }

  /** One unfolding of Fill and Keys. */
  lemma FillFront(s: string, values: seq<string>)
    requires s != "" && s[0] != '*' && FrontClosed(s)
    ensures Fill(s, values) == if s[0] != '{' then [s[0]] + Fill(s[FrontLength(s)..], values)
                               else if values == [] then ""
                               else values[0] + Fill(s[FrontLength(s)..], values[1..])
    ensures |Keys(s)| == (if s[0] == '{' then 1 else 0) + |Keys(s[FrontLength(s)..])|
  {
    hide CloseBrace;
    hide FrontParam;
  }

  lemma Regroup(a: string, b: string, c: string, d: string)
    ensures a + (b + c + d) == a + b + c + d
  {
  }

  /** The wildcard takes the end of the path. */
  lemma {:induction false} WildcardValue(base: string, values: seq<string>, last: string)
    requires Tokens(base + WILDCARD).Some? && |values| == |Keys(base)|
    ensures Fill(base + WILDCARD, values + [last]) == Fill(base, values) + "/" + last
    decreases |base|
  {
    var p := base + WILDCARD;
    if base == "" {
      assert p == WILDCARD && values + [last] == [last];
      OnlyWildcard(last);
    } else {
      FrontBefore(base);
      FillFront(base, values);
      FillFront(p, values + [last]);
      hide Tokens;
      hide Fill;
      hide Keys;
      hide FrontLength;
      hide FrontParam;
      hide FrontClosed;
      var rest := base[FrontLength(base)..];
      if p[0] == '{' {
        WildcardValue(rest, values[1..], last);
        assert (values + [last])[1..] == values[1..] + [last];
        Regroup(values[0], Fill(rest, values[1..]), "/", last);
      } else {
        WildcardValue(rest, values, last);
        Regroup([p[0]], Fill(rest, values), "/", last);
      }
    }
  }

  /** Where a request goes: what each router on the way takes off the path, and what is left for the last one. */
  datatype Journey = Journey(taken: seq<string>, rest: string, wild: bool)

  /** `wild` says that every hop was through a mounted wildcard, rather than through the mounted path itself. */
  ghost function Follow(site: seq<Router>, id: nat, verb: Method, path: string, rx: Matcher): Journey
    requires id < |site|
    decreases id
  {
    match Search(site[id], verb, path, rx)
    case None => Journey([], path, true)
    case Some(f) =>
      match Core(f.endpoint.handler)
      case Some(Mounted(s)) =>
        if s >= id then Journey([], path, true)
        else
          var j := Follow(site, s, verb, NextRoutePath(f.params), rx);
          var p, values := f.endpoint.pattern, f.params.values;
          if IsWildcard(p) && values != [] then
            Journey([Fill(p[..|p| - 2], values[..|values| - 1])] + j.taken, j.rest, j.wild)
          else Journey([path] + j.taken, j.rest, false)
      case _ => Journey([], path, true)
  }

  function Concat(parts: seq<string>): string {
    if parts == [] then "" else parts[0] + Concat(parts[1..])
  }

  /** What a search finds fits the path, with a value for every key. */
  lemma SearchFills(r: Router, verb: Method, path: string, rx: Matcher)
    requires IsValid(verb)
    ensures match Search(r, verb, path, rx)
            case None => true
            case Some(f) =>
              && f.params.Aligned() && f.params.keys == Keys(f.endpoint.pattern)
              && Accepted(f.endpoint.pattern) && Fill(f.endpoint.pattern, f.params.values) == path
  {
    hide Hits;
    var hits := Hits(Build(r.log), path, rx);
    var i := FirstServing(hits, verb);
    if i < |hits| {
      MatchRoundTrip(r.log, path, rx, i, verb);
    }
  }

  /** Through any number of mounted wildcards, the parts taken and the rest make up the path. */
  lemma {:induction false} PathConserved(site: seq<Router>, id: nat, verb: Method, path: string, rx: Matcher)
    requires id < |site| && IsValid(verb)
    ensures var j := Follow(site, id, verb, path, rx); j.wild ==> Concat(j.taken) + j.rest == path
    decreases id
  {
    hide Search;
    hide Fill;
    hide Keys;
    hide Accepted;
    hide Core;
    hide NextRoutePath;
    var found := Search(site[id], verb, path, rx);
    SearchFills(site[id], verb, path, rx);
    if found.Some? {
      var f := found.value;
      match Core(f.endpoint.handler) {
        case Some(Mounted(s)) =>
          if s < id {
            PathConserved(site, s, verb, NextRoutePath(f.params), rx);
            if IsWildcard(f.endpoint.pattern) && f.params.values != [] {
              HopConserves(f, path);
              var j := Follow(site, s, verb, NextRoutePath(f.params), rx);
              var part := Fill(f.endpoint.pattern[..|f.endpoint.pattern| - 2], f.params.values[..|f.params.values| - 1]);
              assert ([part] + j.taken)[1..] == j.taken;
            }
          }
        case _ =>
      }
    }
  }

  /** One hop: the filled pattern without its wildcard, followed by the path for the mounted router, is the path. */
  lemma HopConserves(f: Find, path: string)
    requires Accepted(f.endpoint.pattern) && IsWildcard(f.endpoint.pattern)
    requires f.params.Aligned() && f.params.keys == Keys(f.endpoint.pattern) && Fill(f.endpoint.pattern, f.params.values) == path
    ensures var p, values := f.endpoint.pattern, f.params.values;
            values != [] && Fill(p[..|p| - 2], values[..|values| - 1]) + NextRoutePath(f.params) == path
  {
    hide Tokens;
    hide Fill;
    hide Keys;
    var p, values := f.endpoint.pattern, f.params.values;
    var base := p[..|p| - 2];
    assert p == base + WILDCARD;
    WildcardKey(base);
    var front, last := values[..|values| - 1], values[|values| - 1];
    assert values == front + [last];
    WildcardValue(base, front, last);
    assert Fill(base, front) + "/" + last == Fill(base, front) + ("/" + last);
  }
}
