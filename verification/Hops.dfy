/**
 From router to router: what a mounted router is asked, when a request is refused, when
 match and dispatch agree, and that a mount answers for the mounted path and all below it.
 */
module Hops {
  import opened Wrappers
  import opened Pattern
  import opened Endpoints
  import opened Context
  import opened Trie
  import opened TrieContents
  import opened TrieSearch
  import opened TrieHits
  import opened Middleware
  import opened Runs
  import opened Filling
  import opened MuxSteps
  import opened Remount
  import opened Site

  // ------------------------------------------------- what is handed on

  /** Is the last key that the pattern binds the wildcard's? */
  predicate EndsWild(pattern: string) {
    Keys(pattern) != [] && Keys(pattern)[|Keys(pattern)| - 1] == "*"
  }

  /**
   A mounted router is asked for what the wildcard took, behind a `/`; and for the root path,
   if the pattern found does not bind the wildcard last.
   */
  lemma DispatchEnters(site: seq<Router>, id: nat, verb: Method, path: string, rx: Matcher, f: Find, s: nat)
    requires id < |site| && IsValid(verb) && site[id].routed && Search(site[id], verb, path, rx) == Some(f)
    requires Core(f.endpoint.handler) == Some(Mounted(s)) && s < id
    ensures if EndsWild(f.endpoint.pattern)
            then && f.params.values != []
                 && Dispatch(site, id, verb, path, rx) == Dispatch(site, s, verb, "/" + f.params.values[|f.params.values| - 1], rx)
            else Dispatch(site, id, verb, path, rx) == Dispatch(site, s, verb, "/", rx)
  {
    hide Search;
    hide Core;
    hide Keys;
    SearchFills(site[id], verb, path, rx);
  }

  /** match asks the recorded router the same; where none is recorded, a find is enough. */
  lemma MatchEnters(site: seq<Router>, id: nat, verb: Method, path: string, rx: Matcher, f: Find)
    requires id < |site| && IsValid(verb) && Search(site[id], verb, path, rx) == Some(f)
    ensures match f.leaf.subroutes
            case None => Match(site, id, verb, path, rx)
            case Some(s) =>
              if s >= id then !Match(site, id, verb, path, rx)
              else if EndsWild(f.endpoint.pattern)
              then && f.params.values != []
                   && Match(site, id, verb, path, rx) == Match(site, s, verb, "/" + f.params.values[|f.params.values| - 1], rx)
              else Match(site, id, verb, path, rx) == Match(site, s, verb, "/", rx)
  {
    hide Search;
    hide Keys;
    SearchFills(site[id], verb, path, rx);
  }

  /** A handler found that enters no router is what is served; a chain with nothing at its end stays silent. */
  lemma DispatchEnds(site: seq<Router>, id: nat, verb: Method, path: string, rx: Matcher, f: Find)
    requires id < |site| && site[id].routed && Search(site[id], verb, path, rx) == Some(f)
    ensures match Core(f.endpoint.handler)
            case None => Dispatch(site, id, verb, path, rx) == Silent
            case Some(Mounted(_)) => true
            case Some(h) => Dispatch(site, id, verb, path, rx) == Served(h)
  {
    hide Search;
    hide Core;
  }

  /** What is served, through any depth of mounts, is a handler that was registered with one of the routers. */
  lemma {:induction false} ServedIsRegistered(site: seq<Router>, id: nat, verb: Method, path: string, rx: Matcher)
    requires id < |site| && IsValid(verb) && Dispatch(site, id, verb, path, rx).Served?
    ensures exists s, i :: 0 <= s <= id && 0 <= i < |site[s].log|
                           && Core(site[s].log[i].handler) == Some(Dispatch(site, id, verb, path, rx).handler)
    decreases id
  {
    hide Search;
    hide Core;
    hide NextRoutePath;
    var f := Search(site[id], verb, path, rx).value;
    var i := FoundIsRegistered(site[id], verb, path, rx);
    var h := Core(f.endpoint.handler);
    if h.value.Mounted? && h.value.router < id {
      ServedIsRegistered(site, h.value.router, verb, NextRoutePath(f.params), rx);
    } else {
      assert Core(site[id].log[i].handler) == Some(Dispatch(site, id, verb, path, rx).handler);
    }
  }

  lemma FoundIsRegistered(r: Router, verb: Method, path: string, rx: Matcher) returns (i: nat)
    requires IsValid(verb) && Search(r, verb, path, rx).Some?
    ensures i < |r.log| && r.log[i].handler == Search(r, verb, path, rx).value.endpoint.handler
  {
    hide Hits;
    hide Build;
    hide Fill;
    hide ValuesFit;
    var hits := Hits(Build(r.log), path, rx);
    var k := FirstServing(hits, verb);
    MatchRoundTrip(r.log, path, rx, k, verb);
    i := LastFor(r.log, hits[k].route, verb);
  }

  // ------------------------------------------------------- what is refused

  /**
   The search finds something exactly if some walk through the router's trie reaches a leaf with a
   handler for the method; without one, the router neither matches nor serves.
   */
  lemma MatchNeedsWalk(site: seq<Router>, id: nat, verb: Method, path: string, rx: Matcher)
    requires id < |site| && IsValid(verb)
    ensures Search(site[id], verb, path, rx).Some?
       <==> exists toks, values ::
              toks != [] && Reaches(Build(site[id].log), toks, path, values, rx) && Answers(site[id].log, toks, verb)
    ensures Search(site[id], verb, path, rx) == None ==>
              !Match(site, id, verb, path, rx) && Dispatch(site, id, verb, path, rx) == NotFound
  {
    hide Hits;
    hide Reaches;
    hide Build;
    hide Answers;
    SearchExact(site[id].log, verb, path, rx);
  }

  // ------------------------------------------------ match against dispatch

  /** A router that is not routed has no registrations; FamilyRouted says that this is so on every run. */
  ghost predicate AllRouted(site: seq<Router>) {
    forall r <- site :: r.routed || r.log == []
  }

  lemma FamilyRouted(f: Family)
    requires FamilyOk(f)
    ensures f.muxes[0].handler.Some? || Log(f.entries) == []
  {
    hide EntryOk;
    hide HandlerOk;
  }

  /**
   Is the request let through by match at a leaf that records no router, although the handler
   there enters a router that is not there or answers not found?
   */
  ghost predicate Overlooks(site: seq<Router>, id: nat, verb: Method, path: string, rx: Matcher)
    requires id < |site|
    decreases id
  {
    match Search(site[id], verb, path, rx)
    case None => false
    case Some(f) =>
      match f.leaf.subroutes
      case Some(s) => s < id && Overlooks(site, s, verb, NextRoutePath(f.params), rx)
      case None =>
        match Core(f.endpoint.handler)
        case Some(Mounted(s)) => s >= id || Dispatch(site, s, verb, NextRoutePath(f.params), rx) == NotFound
        case _ => false
  }

  lemma NothingRegistered(r: Router, verb: Method, path: string, rx: Matcher)
    requires r.log == []
    ensures Search(r, verb, path, rx) == None
  {
    NoKids(ROOT);
    assert Hits(ROOT, path, rx) == [];
  }

  /** What the search finds under an intact mount. */
  lemma FoundIntact(site: seq<Router>, id: nat, verb: Method, path: string, rx: Matcher)
    requires id < |site| && IsValid(verb) && MountsIntact(site)
    ensures match Search(site[id], verb, path, rx)
            case None => true
            case Some(f) => f.leaf.subroutes.Some? ==> Core(f.endpoint.handler) == Some(Mounted(f.leaf.subroutes.value))
  {
    hide Good;
    hide Hits;
    hide Build;
    hide Core;
    var t := Build(site[id].log);
    var hits := Hits(t, path, rx);
    var i := FirstServing(hits, verb);
    if i < |hits| {
      TrieIsTable(site[id].log, []);
      HitsSound(t, path, rx);
      assert Sound(t, path, rx, hits[i]);
      assert MountIntact(Lookup(t, hits[i].route), verb);
    }
  }

  /** Where mounts are intact, match accepts what dispatch does not answer with not found, and what it overlooks; no more. */
  lemma {:induction false} MatchDispatch(site: seq<Router>, id: nat, verb: Method, path: string, rx: Matcher)
    requires id < |site| && IsValid(verb) && MountsIntact(site) && AllRouted(site)
    ensures Match(site, id, verb, path, rx)
       <==> Dispatch(site, id, verb, path, rx) != NotFound || Overlooks(site, id, verb, path, rx)
    ensures Overlooks(site, id, verb, path, rx) ==> Dispatch(site, id, verb, path, rx) == NotFound
    decreases id
  {
    hide Search;
    hide Core;
    hide NextRoutePath;
    hide MountsIntact;
    assert site[id] in site;
    if !site[id].routed {
      NothingRegistered(site[id], verb, path, rx);
    }
    FoundIntact(site, id, verb, path, rx);
    var found := Search(site[id], verb, path, rx);
    if found.Some? && found.value.leaf.subroutes.Some? {
      var s := found.value.leaf.subroutes.value;
      if s < id {
        MatchDispatch(site, s, verb, NextRoutePath(found.value.params), rx);
      }
    }
  }

  /** So match and dispatch agree on a request exactly if it is not overlooked. */
  lemma MatchIffDispatch(site: seq<Router>, id: nat, verb: Method, path: string, rx: Matcher)
    requires id < |site| && IsValid(verb) && MountsIntact(site) && AllRouted(site)
    ensures (Match(site, id, verb, path, rx) <==> Dispatch(site, id, verb, path, rx) != NotFound)
       <==> !Overlooks(site, id, verb, path, rx)
  {
    hide Match;
    hide Dispatch;
    hide Overlooks;
    hide MountsIntact;
    MatchDispatch(site, id, verb, path, rx);
  }

  /** A registration whose handler enters a router also records it. */
  predicate RecordsEntered(r: Route) {
    Core(r.handler).Some? && Core(r.handler).value.Mounted? ==> r.subroutes.Some?
  }

  lemma {:induction false} StaysRecorded(log: seq<Route>, toks: seq<Token>, i: nat)
    requires i < |log| && Registers(log[i], toks) && log[i].subroutes.Some?
    ensures Table(log, toks).subroutes.Some?
  {
    if i < |log| - 1 {
      StaysRecorded(log[..|log| - 1], toks, i);
    }
  }

  /** A search that finds a handler which enters a router finds the router recorded, if every registration is like that. */
  lemma EnteredIsRecorded(r: Router, verb: Method, path: string, rx: Matcher)
    requires IsValid(verb) && forall route <- r.log :: RecordsEntered(route)
    ensures match Search(r, verb, path, rx)
            case None => true
            case Some(f) =>
              Core(f.endpoint.handler).Some? && Core(f.endpoint.handler).value.Mounted? ==> f.leaf.subroutes.Some?
  {
    hide Hits;
    hide Build;
    hide Table;
    hide Core;
    hide Fill;
    hide ValuesFit;
    var hits := Hits(Build(r.log), path, rx);
    var i := FirstServing(hits, verb);
    if i < |hits| {
      MatchRoundTrip(r.log, path, rx, i, verb);
      HitExact(r.log, path, rx, i);
      var j := LastFor(r.log, hits[i].route, verb);
      assert r.log[j] in r.log;
      if r.log[j].subroutes.Some? {
        StaysRecorded(r.log, hits[i].route, j);
      }
    }
  }

  /** Where routers are mounted at patterns that end in `/` only, nothing is overlooked, and match is exactly dispatch. */
  lemma {:induction false} NothingOverlooked(site: seq<Router>, id: nat, verb: Method, path: string, rx: Matcher)
    requires id < |site| && IsValid(verb) && forall r <- site :: forall route <- r.log :: RecordsEntered(route)
    ensures !Overlooks(site, id, verb, path, rx)
    decreases id
  {
    hide Search;
    hide Core;
    hide NextRoutePath;
    assert site[id] in site;
    EnteredIsRecorded(site[id], verb, path, rx);
    var found := Search(site[id], verb, path, rx);
    if found.Some? && found.value.leaf.subroutes.Some? && found.value.leaf.subroutes.value < id {
      NothingOverlooked(site, found.value.leaf.subroutes.value, verb, NextRoutePath(found.value.params), rx);
    }
  }

  // -------------------------------------------------------- a mount at work

  lemma {:induction false} LastIs(routes: seq<Route>, toks: seq<Token>, m: Method, k: nat)
    requires k < |routes| && Decides(routes[k], toks, m) && forall j :: k < j < |routes| ==> !Registers(routes[j], toks)
    ensures LastFor(routes, toks, m) == k
  {
  }

  /** The tokens of what a mount registers at literal text. */
  lemma MountTokens(p: string)
    requires Plain(p)
    ensures Tokens(p) == Some(Lits(p)) && Keys(p) == [] && Accepted(p)
    ensures Tokens(p + "/") == Some(Lits(p + "/")) && Keys(p + "/") == [] && Accepted(p + "/")
    ensures Tokens(p + "/*") == Some(Lits(p + "/") + [Star]) && Keys(p + "/*") == ["*"] && Accepted(p + "/*")
    ensures Lits(p) != Lits(p + "/") && Lits(p) != Lits(p + "/") + [Star] && Lits(p + "/") != Lits(p + "/") + [Star]
  {
    PlainTokens(p);
    PlainTokens(p + "/");
    TokensPlain(p + "/", "*");
    assert p + "/" + "*" == p + "/*";
    assert Tokens("*") == Some([Star]) && Keys("*") == ["*"];
    assert |Lits(p)| != |Lits(p + "/")| && |Lits(p)| != |Lits(p + "/") + [Star]|;
  }

  /** The search for registered literal text that is the path. */
  lemma LiteralFound(r: Router, verb: Method, path: string, rx: Matcher, k: nat)
    requires IsValid(verb) && path != "" && Plain(path) && k < |r.log| && r.log[k].pattern == path
    requires r.log[k].verb == MOUNTED && r.log[k].handler.Some?
    requires forall j :: k < j < |r.log| ==> !Registers(r.log[j], Lits(path))
    ensures Search(r, verb, path, rx)
         == Some(Find(Table(r.log, Lits(path)), Endpoint(r.log[k].handler, path, []), RouteParams([], [])))
  {
    hide Hits;
    hide Build;
    hide Table;
    hide Tokens;
    hide Keys;
    PlainTokens(path);
    DecidesExact(r.log[k], Lits(path), verb);
    MethodBits(verb);
    LastIs(r.log, Lits(path), verb, k);
    TableLast(r.log, Lits(path), verb);
    LiteralWins(r.log, verb, path, rx);
  }

  lemma SomeHandler(h: Option<Handler>)
    requires Core(h).Some?
    ensures h.Some?
  {
  }

  /** Behind a mount at literal text, requests for the mounted path, with or without a slash, go to the mounted router's root. */
  lemma {:induction false} MountedPath(site: seq<Router>, id: nat, verb: Method, rx: Matcher, log: seq<Route>, p: string, h: Option<Handler>, sub: nat)
    requires id < |site| && IsValid(verb) && site[id].routed && sub < id && Core(h) == Some(Mounted(sub))
    requires p != "" && Plain(p) && site[id].log == log + ThreeRoutes(p, h, sub)
    ensures Dispatch(site, id, verb, p, rx) == Dispatch(site, sub, verb, "/", rx)
    ensures Dispatch(site, id, verb, p + "/", rx) == Dispatch(site, sub, verb, "/", rx)
  {
    hide Search;
    hide Tokens;
    hide Keys;
    hide Dispatch;
    hide Core;
    hide Table;
    var r, k := site[id], |log|;
    SomeHandler(h);
    MountTokens(p);
    assert r.log[k].pattern == p && r.log[k + 1].pattern == p + "/" && r.log[k + 2].pattern == p + "/*";
    LiteralFound(r, verb, p, rx, k);
    LiteralFound(r, verb, p + "/", rx, k + 1);
    DispatchEnters(site, id, verb, p, rx, Search(r, verb, p, rx).value, sub);
    DispatchEnters(site, id, verb, p + "/", rx, Search(r, verb, p + "/", rx).value, sub);
  }

  lemma PlainFill(p: string)
    requires Plain(p)
    ensures Fill(p, []) == p
  {
    PlainTokens(p);
    LitsDerive(p, p, [], (text, v) => false, false);
    DerivesFill(p, p, [], (text, v) => false, false);
  }

  /** A path that the wildcard of a mount at literal text can be filled to. */
  lemma WildcardFill(p: string, v: string)
    requires Plain(p)
    ensures Fill(p + "/*", [v]) == p + "/" + v
  {
    hide Fill;
    hide Tokens;
    hide Keys;
    MountTokens(p);
    PlainFill(p);
    WildcardValue(p, [], v);
    assert [] + [v] == [v] && p + WILDCARD == p + "/*";
  }

  /** What a search finds on a router with nothing but a mount at literal text. */
  lemma OnlyMount(r: Router, verb: Method, path: string, rx: Matcher, p: string, h: Option<Handler>, sub: nat)
    requires IsValid(verb) && Plain(p) && r.log == ThreeRoutes(p, h, sub) && Search(r, verb, path, rx).Some?
    ensures var f := Search(r, verb, path, rx).value;
            f.endpoint.handler == h &&
            ( || (f.endpoint.pattern == p == path && f.leaf == Table(r.log, Lits(p)))
              || (f.endpoint.pattern == p + "/" == path && f.leaf == Table(r.log, Lits(p + "/")))
              || (exists v :: && f.endpoint.pattern == p + "/*" && f.params == RouteParams(["*"], [v]) && path == p + "/" + v
                              && f.leaf == Table(r.log, Lits(p + "/") + [Star])))
  {
    hide Hits;
    hide Build;
    hide Table;
    hide Tokens;
    hide Keys;
    hide Fill;
    hide LastFor;
    hide ValuesFit;
    var i := FirstServing(Hits(Build(r.log), path, rx), verb);
    var hit := Hits(Build(r.log), path, rx)[i];
    MatchRoundTrip(r.log, path, rx, i, verb);
    HitExact(r.log, path, rx, i);
    var j := LastFor(r.log, hit.route, verb);
    MountTokens(p);
    assert hit.values == [] || hit.values == [hit.values[0]] + hit.values[1..];
    PlainFill(p);
    PlainFill(p + "/");
    if j == 2 {
      assert hit.values == [hit.values[0]];
      WildcardFill(p, hit.values[0]);
    }
  }

  /** On such a router every path below the mounted one is found. */
  lemma BelowIsFound(r: Router, verb: Method, rx: Matcher, p: string, h: Option<Handler>, sub: nat, v: string)
    requires IsValid(verb) && Plain(p) && r.log == ThreeRoutes(p, h, sub) && h.Some?
    ensures Search(r, verb, p + "/" + v, rx).Some?
  {
    hide Hits;
    hide Build;
    hide Tokens;
    hide Keys;
    hide Fill;
    hide Table;
    hide Written;
    var toks := Lits(p + "/") + [Star];
    MountTokens(p);
    DecidesExact(r.log[2], toks, verb);
    LastIs(r.log, toks, verb, 2);
    LitsWritten(p + "/", [Star], [v], rx);
    StarTakesAll(v, rx);
    WildcardFill(p, v);
    SearchFinds(r.log, p + "/*", verb, [v], rx);
  }

  lemma StarTakesAll(v: string, rx: Matcher)
    ensures Written([Star], [v], rx)
  {
  }

  /** The mounted router is recorded at the wildcard only. */
  lemma RecordedAtWildcard(p: string, h: Option<Handler>, sub: nat)
    requires Plain(p)
    ensures var log := ThreeRoutes(p, h, sub);
            && Table(log, Lits(p)).subroutes == None && Table(log, Lits(p + "/")).subroutes == None
            && Table(log, Lits(p + "/") + [Star]).subroutes == Some(sub)
  {
    hide Table;
    hide Tokens;
    hide Keys;
    var log := ThreeRoutes(p, h, sub);
    MountTokens(p);
    RecordedBy(log, Lits(p));
    RecordedBy(log, Lits(p + "/"));
    RecordedLast(log, Lits(p + "/") + [Star], 2);
  }

  /** Requests for the mounted path itself. */
  lemma {:induction false} OwnPath(site: seq<Router>, id: nat, verb: Method, path: string, rx: Matcher, p: string, h: Option<Handler>, sub: nat)
    requires id < |site| && IsValid(verb) && sub < id && p != "" && Plain(p) && Core(h) == Some(Mounted(sub))
    requires site[id] == Router(ThreeRoutes(p, h, sub), true) && (path == p || path == p + "/")
    ensures Dispatch(site, id, verb, path, rx) == Dispatch(site, sub, verb, "/", rx) && Match(site, id, verb, path, rx)
  {
    hide Search;
    hide Tokens;
    hide Keys;
    hide Core;
    hide Table;
    hide Dispatch;
    hide Match;
    var r := site[id];
    SomeHandler(h);
    assert [] + r.log == r.log;
    MountedPath(site, id, verb, rx, [], p, h, sub);
    RecordedAtWildcard(p, h, sub);
    MountTokens(p);
    LiteralFound(r, verb, path, rx, if path == p then 0 else 1);
    MatchEnters(site, id, verb, path, rx, Search(r, verb, path, rx).value);
  }

  lemma {:induction false} BelowPath(site: seq<Router>, id: nat, verb: Method, v: string, rx: Matcher, p: string, h: Option<Handler>, sub: nat)
    requires id < |site| && IsValid(verb) && sub < id && p != "" && Plain(p) && Core(h) == Some(Mounted(sub)) && v != ""
    requires site[id] == Router(ThreeRoutes(p, h, sub), true)
    ensures Dispatch(site, id, verb, p + "/" + v, rx) == Dispatch(site, sub, verb, "/" + v, rx)
    ensures Match(site, id, verb, p + "/" + v, rx) == Match(site, sub, verb, "/" + v, rx)
  {
    hide Search;
    hide Tokens;
    hide Keys;
    hide Core;
    hide Table;
    hide Dispatch;
    hide Match;
    var r, path := site[id], p + "/" + v;
    SomeHandler(h);
    RecordedAtWildcard(p, h, sub);
    BelowIsFound(r, verb, rx, p, h, sub, v);
    OnlyMount(r, verb, path, rx, p, h, sub);
    var f := Search(r, verb, path, rx).value;
    var w :| f.endpoint.pattern == p + "/*" && f.params == RouteParams(["*"], [w]) && path == p + "/" + w;
    assert path[|p| + 1..] == v && path[|p| + 1..] == w;
    MountTokens(p);
    DispatchEnters(site, id, verb, path, rx, f, sub);
    MatchEnters(site, id, verb, path, rx, f);
  }

  lemma Elsewhere(r: Router, verb: Method, path: string, rx: Matcher, p: string, h: Option<Handler>, sub: nat)
    requires IsValid(verb) && Plain(p) && r.log == ThreeRoutes(p, h, sub) && path != p && !(p + "/" <= path)
    ensures Search(r, verb, path, rx) == None
  {
    hide Search;
    if Search(r, verb, path, rx).Some? {
      OnlyMount(r, verb, path, rx, p, h, sub);
    }
  }

  /**
   A router with nothing but a mount at literal text hands on the root path for the mounted path,
   and the rest of the path, from its `/` on, for every path below; it answers not found for
   all others. match follows the mounted router below the mounted path, and accepts that path itself.
   */
  lemma {:induction false} FreshMount(site: seq<Router>, id: nat, verb: Method, path: string, rx: Matcher,
                                      p: string, h: Option<Handler>, sub: nat)
    requires id < |site| && IsValid(verb) && sub < id && p != "" && Plain(p) && Core(h) == Some(Mounted(sub))
    requires site[id] == Router(ThreeRoutes(p, h, sub), true)
    ensures Dispatch(site, id, verb, path, rx)
         == if path == p then Dispatch(site, sub, verb, "/", rx)
            else if p + "/" <= path then Dispatch(site, sub, verb, path[|p|..], rx)
            else NotFound
    ensures Match(site, id, verb, path, rx)
       <==> path == p || path == p + "/" || (p + "/" <= path && Match(site, sub, verb, path[|p|..], rx))
  {
    hide Search;
    hide Core;
    hide Dispatch;
    hide Match;
    if path == p || path == p + "/" {
      OwnPath(site, id, verb, path, rx, p, h, sub);
      assert (p + "/")[|p|..] == "/";
    } else if p + "/" <= path {
      var v := path[|p| + 1..];
      assert path == p + "/" + v && path[|p|..] == "/" + v;
      BelowPath(site, id, verb, v, rx, p, h, sub);
    } else {
      Elsewhere(site[id], verb, path, rx, p, h, sub);
      MatchNeedsWalk(site, id, verb, path, rx);
    }
  }

  /** So it is once a new router has mounted another one there. */
  lemma {:induction false} AfterMount(site: seq<Router>, id: nat, verb: Method, path: string, rx: Matcher, p: string, sub: nat)
    requires id < |site| && IsValid(verb) && sub < id && p != "" && Plain(p) && p[|p| - 1] != '/'
    requires Mount(Start(id), 0, p, sub).ok
    requires site[id] == Router(Log(Mount(Start(id), 0, p, sub).family.entries), true)
    ensures Dispatch(site, id, verb, path, rx)
         == if path == p then Dispatch(site, sub, verb, "/", rx)
            else if p + "/" <= path then Dispatch(site, sub, verb, path[|p|..], rx)
            else NotFound
    ensures Match(site, id, verb, path, rx)
       <==> path == p || path == p + "/" || (p + "/" <= path && Match(site, sub, verb, path[|p|..], rx))
  {
    hide Dispatch;
    hide Match;
    hide Mount;
    hide Core;
    hide Layers;
    var h := ThreeRegistrations(Start(id), 0, p, sub);
    assert Log(Start(id).entries) + ThreeRoutes(p, h, sub) == ThreeRoutes(p, h, sub);
    FreshMount(site, id, verb, path, rx, p, h, sub);
  }
}
