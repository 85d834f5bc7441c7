/**
 Two calls that show where the router does not do what its comments promise: a second
 mount that is accepted, and a request that is served although match refuses it.
 */
module Counterexamples {
  import opened Wrappers
  import opened Pattern
  import opened Endpoints
  import opened Trie
  import opened TrieSteps
  import opened TrieContents
  import opened TrieSearch
  import opened TrieHits
  import opened TrieLookup
  import opened Runs
  import opened MuxSteps
  import opened Remount
  import opened Site
  import opened Hops
  import opened Fallback

  // ------------------------------------------------ a second mount, accepted

  const MOUNT := "/{b}/"

  /** A regexp's node with one child, for the text `/x`. */
  predicate ThenX(k: Tree) {
    |k.kids.statics| == 1 && k.kids.statics[0].prefix == "/x"
  }

  /** Below `/` there is one regexp, which hides any parameter from the lookup. */
  ghost predicate Hides(t: Tree) {
    && Good(t) && |t.kids.statics| == 1
    && var n := t.kids.statics[0];
       n.prefix == "/" && n.head == '/' && |n.kids.regexps| == 1 && ThenX(n.kids.regexps[0])
  }

  lemma BraceB(rest: string)
    requires rest != "" && rest[0] == '/'
    ensures var p := "{b}" + rest;
            && p[0] == '{' && FrontClosed(p) && IndexOf(p, '}') == CloseBrace(p, 1, 1) == 2 && FrontLength(p) == 3
            && p[3..] == rest && FrontParam(p).typ == Param && FrontParam(p).tail == '/' && FrontParam(p).key == "b"
  {
    var p := "{b}" + rest;
    assert p[1] == 'b' && p[2] == '}' && p[3] == '/';
    assert CloseBrace(p, 2, 1) == 2;
    assert p[1..2] == "b" && IndexOf("b", ':') == -1;
    assert IndexOf(p, '}') == 2 by {
      assert p[1..][1..] == p[2..] && IndexOf(p[2..], '}') == 0;
      assert p[1..][0] == 'b' && IndexOf(p[1..], '}') == 1;
    }
  }

  lemma BelowRegexp(k: Tree, rest: string)
    requires Good(k) && ThenX(k) && (rest == "/*" || rest == "//*")
    ensures !FindPattern(k, rest)
  {
    hide FindPattern;
    hide Good;
    AimLiteral(k, rest);
    assert "/x"[1] == 'x' && rest[1] != 'x';
    assert !(k.kids.statics[0].prefix <= rest);
  }

  lemma BelowFirst(n: Tree, rest: string)
    requires Good(n) && |n.kids.regexps| == 1 && ThenX(n.kids.regexps[0]) && (rest == "/*" || rest == "//*")
    ensures !FindPattern(n, "{b}" + rest)
  {
    hide FindPattern;
    hide Good;
    hide CloseBrace;
    hide IndexOf;
    hide FrontParam;
    hide ThenX;
    BraceB(rest);
    AimWild(n, "{b}" + rest);
    assert n.kids.Get(Regexp) == n.kids.regexps;
    KidGood(n, Regexp, 0);
    BelowRegexp(n.kids.regexps[0], rest);
  }

  /** The lookup goes into the regexp's node, which has no such child. */
  lemma NotFound(t: Tree, rest: string)
    requires Hides(t) && (rest == "/*" || rest == "//*")
    ensures !FindPattern(t, "/{b}" + rest)
  {
    hide FindPattern;
    hide Good;
    hide ThenX;
    var p := "/{b}" + rest;
    var n := t.kids.statics[0];
    assert t.kids.Get(Static) == t.kids.statics;
    KidGood(t, Static, 0);
    AimLiteral(t, p);
    assert p[1..] == "{b}" + rest && KeyIndex(t.kids.statics, Lit('/')) == 0;
    BelowFirst(n, rest);
  }

  lemma NotTaken(log: seq<Route>)
    requires Hides(Build(log))
    ensures !Taken(log, MOUNT)
  {
    hide FindPattern;
    hide Build;
    hide Hides;
    assert MOUNT + "*" == "/{b}" + "/*" && MOUNT + "/*" == "/{b}" + "//*";
    NotFound(Build(log), "/*");
    NotFound(Build(log), "//*");
  }

  lemma SlashStar()
    ensures Tokens("/*") == Some([Lit('/'), Star]) && Keys("/*") == ["*"]
  {
    PlainFlat("/");
    assert "/" + "*" == "/*" && "/*"[1..] == "*";
    assert Lits("/") + [Star] == [Lit('/'), Star];
  }

  lemma BraceWildcard()
    ensures Tokens("{b}/*") == Some([Par('/'), Lit('/'), Star]) && Keys("{b}/*") == ["b", "*"]
    ensures NextSegment("{b}/*") == Some(FrontParam("{b}/*")) && FrontParam("{b}/*").typ == Param && FrontParam("{b}/*").tail == '/'
  {
    hide Tokens;
    hide Keys;
    hide CloseBrace;
    hide IndexOf;
    hide WildSegment;
    hide NextSegment;
    var q := "{b}/*";
    assert q == "{b}" + "/*" && q[2 + 1..] == "/*";
    BraceB("/*");
    SlashStar();
    BraceTokens(q);
    BraceIsFront(q);
    assert [Par('/')] + [Lit('/'), Star] == [Par('/'), Lit('/'), Star] && ["b"] + ["*"] == ["b", "*"];
  }

  lemma WildcardAccepted()
    ensures Accepted("/{b}/*") && Tokens("{b}/*").Some? && Tokens("{b}/*").value[0] == Par('/')
    ensures Front("{b}/*").Some? && SegmentKey("{b}/*", Front("{b}/*").value) == Par('/') && Front("{b}/*").value.typ == Param
  {
    hide Tokens;
    hide Keys;
    hide NextSegment;
    hide FrontParam;
    BraceWildcard();
    TokensPlain("/", "{b}/*");
    assert "/" + "{b}/*" == "/{b}/*";
  }

  lemma FirstRegistered()
    ensures Hides(Build([ROUTE]))
  {
    Built();
    TrieIsTable([ROUTE], []);
  }

  /** Mounting adds a parameter beside the regexp, and no regexp. */
  lemma StillHides(r: Route)
    requires r.pattern == "/{b}/*"
    ensures Hides(Build([ROUTE, r]))
  {
    hide Register;
    hide NextSegment;
    var t, p, q := Build([ROUTE]), "/{b}/*", "{b}/*";
    Built();
    TrieIsTable([ROUTE], []);
    TrieIsTable([ROUTE, r], []);
    assert [ROUTE, r][..1] == [ROUTE];
    assert Front(p) == Some(STATIC_SEGMENT) && t.kids.Get(Static) == [SLASH];
    assert KeyIndex(t.kids.Get(Static), Lit('/')) == 0 && p[1..] == q;
    assert CommonPrefix(p, "/") == 1;
    InsertPast(t, p, STATIC_SEGMENT, 1, 0, r);
    WildcardAccepted();
    var seg := Front(q).value;
    assert SLASH.kids.Get(Param) == [];
    InsertNew(SLASH, q, seg, r);
    BranchGood(q, q, NewLeaf(EMPTY, r), []);
    assert ThenX(ID);
    assert Insert(SLASH, q, r).tree.kids.regexps == [ID] && Insert(SLASH, q, r).tree.prefix == "/";
  }

  /** After one registration the same pattern can be mounted twice. */
  lemma MountedTwice(id: nat, sub: nat, sub': nat)
    ensures var f := Handle(Start(id), 0, GET, ROUTE.pattern, ROUTE.handler, None).family;
            Mount(f, 0, MOUNT, sub).ok && Mount(Mount(f, 0, MOUNT, sub).family, 0, MOUNT, sub').ok
  {
    hide Build;
    var f := Handle(Start(id), 0, GET, ROUTE.pattern, ROUTE.handler, None).family;
    assert Log(f.entries) == [ROUTE];
    FirstRegistered();
    NotTaken([ROUTE]);
    MountsWildcard(f, sub);
    var g := Mount(f, 0, MOUNT, sub).family;
    assert Log(g.entries) == [ROUTE, Log(g.entries)[1]];
    StillHides(Log(g.entries)[1]);
    NotTaken(Log(g.entries));
    MountsWildcard(g, sub');
  }

  lemma MountsWildcard(f: Family, sub: nat)
    requires |f.muxes| == 1 && !Taken(Log(f.entries), MOUNT)
    ensures var r := Mount(f, 0, MOUNT, sub);
            && r.ok && |r.family.muxes| == 1 && |r.family.entries| == |f.entries| + 1
            && f.entries <= r.family.entries && r.family.entries[|f.entries|].route.pattern == "/{b}/*"
  {
    hide Taken;
    hide Accepted;
    hide Mount;
    hide Tokens;
    hide Front;
    WildcardAccepted();
    assert MOUNT + "*" == "/{b}/*";
    OneRegistration(f, 0, MOUNT, sub);
  }

  // ------------------------------------ braces inside a parameter, on a fresh router

  const NESTED := "/{y:d{2}}/"
  const INNER := "{y:d{2}}"

  lemma InnerBraces(rest: string)
    requires rest != "" && rest[0] == '/'
    ensures var q := INNER + rest;
            && q[0] == '{' && q[8..] == rest && CloseBrace(q, 1, 1) == 7 && IndexOf(q, '}') == 6 && q[7] == '}'
  {
    var q := INNER + rest;
    assert q[1] == 'y' && q[2] == ':' && q[3] == 'd' && q[4] == '{' && q[5] == '2' && q[6] == '}' && q[7] == '}';
    InnerClose(q);
    assert '}' !in q[..6];
    IndexIs(q, '}', 6);
  }

  lemma InnerClose(q: string)
    requires |q| > 7 && q[1] == 'y' && q[2] == ':' && q[3] == 'd' && q[4] == '{' && q[5] == '2' && q[6] == '}' && q[7] == '}'
    ensures CloseBrace(q, 1, 1) == 7
  {
    assert CloseBrace(q, 7, 1) == 7;
    assert CloseBrace(q, 6, 2) == 7;
    assert CloseBrace(q, 5, 2) == 7;
    assert CloseBrace(q, 4, 1) == 7;
    assert CloseBrace(q, 3, 1) == 7;
    assert CloseBrace(q, 2, 1) == 7;
  }

  lemma {:induction false} IndexIs(s: string, c: char, i: nat)
    requires i < |s| && s[i] == c && c !in s[..i]
    ensures IndexOf(s, c) == i
  {
    if i > 0 {
      assert s[0] == s[..i][0] && s[..i][1..] == s[1..][..i - 1];
      IndexIs(s[1..], c, i - 1);
    }
  }

  lemma NestedFields()
    ensures var seg := WildSegment(INNER + "/*", 0, 7); seg.typ == Regexp && seg.tail == '/' && seg.key == "y"
  {
    hide Anchor;
    hide IndexOf;
    var q := INNER + "/*";
    assert q[0 + 1..7] == "y:d{2}" && q[8] == '/' && "y:d{2}"[..1] == "y";
    IndexIs("y:d{2}", ':', 1);
  }

  /** One token for the regexp, with the tail `/`. */
  lemma NestedTokens()
    ensures var q := INNER + "/*"; var seg := WildSegment(q, 0, 7);
            && seg.typ == Regexp && seg.tail == '/' && seg.key == "y"
            && Tokens(q) == Some([TokenOf(seg), Lit('/'), Star]) && Keys(q) == ["y", "*"]
  {
    hide Tokens;
    hide Keys;
    hide CloseBrace;
    hide WildSegment;
    hide TokenOf;
    hide IndexOf;
    var q := INNER + "/*";
    InnerBraces("/*");
    BraceTokens(q);
    SlashStar();
    NestedFields();
    var tok := TokenOf(WildSegment(q, 0, 7));
    assert q[7 + 1..] == "/*" && [tok] + [Lit('/'), Star] == [tok, Lit('/'), Star] && ["y"] + ["*"] == ["y", "*"];
  }

  lemma NestedAccepted()
    ensures Accepted("/" + (INNER + "/*")) && Rooted("/" + (INNER + "/*"))
    ensures Mounts(NESTED) == ["/" + (INNER + "/*")] && Mountable(NESTED)
  {
    hide Tokens;
    hide Keys;
    hide WildSegment;
    NestedTokens();
    TokensPlain("/", INNER + "/*");
    assert NESTED + "*" == "/" + (INNER + "/*");
  }

  /** The segment of the whole wildcard. */
  lemma NestedSegment()
    ensures var p := "/" + (INNER + "/*");
            NextSegment(p).Some? && NextSegment(p).value.typ == Regexp && NextSegment(p).value.start == 1
  {
    hide Anchor;
    hide CloseBrace;
    hide IndexOf;
    var q := INNER + "/*";
    var p := "/" + q;
    InnerBraces("/*");
    CloseBraceShift("/", q, 1, 1);
    IndexIs(p, '{', 1);
    assert p[0] == '/' && p[1] == '{' && CloseBrace(p, 2, 1) == 8;
    assert IndexOf(p, '*') < 0 || IndexOf(p, '*') > 1;
    NestedKey(p);
  }

  lemma NestedKey(p: string)
    requires p == "/" + (INNER + "/*")
    ensures WildSegment(p, 1, 8).typ == Regexp
  {
    hide Anchor;
    hide IndexOf;
    assert p[1 + 1..8] == "y:d{2}";
    IndexIs("y:d{2}", ':', 1);
  }

  /** A trie with one regexp, tail `/`, below `/`. */
  ghost predicate OneRegexp(t: Tree) {
    && Good(t) && |t.kids.statics| == 1
    && var n := t.kids.statics[0];
       n.prefix == "/" && n.head == '/' && |n.kids.regexps| == 1 && n.kids.regexps[0].tail == '/'
  }

  lemma NestedBranch(leaf: Leaf)
    ensures var p := "/" + (INNER + "/*");
            && Branch(p, p, leaf).Some?
            && var n := Branch(p, p, leaf).value;
               n.typ == Static && n.prefix == "/" && n.head == '/' && |n.kids.regexps| == 1 && n.kids.regexps[0].tail == '/'
  {
    hide NextSegment;
    hide Branch;
    hide Tokens;
    hide WildSegment;
    var q := INNER + "/*";
    var p := "/" + q;
    NestedSegment();
    var seg := NextSegment(p).value;
    BranchText(p, seg, p, leaf);
    assert p[1..] == q && p[..1] == "/";
    NestedTokens();
    BranchGood(q, "", leaf, []);
    var next := Branch(q, "", leaf).value;
    assert next.typ == Regexp && next.tail == '/';
    OnlyChild(Tree(Static, '/', NUL, "/", None, EMPTY, NONE), next);
  }

  lemma NestedBuilt(r: Route)
    requires r.pattern == "/" + (INNER + "/*")
    ensures OneRegexp(Build([r]))
  {
    hide NextSegment;
    hide Branch;
    hide Register;
    var p := r.pattern;
    TrieIsTable([r], []);
    assert [r][..0] == [] && Build([]) == ROOT;
    InsertNew(ROOT, p, STATIC_SEGMENT, r);
    var leaf := NewLeaf(EMPTY, r);
    NestedBranch(leaf);
    OnlyChild(ROOT, Branch(p, p, leaf).value);
  }

  /** The lookup cuts the text at the first `}`, and the next one is not the regexp's tail. */
  lemma NestedNotTaken(log: seq<Route>)
    requires OneRegexp(Build(log))
    ensures !Taken(log, NESTED)
  {
    hide FindPattern;
    hide Build;
    assert NESTED + "*" == "/" + (INNER + "/*") && NESTED + "/*" == "/" + (INNER + "//*");
    NestedNotFound(Build(log), "/*");
    NestedNotFound(Build(log), "//*");
  }

  lemma NestedNotFound(t: Tree, rest: string)
    requires OneRegexp(t) && rest != "" && rest[0] == '/'
    ensures !FindPattern(t, "/" + (INNER + rest))
  {
    hide FindPattern;
    hide Good;
    hide CloseBrace;
    hide IndexOf;
    var q := INNER + rest;
    var p, n := "/" + q, t.kids.statics[0];
    assert t.kids.Get(Static) == t.kids.statics;
    KidGood(t, Static, 0);
    InnerBraces(rest);
    AimLiteral(t, p);
    assert p[1..] == q && KeyIndex(t.kids.statics, Lit('/')) == 0;
    WrongTail(n, q);
  }

  /** On a fresh router a pattern with braces inside a parameter can be mounted twice, with nothing registered in between. */
  lemma FreshMountedTwice(id: nat, sub: nat, sub': nat)
    ensures var r := Mount(Start(id), 0, NESTED, sub); r.ok && Mount(r.family, 0, NESTED, sub').ok
  {
    hide Build;
    hide Mountable;
    hide Goes;
    var f := Start(id);
    NestedAccepted();
    TakenExact(Log(f.entries), NESTED);
    NowhereAtFirst(Log(f.entries));
    MountExact(f, 0, NESTED, sub);
    var g := Mount(f, 0, NESTED, sub).family;
    NestedRegisters(f, sub);
    NestedBuilt(Log(g.entries)[0]);
    assert Log(g.entries) == [Log(g.entries)[0]];
    NestedNotTaken(Log(g.entries));
    MountExact(g, 0, NESTED, sub');
  }

  lemma NowhereAtFirst(log: seq<Route>)
    requires log == []
    ensures !Goes(Build(log), NESTED + "*") && !Goes(Build(log), NESTED + "/*")
  {
    assert Build(log) == ROOT;
  }

  lemma NestedRegisters(f: Family, sub: nat)
    requires |f.muxes| == 1 && !Taken(Log(f.entries), NESTED) && f.entries == []
    ensures var g := Mount(f, 0, NESTED, sub).family;
            |g.entries| == 1 && g.entries[0].route.pattern == "/" + (INNER + "/*")
  {
    hide Taken;
    hide Accepted;
    hide Mount;
    assert NESTED + "*" == "/" + (INNER + "/*");
    OneRegistration(f, 0, NESTED, sub);
  }

  // ------------------------------------------- an overwritten mount, refused

  /** A router mounted at `/a/`, and then a handler registered for what is below `/a/`. */
  const OVERWRITTEN := [Route(MOUNTED, "/a/*", Some(Mounted(0)), Some(0)), Route(ALL, "/a/*", Some(User(7)), None)]

  const SITE := [Router([], false), Router(OVERWRITTEN, true)]

  ghost const TOKS := Lits("/a/") + [Star]

  lemma LastWins()
    ensures Tokens("/a/*") == Some(TOKS) && Accepted("/a/*")
    ensures LastFor(OVERWRITTEN, TOKS, GET) == 1 && Table(OVERWRITTEN, TOKS).subroutes == Some(0)
  {
    PlainFlat("/a/");
    assert "/a/" + "*" == "/a/*";
    TokensPlain("/a/", "*");
    assert Keys("*") == ["*"];
    hide Tokens;
    hide Keys;
    assert OVERWRITTEN[..1] == [OVERWRITTEN[0]] && OVERWRITTEN[..1][..0] == [];
    assert Table([], TOKS) == EMPTY;
    assert Table(OVERWRITTEN[..1], TOKS) == Register(EMPTY, OVERWRITTEN[0]);
    assert Table(OVERWRITTEN, TOKS) == Register(Table(OVERWRITTEN[..1], TOKS), OVERWRITTEN[1]);
    assert GET in Registered(ALL);
  }

  lemma Overwrites(rx: Matcher)
    ensures var found := Search(SITE[1], GET, "/a/x", rx);
            found.Some? && found.value.leaf.subroutes == Some(0) && found.value.endpoint.handler == Some(User(7))
  {
    hide Hits;
    hide Build;
    hide Table;
    hide Accepted;
    hide Tokens;
    hide Reaches;
    var path := "/a/x";
    LastWins();
    assert "/a/" <= path && path[|"/a/"|..] == "x";
    DerivesLits("/a/", [Star], path, ["x"], rx, false);
    SearchComplete(OVERWRITTEN, TOKS, GET, path, ["x"], rx);
    var hits := Hits(Build(OVERWRITTEN), path, rx);
    var i := FirstServing(hits, GET);
    MatchRoundTrip(OVERWRITTEN, path, rx, i, GET);
    assert hits[i].route == TOKS;
    HitExact(OVERWRITTEN, path, rx, i);
  }

  /** Dispatch serves the request, and match refuses it: it strays. */
  lemma MatchRefusesServed(rx: Matcher)
    ensures Dispatch(SITE, 1, GET, "/a/x", rx) == Served(User(7)) && !Match(SITE, 1, GET, "/a/x", rx)
    ensures Strays(SITE, 1, GET, "/a/x", rx) && !MountsIntact(SITE)
  {
    Overwrites(rx);
    NothingServed(rx);
    if MountsIntact(SITE) {
      MatchCoversDispatch(SITE, 1, GET, "/a/x", rx);
    }
  }

  const MOUNTING := MountOp("/a/", 0)
  const HANDLING := HandleOp(ALL, "/a/*", Some(User(7)))

  /** A router reaches this log: it mounts another one at `/a/`, and then handles what is below `/a/`. */
  lemma Reachable()
    ensures var f := Run(Start(1), [(0, MOUNTING), (0, HANDLING)]);
            Log(f.entries) == OVERWRITTEN && f.muxes != [] && f.muxes[0].handler.Some?
  {
    hide Step;
    hide Run;
    hide Log;
    TwoCalls(Start(1), (0, MOUNTING), (0, HANDLING));
    FirstCall();
    SecondCall(Step(Start(1), 0, MOUNTING).family);
    RunOk(1, [(0, MOUNTING), (0, HANDLING)]);
  }

  lemma TwoCalls(f: Family, a: (nat, Op), b: (nat, Op))
    ensures Run(f, [a, b]) == Step(Step(f, a.0, a.1).family, b.0, b.1).family
  {
    hide Step;
    var g := Step(f, a.0, a.1).family;
    assert [a, b][1..] == [b] && Run(g, [b]) == Run(Step(g, b.0, b.1).family, []);
  }

  lemma FirstCall()
    ensures var g := Step(Start(1), 0, MOUNTING).family;
            && |g.muxes| == 1 && !g.muxes[0].isInline && g.muxes[0].handler.Some? && Log(g.entries) == [OVERWRITTEN[0]]
  {
    hide Goes;
    hide Build;
    hide Accepted;
    hide Taken;
    hide Mount;
    hide Tokens;
    var f := Start(1);
    FreshPlain(Log(f.entries));
    TakenExact(Log(f.entries), "/a/");
    OneRegistration(f, 0, "/a/", 0);
    assert "/a/" + "*" == "/a/*";
    assert Log(Handle(f, 0, MOUNTED, "/a/*", Some(Mounted(0)), Some(0)).family.entries) == [OVERWRITTEN[0]];
  }

  lemma SecondCall(f: Family)
    requires |f.muxes| == 1 && !f.muxes[0].isInline && f.muxes[0].handler.Some? && Log(f.entries) == [OVERWRITTEN[0]]
    ensures var g := Step(f, 0, HANDLING).family;
            Log(g.entries) == OVERWRITTEN && |g.muxes| == 1 && g.muxes[0].handler.Some?
  {
    hide Accepted;
    var g := Step(f, 0, HANDLING).family;
    assert Log(g.entries) == OVERWRITTEN;
  }

  lemma FreshPlain(log: seq<Route>)
    requires log == []
    ensures !Goes(Build(log), "/a/" + "*") && !Goes(Build(log), "/a/" + "/*")
  {
    assert Build(log) == ROOT;
  }

  /** Router 0 serves everything: the mount is overwritten all the same, and yet match accepts what dispatch serves. */
  const OPEN := [Router([Route(ALL, "/*", Some(User(8)), None)], true), Router(OVERWRITTEN, true)]

  lemma OverwrittenAndServed(rx: Matcher)
    ensures !MountsIntact(OPEN) && Dispatch(OPEN, 1, GET, "/a/x", rx) == Served(User(7)) && Match(OPEN, 1, GET, "/a/x", rx)
  {
    hide Hits;
    Overwrites(rx);
    EverythingServed(rx);
    StillOverwritten();
  }

  lemma StillOverwritten()
    ensures !MountsIntact(OPEN)
  {
    LastWins();
    TrieIsTable(OVERWRITTEN, TOKS);
    TableLast(OVERWRITTEN, TOKS, GET);
    var leaf := Lookup(Build(OPEN[1].log), TOKS);
    assert !MountIntact(leaf, GET);
  }

  ghost const OPEN_TOKS := Lits("/") + [Star]

  lemma OpenLast()
    ensures LastFor(OPEN[0].log, OPEN_TOKS, GET) == 0
  {
    PlainFlat("/");
    SlashStar();
    assert "/" + "*" == "/*";
    hide Tokens;
    hide Keys;
    assert GET in Registered(ALL);
    assert Decides(OPEN[0].log[0], OPEN_TOKS, GET);
  }

  lemma OpenServes(v: string, rx: Matcher)
    ensures Match(OPEN, 0, GET, "/" + v, rx)
  {
    hide Hits;
    hide Build;
    hide Table;
    hide LastFor;
    hide Accepted;
    hide Tokens;
    hide Reaches;
    var path := "/" + v;
    OpenLast();
    assert "/" <= path && path[|"/"|..] == v;
    DerivesLits("/", [Star], path, [v], rx, false);
    SearchComplete(OPEN[0].log, OPEN_TOKS, GET, path, [v], rx);
    OnlyLeaf(OPEN[0].log, path, rx);
  }

  lemma EverythingServed(rx: Matcher)
    ensures forall path :: path != "" && path[0] == '/' ==> Match(OPEN, 0, GET, path, rx)
  {
    hide Match;
    forall path | path != "" && path[0] == '/'
      ensures Match(OPEN, 0, GET, path, rx)
    {
      assert path == "/" + path[1..];
      OpenServes(path[1..], rx);
    }
  }

  /** No router is recorded in this log, so none is found. */
  lemma OnlyLeaf(log: seq<Route>, path: string, rx: Matcher)
    requires forall r <- log :: r.subroutes == None
    ensures match Search(Router(log, true), GET, path, rx) case None => true case Some(f) => f.leaf.subroutes == None
  {
    hide Hits;
    hide Build;
    hide Table;
    var hits := Hits(Build(log), path, rx);
    var i := FirstServing(hits, GET);
    if i < |hits| {
      HitExact(log, path, rx, i);
      RecordedBy(log, hits[i].route);
      assert forall n :: 0 <= n < |log| ==> log[n] in log;
    }
  }

  lemma NothingServed(rx: Matcher)
    ensures forall path :: !Match(SITE, 0, GET, path, rx)
  {
    forall path
      ensures Search(SITE[0], GET, path, rx) == None
    {
      assert Build([]) == ROOT;
      assert ROOT.kids.Get(Regexp) == [] && ROOT.kids.Get(Param) == [];
      assert Hits(ROOT, path, rx) == [];
    }
  }

  // ------------------------------------------- a mounted path, overlooked

  /** A router without routes, mounted at `/a`. */
  const EMPTY_BELOW := [Router([], false), Router(ThreeRoutes("/a", Some(Mounted(0)), 0), true)]

  /** match accepts the mounted path, although the mounted router answers not found; the mounts are intact. */
  lemma MatchOverlooks(rx: Matcher)
    ensures Match(EMPTY_BELOW, 1, GET, "/a", rx) && Dispatch(EMPTY_BELOW, 1, GET, "/a", rx) == Answer.NotFound
    ensures Overlooks(EMPTY_BELOW, 1, GET, "/a", rx) && MountsIntact(EMPTY_BELOW) && AllRouted(EMPTY_BELOW)
  {
    hide Match;
    hide Overlooks;
    hide MountsIntact;
    FreshMount(EMPTY_BELOW, 1, GET, "/a", rx, "/a", Some(Mounted(0)), 0);
    assert Dispatch(EMPTY_BELOW, 0, GET, "/", rx) == Answer.NotFound;
    MountedOnce();
    StillIntact(EMPTY_BELOW);
    MatchIffDispatch(EMPTY_BELOW, 1, GET, "/a", rx);
  }

  lemma MountedOnce()
    ensures forall r <- EMPTY_BELOW :: NotOverwritten(r.log) && forall route <- r.log :: EntersRecorded(route)
  {
    hide Tokens;
    hide Keys;
  }
}
