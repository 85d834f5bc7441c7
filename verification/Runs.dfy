/** What holds of a trie after any sequence of registrations. */
module Runs {
  import opened Wrappers
  import opened Pattern
  import opened Endpoints
  import opened Trie
  import opened TrieContents
  import opened TrieSearch
  import opened TrieHits
  import opened TrieLookup
  import opened SearchReport

  /** The trie after registering `routes` in turn, refused ones included. */
  ghost function Build(routes: seq<Route>): Tree {
    if routes == [] then ROOT
    else
      var last := routes[|routes| - 1];
      Insert(Build(routes[..|routes| - 1]), last.pattern, last).tree
  }

  /** The plain table it stands for: a leaf for every token sequence, updated by each accepted registration. */
  ghost function Table(routes: seq<Route>, toks: seq<Token>): Leaf {
    if routes == [] then EMPTY
    else
      var last := routes[|routes| - 1];
      After(Table(routes[..|routes| - 1], toks), last.pattern, last, toks)
  }

  /** The trie is the table, whatever was registered and refused before, and it keeps its invariant. */
  lemma {:induction false} TrieIsTable(routes: seq<Route>, toks: seq<Token>)
    ensures Good(Build(routes)) && Build(routes).typ == Static
    ensures Lookup(Build(routes), toks) == Table(routes, toks)
  {
    if routes == [] {
      BranchEnd(ROOT, []);
    } else {
      var last := routes[|routes| - 1];
      TrieIsTable(routes[..|routes| - 1], toks);
      InsertRefines(Build(routes[..|routes| - 1]), last.pattern, last, toks);
    }
  }

  /** Is this an accepted registration for these tokens? */
  ghost predicate Registers(r: Route, toks: seq<Token>) {
    Accepted(r.pattern) && Tokens(r.pattern) == Some(toks)
  }

  /** Does this registration decide the method's endpoint under these tokens? */
  ghost predicate Decides(r: Route, toks: seq<Token>, m: Method) {
    Accepted(r.pattern) && Tokens(r.pattern) == Some(toks) && m in Registered(r.verb)
  }

  /** Index of the last registration that decides, or -1. */
  ghost function LastFor(routes: seq<Route>, toks: seq<Token>, m: Method): (i: int)
    ensures -1 <= i < |routes|
    ensures i >= 0 ==> Decides(routes[i], toks, m)
    ensures forall j :: i < j < |routes| ==> !Decides(routes[j], toks, m)
  {
    if routes == [] then -1
    else if Decides(routes[|routes| - 1], toks, m) then |routes| - 1
    else LastFor(routes[..|routes| - 1], toks, m)
  }

  /** A valid method's endpoint in the table is that of the last registration that decides it. */
  lemma {:induction false} TableLast(routes: seq<Route>, toks: seq<Token>, m: Method)
    requires IsValid(m)
    ensures var i := LastFor(routes, toks, m);
            var eps := Table(routes, toks).endpoints;
            if i < 0 then m !in eps
            else m in eps && eps[m] == Endpoint(routes[i].handler, routes[i].pattern, Keys(routes[i].pattern))
  {
    if routes != [] {
      var front, last := routes[..|routes| - 1], routes[|routes| - 1];
      TableLast(front, toks, m);
      SetAllExact(Table(front, toks).endpoints, last, m);
      assert m != UNKNOWN;
    }
  }

  /** A registration decides a valid method exactly if it is accepted for these tokens and is for that method, or for all. */
  lemma DecidesExact(r: Route, toks: seq<Token>, m: Method)
    requires IsValid(m)
    ensures Decides(r, toks, m)
       <==> && Tokens(r.pattern) == Some(toks) && NoDuplicates(Keys(r.pattern))
            && (m == r.verb || r.verb.value & 1022 == 1022)
  {
    hide Registered;
    RegisteredExact(r.verb, m);
  }

  // ------------------------------------------------------------ round trip

  /** A token sequence with `values` written in place of its wild tokens. */
  function FillTokens(toks: seq<Token>, values: seq<string>): string {
    if toks == [] then ""
    else if toks[0].Lit? then [toks[0].c] + FillTokens(toks[1..], values)
    else if values == [] then ""
    else values[0] + FillTokens(toks[1..], values[1..])
  }

  lemma {:induction false} FillIsFillTokens(p: string, values: seq<string>)
    requires Tokens(p).Some?
    ensures Fill(p, values) == FillTokens(Tokens(p).value, values)
    decreases |p|
  {
    if p == "" {
    } else if p[0] == '*' {
      assert p[1..] == "" && [Star][1..] == [];
    } else {
      var rest := p[FrontLength(p)..];
      assert Tokens(p).value[1..] == Tokens(rest).value;
      if p[0] != '{' {
        FillIsFillTokens(rest, values);
      } else if values != [] {
        FillIsFillTokens(rest, values[1..]);
      }
    }
  }

  /** The value of a wild token is a prefix of the path. */
  lemma TakesPrefix(tok: Token, path: string, v: string, rx: Matcher)
    requires Takes(tok, path, v, rx) || v == ""
    ensures |v| <= |path| && v + path[|v|..] == path
  {
  }

  lemma {:induction false} DerivesFillTokens(toks: seq<Token>, path: string, values: seq<string>, rx: Matcher, lax: bool)
    requires Derives(toks, path, values, rx, lax)
    ensures FillTokens(toks, values) == path
  {
    hide Takes;
    if toks != [] {
      match toks[0] {
        case Lit(_) =>
          DerivesFillTokens(toks[1..], path[1..], values, rx, lax);
        case Star =>
          assert toks[1..] == [];
          assert path + "" == path;
        case _ =>
          var rest := path[|values[0]|..];
          TakesPrefix(toks[0], path, values[0], rx);
          DerivesFillTokens(toks[1..], rest, values[1..], rx, lax);
      }
    }
  }

  /** Filling a pattern with the values that derive a path gives the path back. */
  lemma DerivesFill(p: string, path: string, values: seq<string>, rx: Matcher, lax: bool)
    requires Tokens(p).Some? && Derives(Tokens(p).value, path, values, rx, lax)
    ensures Fill(p, values) == path
  {
    FillIsFillTokens(p, values);
    DerivesFillTokens(Tokens(p).value, path, values, rx, lax);
  }

  /** Parameter values hold neither `/` nor their tail; regexp values are empty or accepted, and hold no tail. */
  ghost predicate ValuesFit(toks: seq<Token>, values: seq<string>, rx: Matcher)
    requires |values| == Wilds(toks)
  {
    if toks == [] then true
    else
      match toks[0]
      case Lit(_) => ValuesFit(toks[1..], values, rx)
      case Par(tail) => '/' !in values[0] && tail !in values[0] && ValuesFit(toks[1..], values[1..], rx)
      case Rex(text, tail) => (values[0] == "" || (rx(text, values[0]) && tail !in values[0])) && ValuesFit(toks[1..], values[1..], rx)
      case Star => ValuesFit(toks[1..], values[1..], rx)
  }

  lemma {:induction false} DerivesFit(toks: seq<Token>, path: string, values: seq<string>, rx: Matcher, lax: bool)
    requires Derives(toks, path, values, rx, lax)
    ensures |values| == Wilds(toks) && ValuesFit(toks, values, rx)
  {
    if toks != [] {
      match toks[0] {
        case Lit(_) => DerivesFit(toks[1..], path[1..], values, rx, lax);
        case Star => assert toks[1..] == [] && values[1..] == [];
        case _ => DerivesFit(toks[1..], path[|values[0]|..], values[1..], rx, lax);
      }
    }
  }

  /**
   Whatever a search on a trie built by registrations finds for a valid method was
   registered for it last, under the pattern it reports; that pattern, filled with the
   captured values, is the path, with one value for each key, each fit for its place.
   */
  lemma MatchRoundTrip(routes: seq<Route>, path: string, rx: Matcher, i: nat, m: Method)
    requires IsValid(m) && i < |Hits(Build(routes), path, rx)|
    requires Serves(Hits(Build(routes), path, rx)[i].leaf.endpoints, m)
    ensures var h := Hits(Build(routes), path, rx)[i];
            var ep := h.leaf.endpoints[m];
            var j := LastFor(routes, h.route, m);
            && j >= 0 && ep == Endpoint(routes[j].handler, routes[j].pattern, Keys(routes[j].pattern))
            && |ep.paramKeys| == |h.values| && Fill(ep.pattern, h.values) == path
            && |h.values| == Wilds(h.route) && ValuesFit(h.route, h.values, rx)
  {
    var t := Build(routes);
    var h := Hits(t, path, rx)[i];
    TrieIsTable(routes, h.route);
    HitsSound(t, path, rx);
    assert Sound(t, path, rx, h);
    TableLast(routes, h.route, m);
    var j := LastFor(routes, h.route, m);
    DerivesFill(routes[j].pattern, path, h.values, rx, true);
    DerivesFit(h.route, path, h.values, rx, true);
    KeysCount(routes[j].pattern);
  }

  // ---------------------------------------------------------- completeness

  /**
   If the last registration for a method under some pattern has a handler, and the pattern
   derives the path, then the search finds a handler for the method, whatever else is registered.
   */
  lemma SearchComplete(routes: seq<Route>, toks: seq<Token>, m: Method, path: string, values: seq<string>, rx: Matcher)
    requires IsValid(m) && toks != [] && Derives(toks, path, values, rx, false)
    requires LastFor(routes, toks, m) >= 0 && routes[LastFor(routes, toks, m)].handler.Some?
    ensures var hits := Hits(Build(routes), path, rx); FirstServing(hits, m) < |hits|
  {
    var t := Build(routes);
    TrieIsTable(routes, toks);
    TableLast(routes, toks, m);
    HitsComplete(t, toks, path, values, rx);
    var h := Hit(toks, values, Lookup(t, toks));
    var i :| 0 <= i < |Hits(t, path, rx)| && Hits(t, path, rx)[i] == h;
    assert Serves(Hits(t, path, rx)[i].leaf.endpoints, m);
  }

  // -------------------------------------- when the empty fallback matters

  /** Every parameter or regexp is followed by its tail, or by nothing. */
  ghost predicate TailsFollow(toks: seq<Token>) {
    toks == [] ||
    (&& (|toks| > 1 && (toks[0].Par? || toks[0].Rex?) ==> toks[1] == Lit(toks[0].tail))
     && TailsFollow(toks[1..]))
  }

  /** In a pattern that parses, that is so unless a parameter is directly followed by `{` or `*`. */
  lemma {:induction false} PatternTails(p: string)
    requires Tokens(p).Some?
    ensures TailsFollow(Tokens(p).value)
       <==> forall tok <- Tokens(p).value :: tok.Par? || tok.Rex? ==> tok.tail != '{' && tok.tail != '*'
    decreases |p|
  {
    if p != "" && p[0] != '*' {
      var toks, rest := Tokens(p).value, p[FrontLength(p)..];
      var below := Tokens(rest).value;
      assert toks == [toks[0]] + below && toks[1..] == below;
      FrontToken(p);
      PatternTails(rest);
      hide Tokens;
      hide FrontLength;
      assert forall tok :: tok in toks <==> tok == toks[0] || tok in below;
    }
  }

  /** A literal, or a parameter whose tail is the character that follows it. */
  lemma FrontToken(p: string)
    requires Tokens(p).Some? && p != "" && p[0] != '*'
    ensures var tok, rest := Tokens(p).value[0], p[FrontLength(p)..];
            && !tok.Star?
            && (rest != "" && !tok.Lit? ==> tok.tail == rest[0])
            && (rest != "" ==> Tokens(rest).Some? && Tokens(rest).value != []
                               && (Tokens(rest).value[0].Lit? <==> rest[0] != '{' && rest[0] != '*')
                               && (Tokens(rest).value[0].Lit? ==> Tokens(rest).value[0] == Lit(rest[0])))
  {
    hide CloseBrace;
    hide IndexOf;
    hide Anchor;
  }

  /** Is some regexp of the pattern met right before its tail, so that only the fallback can pass it? */
  predicate FallsBack(toks: seq<Token>, path: string)
    decreases |toks|
  {
    toks != [] && path != "" &&
    match toks[0]
    case Lit(c) => path[0] == c && FallsBack(toks[1..], path[1..])
    case Star => false
    case Par(tail) => Stop(path, tail).Some? && FallsBack(toks[1..], path[Stop(path, tail).value..])
    case Rex(_, tail) =>
      path[0] == tail || (Stop(path, tail).Some? && FallsBack(toks[1..], path[Stop(path, tail).value..]))
  }

  /** Is some regexp that does not accept the empty string met right before its tail? */
  predicate Rejects(toks: seq<Token>, path: string, rx: Matcher)
    decreases |toks|
  {
    toks != [] && path != "" &&
    match toks[0]
    case Lit(c) => path[0] == c && Rejects(toks[1..], path[1..], rx)
    case Star => false
    case Par(tail) => Stop(path, tail).Some? && Rejects(toks[1..], path[Stop(path, tail).value..], rx)
    case Rex(text, tail) =>
      || (path[0] == tail && !rx(text, ""))
      || (Stop(path, tail).Some? && Rejects(toks[1..], path[Stop(path, tail).value..], rx))
  }

  /** Does every regexp accept the value captured for it? */
  predicate RegexpsAccept(toks: seq<Token>, values: seq<string>, rx: Matcher) {
    if toks == [] || values == [] then true
    else if toks[0].Lit? then RegexpsAccept(toks[1..], values, rx)
    else (toks[0].Rex? ==> rx(toks[0].text, values[0])) && RegexpsAccept(toks[1..], values[1..], rx)
  }

  /**
   Where tails follow, the path alone decides: a derivation needs the fallback exactly if
   some regexp stands right before its tail, and every regexp accepts its value exactly
   if none that rejects the empty string does.
   */
  lemma {:induction false} FallbackExact(toks: seq<Token>, path: string, values: seq<string>, rx: Matcher)
    requires TailsFollow(toks) && Derives(toks, path, values, rx, true)
    ensures Derives(toks, path, values, rx, false) <==> !FallsBack(toks, path)
    ensures RegexpsAccept(toks, values, rx) <==> !Rejects(toks, path, rx)
  {
    if toks == [] {
    } else if toks[0].Lit? {
      FallbackExact(toks[1..], path[1..], values, rx);
    } else if toks[0].Star? {
      assert RegexpsAccept(toks[1..], values[1..], rx);
    } else {
      var rest := toks[1..];
      FallbackExact(rest, path[|values[0]|..], values[1..], rx);
      if values[0] == "" {
        EmptyAtTail(toks[0], rest, path, values[1..], rx, true);
        assert path[0..] == path;
      }
      WildTaken(toks[0], path, values[0], rx);
    }
  }

  /** What a wild token takes ends where the token stops; a regexp takes nothing right before its tail. */
  lemma WildTaken(tok: Token, path: string, v: string, rx: Matcher)
    requires path != "" && (tok.Par? || tok.Rex?)
    ensures Takes(tok, path, v, rx) ==> Stop(path, tok.tail) == Some(|v|)
    ensures tok.Rex? && Takes(tok, path, v, rx) ==> path[0] != tok.tail && rx(tok.text, v)
  {
  }

  /** An empty value that does not end the pattern stands right before its tail. */
  lemma EmptyAtTail(tok: Token, rest: seq<Token>, path: string, values: seq<string>, rx: Matcher, lax: bool)
    requires tok.Par? || tok.Rex?
    requires rest != [] ==> rest[0] == Lit(tok.tail)
    requires path != "" && Derives(rest, path, values, rx, lax)
    ensures rest != [] && path[0] == tok.tail && Stop(path, tok.tail) == Some(0)
    ensures tok.Par? ==> Takes(tok, path, "", rx)
  {
  }

  /** What is in the table was registered. */
  lemma {:induction false} TableFrom(routes: seq<Route>, toks: seq<Token>)
    ensures Table(routes, toks).endpoints != map[] ==> exists r <- routes :: Registers(r, toks)
  {
    if routes != [] {
      TableFrom(routes[..|routes| - 1], toks);
      assert routes[|routes| - 1] in routes;
    }
  }

  /**
   Every hit is a leaf of the table that a walk reaches. If its parameters are followed by
   their tails, the path and the pattern decide whether the walk needed the fallback, and
   whether every regexp accepts the value captured for it.
   */
  lemma HitExact(routes: seq<Route>, path: string, rx: Matcher, i: nat)
    requires i < |Hits(Build(routes), path, rx)|
    ensures var h := Hits(Build(routes), path, rx)[i];
            && h.route != [] && h.leaf == Table(routes, h.route) && h.leaf.endpoints != map[]
            && Reaches(Build(routes), h.route, path, h.values, rx)
            && (TailsFollow(h.route) ==>
                  && (Derives(h.route, path, h.values, rx, false) <==> !FallsBack(h.route, path))
                  && (RegexpsAccept(h.route, h.values, rx) <==> !Rejects(h.route, path, rx)))
  {
    hide Hits;
    hide Build;
    hide Derives;
    hide Reaches;
    hide FallsBack;
    hide Rejects;
    hide RegexpsAccept;
    var t := Build(routes);
    var h := Hits(t, path, rx)[i];
    TrieIsTable(routes, h.route);
    HitsExact(t, path, rx, h);
    ReachesDerives(t, h.route, path, h.values, rx);
    if TailsFollow(h.route) {
      FallbackExact(h.route, path, h.values, rx);
    }
  }

  /** There is a registration that decides the method's endpoint under these tokens, and the last one has a handler. */
  ghost predicate Answers(routes: seq<Route>, toks: seq<Token>, m: Method) {
    LastFor(routes, toks, m) >= 0 && routes[LastFor(routes, toks, m)].handler.Some?
  }

  /** The search for a valid method succeeds exactly if some walk reaches a leaf with a handler for it. */
  lemma SearchExact(routes: seq<Route>, m: Method, path: string, rx: Matcher)
    requires IsValid(m)
    ensures var hits := Hits(Build(routes), path, rx);
            FirstServing(hits, m) < |hits|
            <==> exists toks, values ::
                   toks != [] && Reaches(Build(routes), toks, path, values, rx) && Answers(routes, toks, m)
  {
    hide Hits;
    hide Build;
    hide Reaches;
    var t := Build(routes);
    var hits := Hits(t, path, rx);
    var i := FirstServing(hits, m);
    if i < |hits| {
      HitExact(routes, path, rx, i);
      TableLast(routes, hits[i].route, m);
      assert Answers(routes, hits[i].route, m);
    }
    if toks, values :| toks != [] && Reaches(t, toks, path, values, rx) && Answers(routes, toks, m) {
      TrieIsTable(routes, toks);
      TableLast(routes, toks, m);
      HitsExact(t, path, rx, Hit(toks, values, Lookup(t, toks)));
    }
  }

  lemma OneBit(m: Method)
    requires IsValid(m)
    ensures m.value & 1022 != 1022
  {
  }

  /** A method is not served where every pattern that the path reaches has been registered for other single methods only. */
  lemma OtherMethods(routes: seq<Route>, m: Method, path: string, rx: Matcher)
    requires IsValid(m)
    requires forall r, values :: r in routes && Accepted(r.pattern) && Reaches(Build(routes), Tokens(r.pattern).value, path, values, rx)
                                 ==> IsValid(r.verb) && r.verb != m
    ensures var hits := Hits(Build(routes), path, rx); FirstServing(hits, m) == |hits|
  {
    hide Hits;
    hide Build;
    hide Reaches;
    SearchExact(routes, m, path, rx);
    if toks, values :| toks != [] && Reaches(Build(routes), toks, path, values, rx) && Answers(routes, toks, m) {
      var r := routes[LastFor(routes, toks, m)];
      DecidesExact(r, toks, m);
      assert r in routes && Reaches(Build(routes), Tokens(r.pattern).value, path, values, rx);
      OneBit(r.verb);
    }
  }

  /**
   A search that fails leaves the method-not-allowed hint set exactly if it was set before,
   or some walk reaches a leaf with endpoints, none of which serves the method.
   */
  lemma HintExact(routes: seq<Route>, m: Method, path: string, rx: Matcher, before: Marks, after: Marks)
    requires Reports(Hits(Build(routes), path, rx), m, before, None, after)
    ensures after.hint <==>
              before.hint || exists toks, values ::
                toks != [] && Reaches(Build(routes), toks, path, values, rx)
                && Table(routes, toks).endpoints != map[] && !Serves(Table(routes, toks).endpoints, m)
  {
    hide Hits;
    hide Build;
    hide Reaches;
    hide Table;
    var t := Build(routes);
    var hits := Hits(t, path, rx);
    assert FirstServing(hits, m) == |hits|;
    if hits != [] {
      HitExact(routes, path, rx, 0);
      assert !Serves(hits[0].leaf.endpoints, m);
    }
    if toks, values :| toks != [] && Reaches(t, toks, path, values, rx)
                       && Table(routes, toks).endpoints != map[] && !Serves(Table(routes, toks).endpoints, m) {
      TrieIsTable(routes, toks);
      HitsExact(t, path, rx, Hit(toks, values, Lookup(t, toks)));
    }
  }

  /** On this path no registered pattern needs the fallback, and all have their parameters followed by their tails. */
  ghost predicate Straight(routes: seq<Route>, path: string) {
    forall r <- routes | Accepted(r.pattern) ::
      TailsFollow(Tokens(r.pattern).value) && !FallsBack(Tokens(r.pattern).value, path)
  }

  /** Then reaching a registered leaf is deriving the path from its tokens, with no reference to the trie. */
  lemma StraightReaches(routes: seq<Route>, toks: seq<Token>, path: string, values: seq<string>, rx: Matcher)
    requires Straight(routes, path) && Table(routes, toks).endpoints != map[]
    ensures Reaches(Build(routes), toks, path, values, rx) <==> Derives(toks, path, values, rx, false)
  {
    hide Build;
    hide Reaches;
    hide Derives;
    hide Lookup;
    hide FallsBack;
    TrieIsTable(routes, toks);
    TableFrom(routes, toks);
    if Reaches(Build(routes), toks, path, values, rx) {
      ReachesDerives(Build(routes), toks, path, values, rx);
      FallbackExact(toks, path, values, rx);
    }
    if Derives(toks, path, values, rx, false) {
      DerivesReaches(Build(routes), toks, path, values, rx);
    }
  }

  /** SearchExact where no pattern needs the fallback. */
  lemma SearchStraight(routes: seq<Route>, m: Method, path: string, rx: Matcher)
    requires IsValid(m) && Straight(routes, path)
    ensures var hits := Hits(Build(routes), path, rx);
            FirstServing(hits, m) < |hits|
            <==> exists toks, values :: toks != [] && Derives(toks, path, values, rx, false) && Answers(routes, toks, m)
  {
    hide Hits;
    hide Build;
    hide Reaches;
    hide Derives;
    hide Table;
    SearchExact(routes, m, path, rx);
    if toks, values :| toks != [] && Reaches(Build(routes), toks, path, values, rx) && Answers(routes, toks, m) {
      TableLast(routes, toks, m);
      StraightReaches(routes, toks, path, values, rx);
    }
    if toks, values :| toks != [] && Derives(toks, path, values, rx, false) && Answers(routes, toks, m) {
      TableLast(routes, toks, m);
      StraightReaches(routes, toks, path, values, rx);
    }
  }

  /** HintExact where no pattern needs the fallback. */
  lemma HintStraight(routes: seq<Route>, m: Method, path: string, rx: Matcher, before: Marks, after: Marks)
    requires Straight(routes, path)
    requires Reports(Hits(Build(routes), path, rx), m, before, None, after)
    ensures after.hint <==>
              before.hint || exists toks, values ::
                toks != [] && Derives(toks, path, values, rx, false)
                && Table(routes, toks).endpoints != map[] && !Serves(Table(routes, toks).endpoints, m)
  {
    hide Hits;
    hide Build;
    hide Reaches;
    hide Derives;
    hide Table;
    HintExact(routes, m, path, rx, before, after);
    if toks, values :| toks != [] && Reaches(Build(routes), toks, path, values, rx)
                       && Table(routes, toks).endpoints != map[] && !Serves(Table(routes, toks).endpoints, m) {
      StraightReaches(routes, toks, path, values, rx);
    }
    if toks, values :| toks != [] && Derives(toks, path, values, rx, false)
                       && Table(routes, toks).endpoints != map[] && !Serves(Table(routes, toks).endpoints, m) {
      StraightReaches(routes, toks, path, values, rx);
    }
  }

  /** Without regexps no pattern needs the fallback on any path. */
  lemma {:induction false} NoRegexpNoFallback(toks: seq<Token>, path: string)
    requires forall tok <- toks :: !tok.Rex?
    ensures !FallsBack(toks, path)
    decreases |toks|
  {
    if toks != [] && path != "" {
      NoRegexpNoFallback(toks[1..], path[1..]);
      if toks[0].Par? && Stop(path, toks[0].tail).Some? {
        NoRegexpNoFallback(toks[1..], path[Stop(path, toks[0].tail).value..]);
      }
    }
  }

  // ----------------------------------------------------- literal patterns

  /** A literal pattern derives itself, capturing nothing, and no other path. */
  lemma LitsDerive(text: string, path: string, values: seq<string>, rx: Matcher, lax: bool)
    ensures Derives(Lits(text), path, values, rx, lax) <==> text == path && values == []
  {
    DerivesLits(text, [], path, values, rx, lax);
    assert Lits(text) + [] == Lits(text);
    if text <= path && path[|text|..] == "" {
      assert path == text + path[|text|..];
    }
  }

  lemma PlainTokens(text: string)
    requires Plain(text)
    ensures Tokens(text) == Some(Lits(text)) && Keys(text) == [] && Accepted(text)
  {
    TokensPlain(text, "");
    assert text + "" == text && Lits(text) + [] == Lits(text);
  }

  /**
   With literal patterns only, the search is a table lookup of the path: it finds a handler
   exactly if the path is not empty and is registered with one, and then with no values.
   */
  lemma StaticSearch(routes: seq<Route>, m: Method, path: string, rx: Matcher)
    requires IsValid(m) && forall r <- routes :: Plain(r.pattern)
    ensures var hits := Hits(Build(routes), path, rx);
            var i := FirstServing(hits, m);
            && (i < |hits| <==> path != "" && Serves(Table(routes, Lits(path)).endpoints, m))
            && (i < |hits| ==> hits[i] == Hit(Lits(path), [], Table(routes, Lits(path))))
  {
    hide Good;
    hide Hits;
    var t := Build(routes);
    var hits := Hits(t, path, rx);
    var i := FirstServing(hits, m);
    if i < |hits| {
      var h := hits[i];
      MatchRoundTrip(routes, path, rx, i, m);
      var p := routes[LastFor(routes, h.route, m)].pattern;
      PlainTokens(p);
      TrieIsTable(routes, h.route);
      HitsSound(t, path, rx);
      assert Sound(t, path, rx, h);
      LitsDerive(p, path, h.values, rx, true);
      HitsStep(t, path, rx);
    }
    if path != "" && Serves(Table(routes, Lits(path)).endpoints, m) {
      TableLast(routes, Lits(path), m);
      LitsDerive(path, path, [], rx, false);
      SearchComplete(routes, Lits(path), m, path, [], rx);
    }
  }

  lemma LitsOfPrefix(prefix: string, path: string)
    ensures Lits(prefix) <= Lits(path) <==> prefix <= path
    ensures prefix <= path ==> Lits(path)[|prefix|..] == Lits(path[|prefix|..])
    ensures prefix <= path ==> Lits(prefix) + Lits(path[|prefix|..]) == Lits(path)
  {
    if Lits(prefix) <= Lits(path) {
      forall i | 0 <= i < |prefix|
        ensures prefix[i] == path[i]
      {
        assert Lits(prefix)[i] == Lits(path)[i];
      }
    }
  }

  /** A literal registration of the path itself comes before every other hit, whatever else the trie holds. */
  lemma {:induction false} LiteralFirst(t: Tree, path: string, rx: Matcher)
    requires Good(t) && path != "" && Lookup(t, Lits(path)).endpoints != map[]
    ensures Hits(t, path, rx) != [] && Hits(t, path, rx)[0] == Hit(Lits(path), [], Lookup(t, Lits(path)))
    decreases t
  {
    hide WildHits;
    hide CatchAllHits;
    var ks := t.kids.statics;
    assert t.kids.Get(Static) == ks && Lits(path)[0] == Lit(path[0]);
    var i := KeyIndex(ks, Lit(path[0]));
    KidGood(t, Static, i);
    var k := ks[i];
    var rest := path[|k.prefix|..];
    LitsOfPrefix(k.prefix, path);
    assert Lookup(t, Lits(path)) == Lookup(k, Lits(rest));
    if rest != "" {
      LiteralFirst(k, rest, rx);
    }
    assert Arrive(k, rest, rx)[0] == Hit(Lits(rest), [], Lookup(k, Lits(rest)));
    assert StaticHits(t, path, rx)[0] == Hit(Lits(k.prefix) + Lits(rest), [] + [], Lookup(k, Lits(rest)));
  }

  /** If the path itself is registered, with a handler for the method, the search returns that. */
  lemma LiteralWins(routes: seq<Route>, m: Method, path: string, rx: Matcher)
    requires path != "" && Serves(Table(routes, Lits(path)).endpoints, m)
    ensures var hits := Hits(Build(routes), path, rx);
            var i := FirstServing(hits, m);
            i < |hits| && hits[i] == Hit(Lits(path), [], Table(routes, Lits(path)))
  {
    hide Hits;
    hide Build;
    TrieIsTable(routes, Lits(path));
    LiteralFirst(Build(routes), path, rx);
  }

  /** No two accepted registrations are for the same tokens. */
  ghost predicate OneEach(routes: seq<Route>) {
    forall i, j, toks :: 0 <= i < j < |routes| && Registers(routes[i], toks) ==> !Registers(routes[j], toks)
  }

  lemma {:induction false} TableOfOne(routes: seq<Route>, toks: seq<Token>)
    requires OneEach(routes)
    ensures forall i :: 0 <= i < |routes| && Registers(routes[i], toks) ==> Table(routes, toks) == Register(EMPTY, routes[i])
    ensures (forall i :: 0 <= i < |routes| ==> !Registers(routes[i], toks)) ==> Table(routes, toks) == EMPTY
  {
    if routes != [] {
      var front := routes[..|routes| - 1];
      TableOfOne(front, toks);
      assert forall i :: 0 <= i < |front| ==> routes[i] == front[i];
    }
  }

  /** Registered once each, in whatever order, patterns make the same table. */
  lemma OrderIrrelevant(a: seq<Route>, b: seq<Route>, toks: seq<Token>)
    requires multiset(a) == multiset(b) && OneEach(a) && OneEach(b)
    ensures Lookup(Build(a), toks) == Lookup(Build(b), toks)
  {
    TrieIsTable(a, toks);
    TrieIsTable(b, toks);
    TableOfOne(a, toks);
    TableOfOne(b, toks);
    if i :| 0 <= i < |a| && Registers(a[i], toks) {
      assert a[i] in multiset(b);
      var j :| 0 <= j < |b| && b[j] == a[i];
    } else {
      forall j | 0 <= j < |b|
        ensures !Registers(b[j], toks)
      {
        assert b[j] in multiset(a);
        var i :| 0 <= i < |a| && a[i] == b[j];
      }
    }
  }

  // ------------------------------------------------------- mounted patterns

  lemma {:induction false} TableKept(routes: seq<Route>, i: nat, toks: seq<Token>)
    requires i < |routes| && Registers(routes[i], toks)
    ensures Table(routes, toks).endpoints != map[]
  {
    if i < |routes| - 1 {
      TableKept(routes[..|routes| - 1], i, toks);
    }
  }

  /**
   A registered pattern has its node, whatever is registered later. The lookup finds it
   exactly if its own walk arrives, and so, where every parameter is closed by the first `}`
   after it, whenever the wanted nodes are the ones it takes.
   */
  lemma MountedIsFound(routes: seq<Route>, i: nat, pattern: string)
    requires i < |routes| && routes[i].pattern == pattern != "" && Accepted(pattern)
    ensures var t, toks := Build(routes), Tokens(pattern).value;
            && HasNode(t, toks) && (FindPattern(t, pattern) <==> Goes(t, pattern))
            && (Flat(pattern) && Middle(t, toks) ==> FindPattern(t, pattern))
  {
    hide FindPattern;
    hide Tokens;
    hide Build;
    hide Goes;
    var t, toks := Build(routes), Tokens(pattern).value;
    TrieIsTable(routes, toks);
    TableKept(routes, i, toks);
    LookupHasNode(t, toks);
    FindPatternGoes(t, pattern);
    if Flat(pattern) && Middle(t, toks) {
      TokensStarLast(pattern);
      GoesAims(t, pattern);
      MiddleExact(t, toks);
    }
  }
}
