/**
 What the enumeration of hits contains: exactly the nodes with endpoints that a walk
 through the trie reaches, with the values captured on the walk.
 */
module TrieHits {
  import opened Pattern
  import opened Trie
  import opened TrieContents
  import opened TrieSearch

  // ------------------------------------------------------ one step of a walk

  /** Tokens that begin with a child's edge lead into that child. */
  lemma LookupKid(t: Tree, typ: NodeType, i: nat, toks: seq<Token>)
    requires GroupOk(t.kids.Get(typ), typ) && i < |t.kids.Get(typ)|
    ensures var k := t.kids.Get(typ)[i];
            var all := EdgeTokens(k) + toks;
            && all != [] && all[0] == EdgeKey(k) && k.typ == typ == TypeOf(all[0]) && KeyIndex(t.kids.Get(typ), all[0]) == i
            && EdgeTokens(k) <= all && all[|EdgeTokens(k)|..] == toks
            && Lookup(t, all) == Lookup(k, toks)
  {
    var ks := t.kids.Get(typ);
    var k := ks[i];
    assert k in ks;
    var all := EdgeTokens(k) + toks;
    assert EdgeTokens(k)[0] == EdgeKey(k) && all[0] == EdgeKey(k);
    assert KeyIndex(ks, all[0]) == i;
    assert all[|EdgeTokens(k)|..] == toks;
  }

  lemma StepStatic(t: Tree, i: nat, rest: seq<Token>, path: string, values: seq<string>, rx: Matcher)
    requires GroupOk(t.kids.statics, Static) && i < |t.kids.statics|
    ensures var k := t.kids.statics[i];
            Reaches(t, Lits(k.prefix) + rest, path, values, rx)
            <==> k.prefix <= path && Reaches(k, rest, path[|k.prefix|..], values, rx)
  {
    assert t.kids.Get(Static) == t.kids.statics;
    LookupKid(t, Static, i, rest);
    hide GroupOk;
    hide KeyIndex;
  }

  lemma StepWild(t: Tree, typ: NodeType, i: nat, rest: seq<Token>, path: string, v: string, values: seq<string>, rx: Matcher)
    requires typ in {Regexp, Param} && GroupOk(t.kids.Get(typ), typ) && i < |t.kids.Get(typ)|
    ensures var k := t.kids.Get(typ)[i];
            Reaches(t, [EdgeKey(k)] + rest, path, [v] + values, rx)
            <==> path != "" && (|| (Takes(EdgeKey(k), path, v, rx) && Reaches(k, rest, path[|v|..], values, rx))
                                || (v == "" && i == |t.kids.Get(typ)| - 1 && Reaches(k, rest, path, values, rx)))
  {
    LookupKid(t, typ, i, rest);
    assert ([v] + values)[1..] == values;
    hide GroupOk;
    hide KeyIndex;
    hide Takes;
  }

  lemma StepStar(t: Tree, rest: seq<Token>, path: string, values: seq<string>, rx: Matcher)
    requires GroupOk(t.kids.catchAlls, CatchAll) && t.kids.catchAlls != []
    ensures Reaches(t, [Star] + rest, path, [path] + values, rx) <==> Reaches(t.kids.catchAlls[0], rest, "", values, rx)
  {
    assert t.kids.Get(CatchAll) == t.kids.catchAlls && t.kids.catchAlls[0] in t.kids.catchAlls;
    LookupKid(t, CatchAll, 0, rest);
    assert ([path] + values)[1..] == values;
    hide GroupOk;
    hide KeyIndex;
  }

  lemma CaptureTakes(k: Tree, path: string, rx: Matcher)
    requires k.typ in {Regexp, Param} && EdgeOk(k)
    ensures Capture(k, path, rx).Some? ==> Takes(EdgeKey(k), path, path[..Capture(k, path, rx).value], rx)
    ensures forall v :: Takes(EdgeKey(k), path, v, rx) ==>
                          Capture(k, path, rx).Some? && v == path[..Capture(k, path, rx).value]
  {
  }

  // --------------------------------------------------- every hit is reached

  /** A node with endpoints, reached by using up the path. */
  ghost predicate Reached(t: Tree, path: string, rx: Matcher, h: Hit) {
    && Lookup(t, h.route) == h.leaf && h.leaf.endpoints != map[]
    && Reaches(t, h.route, path, h.values, rx)
  }

  ghost predicate AllReached(t: Tree, path: string, rx: Matcher, hits: seq<Hit>) {
    forall i :: 0 <= i < |hits| ==> Reached(t, path, rx, hits[i])
  }

  lemma ReachedConcat(t: Tree, path: string, rx: Matcher, a: seq<Hit>, b: seq<Hit>)
    requires AllReached(t, path, rx, a) && AllReached(t, path, rx, b)
    ensures AllReached(t, path, rx, a + b)
  {
    hide Reached;
  }

  lemma NoneReached(t: Tree, path: string, rx: Matcher)
    ensures AllReached(t, path, rx, [])
  {
  }

  /** Hits below the wild child `i`, reached by capturing `v`, off a path of which `below` is then left. */
  lemma WildReached(t: Tree, typ: NodeType, i: nat, path: string, v: string, below: string, rx: Matcher, hits: seq<Hit>)
    requires Good(t) && typ in {Regexp, Param} && i < |t.kids.Get(typ)| && path != ""
    requires var k := t.kids.Get(typ)[i];
             && (if Takes(EdgeKey(k), path, v, rx) then below == path[|v|..]
                 else v == "" && i == |t.kids.Get(typ)| - 1 && below == path)
             && AllReached(k, below, rx, hits)
    ensures var k := t.kids.Get(typ)[i]; AllReached(t, path, rx, Through([EdgeKey(k)], [v], hits))
  {
    hide Takes;
    hide Reaches;
    hide Lookup;
    var k := t.kids.Get(typ)[i];
    assert GroupOk(t.kids.Get(typ), typ) && k in t.kids.Get(typ);
    forall j | 0 <= j < |hits|
      ensures Reached(t, path, rx, Through([EdgeKey(k)], [v], hits)[j])
    {
      assert Reached(k, below, rx, hits[j]);
      LookupKid(t, typ, i, hits[j].route);
      StepWild(t, typ, i, hits[j].route, path, v, hits[j].values, rx);
    }
  }

  lemma {:induction false} HitsReached(t: Tree, path: string, rx: Matcher)
    requires Good(t)
    ensures AllReached(t, path, rx, Hits(t, path, rx))
    decreases t, 4, 0
  {
    hide AllReached;
    hide Good;
    var a, b := StaticHits(t, path, rx), WildHits(t, Regexp, path, rx);
    var c, d := WildHits(t, Param, path, rx), CatchAllHits(t, path, rx);
    StaticReached(t, path, rx);
    WildGroupReached(t, Regexp, path, rx);
    WildGroupReached(t, Param, path, rx);
    CatchAllReached(t, path, rx);
    ReachedConcat(t, path, rx, a, b);
    ReachedConcat(t, path, rx, a + b, c);
    ReachedConcat(t, path, rx, a + b + c, d);
  }

  lemma {:induction false} ArriveReached(k: Tree, path: string, rx: Matcher)
    requires Good(k)
    ensures AllReached(k, path, rx, Arrive(k, path, rx))
    decreases k, 5, 0
  {
    HitsReached(k, path, rx);
  }

  lemma {:induction false} StaticReached(t: Tree, path: string, rx: Matcher)
    requires Good(t)
    ensures AllReached(t, path, rx, StaticHits(t, path, rx))
    decreases t, 3, 0
  {
    hide Arrive;
    hide Reaches;
    hide Lookup;
    var ks := t.kids.statics;
    var i := KeyIndex(ks, Lit(FirstChar(path)));
    if i < |ks| && ks[i].prefix <= path {
      var k, rest := ks[i], path[|ks[i].prefix|..];
      assert t.kids.Get(Static) == ks;
      KidGood(t, Static, i);
      GroupGood(t, Static);
      ArriveReached(k, rest, rx);
      var hits := Arrive(k, rest, rx);
      forall j | 0 <= j < |hits|
        ensures Reached(t, path, rx, Through(Lits(k.prefix), [], hits)[j])
      {
        assert Reached(k, rest, rx, hits[j]);
        LookupKid(t, Static, i, hits[j].route);
        StepStatic(t, i, hits[j].route, path, hits[j].values, rx);
        assert [] + hits[j].values == hits[j].values;
      }
    }
  }

  lemma {:induction false} WildGroupReached(t: Tree, typ: NodeType, path: string, rx: Matcher)
    requires Good(t) && typ in {Regexp, Param}
    ensures AllReached(t, path, rx, WildHits(t, typ, path, rx))
    decreases t, 3, 0
  {
    hide AllReached;
    hide EachHits;
    hide FallbackHits;
    hide Good;
    var ks := t.kids.Get(typ);
    if ks == [] || path == "" {
      NoneReached(t, path, rx);
    } else {
      EachReached(t, typ, |ks|, path, rx);
      FallbackReached(t, typ, path, rx);
      ReachedConcat(t, path, rx, EachHits(t, typ, |ks|, path, rx), FallbackHits(t, typ, path, rx));
    }
  }

  lemma {:induction false} FallbackReached(t: Tree, typ: NodeType, path: string, rx: Matcher)
    requires Good(t) && typ in {Regexp, Param} && t.kids.Get(typ) != [] && path != ""
    ensures AllReached(t, path, rx, FallbackHits(t, typ, path, rx))
    decreases t, 2, 0
  {
    hide AllReached;
    hide Good;
    hide Hits;
    hide Takes;
    var i := |t.kids.Get(typ)| - 1;
    var k := t.kids.Get(typ)[i];
    KidGood(t, typ, i);
    HitsReached(k, path, rx);
    assert path[|""|..] == path;
    WildReached(t, typ, i, path, "", path, rx, Hits(k, path, rx));
  }

  lemma {:induction false} EachReached(t: Tree, typ: NodeType, n: nat, path: string, rx: Matcher)
    requires Good(t) && typ in {Regexp, Param} && n <= |t.kids.Get(typ)| && path != ""
    ensures AllReached(t, path, rx, EachHits(t, typ, n, path, rx))
    decreases t, 2, n
  {
    hide AllReached;
    hide Good;
    hide KidHits;
    if n == 0 {
      NoneReached(t, path, rx);
    } else {
      EachReached(t, typ, n - 1, path, rx);
      KidReached(t, typ, n - 1, path, rx);
      ReachedConcat(t, path, rx, EachHits(t, typ, n - 1, path, rx), KidHits(t, typ, n - 1, path, rx));
    }
  }

  lemma {:induction false} KidReached(t: Tree, typ: NodeType, i: nat, path: string, rx: Matcher)
    requires Good(t) && typ in {Regexp, Param} && i < |t.kids.Get(typ)| && path != ""
    ensures AllReached(t, path, rx, KidHits(t, typ, i, path, rx))
    decreases t, 1, 0
  {
    hide AllReached;
    hide Good;
    hide Arrive;
    hide Takes;
    hide Capture;
    var k := t.kids.Get(typ)[i];
    KidGood(t, typ, i);
    CaptureTakes(k, path, rx);
    if Capture(k, path, rx).None? {
      NoneReached(t, path, rx);
    } else {
      var p := Capture(k, path, rx).value;
      ArriveReached(k, path[p..], rx);
      WildReached(t, typ, i, path, path[..p], path[p..], rx, Arrive(k, path[p..], rx));
    }
  }

  lemma CatchAllReached(t: Tree, path: string, rx: Matcher)
    requires Good(t)
    ensures AllReached(t, path, rx, CatchAllHits(t, path, rx))
  {
    hide Hits;
    var ks := t.kids.catchAlls;
    if ks != [] {
      assert t.kids.Get(CatchAll) == ks;
      KidGood(t, CatchAll, 0);
      GroupGood(t, CatchAll);
      CatchAllHitsOne(t, path, rx);
      LookupKid(t, CatchAll, 0, []);
      StepStar(t, [], path, [], rx);
      assert [Star] + [] == [Star] && [path] + [] == [path];
    }
  }

  lemma CatchAllHitsOne(t: Tree, path: string, rx: Matcher)
    requires Good(t) && t.kids.catchAlls != []
    ensures var k := t.kids.catchAlls[0];
            CatchAllHits(t, path, rx) == if k.leaf.endpoints != map[] then [Hit([Star], [path], k.leaf)] else []
  {
    var k := t.kids.catchAlls[0];
    assert t.kids.Get(CatchAll) == t.kids.catchAlls;
    assert GroupOk(t.kids.catchAlls, CatchAll) && k in t.kids.catchAlls;
    assert k.kids == NONE;
    assert Hits(k, "", rx) == [];
    assert [Star] + [] == [Star] && [path] + [] == [path];
  }

  // ------------------------------------------------ every node reached is a hit

  ghost predicate Offers(hits: seq<Hit>, h: Hit) {
    exists i :: 0 <= i < |hits| && hits[i] == h
  }

  lemma OffersConcat(a: seq<Hit>, b: seq<Hit>, h: Hit)
    ensures Offers(a + b, h) <==> Offers(a, h) || Offers(b, h)
  {
    if Offers(a, h) {
      var i :| 0 <= i < |a| && a[i] == h;
      assert (a + b)[i] == h;
    }
    if Offers(b, h) {
      var i :| 0 <= i < |b| && b[i] == h;
      assert (a + b)[|a| + i] == h;
    }
  }

  lemma OffersThrough(toks: seq<Token>, values: seq<string>, hits: seq<Hit>, h: Hit)
    requires Offers(hits, h)
    ensures Offers(Through(toks, values, hits), Hit(toks + h.route, values + h.values, h.leaf))
  {
    var i :| 0 <= i < |hits| && hits[i] == h;
    assert Through(toks, values, hits)[i] == Hit(toks + h.route, values + h.values, h.leaf);
  }

  lemma {:induction false} ReachedOffered(t: Tree, toks: seq<Token>, path: string, values: seq<string>, rx: Matcher)
    requires Good(t) && toks != []
    requires Lookup(t, toks).endpoints != map[] && Reaches(t, toks, path, values, rx)
    ensures Offers(Hits(t, path, rx), Hit(toks, values, Lookup(t, toks)))
    decreases t, 4, 0
  {
    hide Offers;
    hide Reaches;
    hide Lookup;
    var h := Hit(toks, values, Lookup(t, toks));
    KidOffers(t, toks, path, values, rx);
    var a, b := StaticHits(t, path, rx), WildHits(t, Regexp, path, rx);
    var c, d := WildHits(t, Param, path, rx), CatchAllHits(t, path, rx);
    OffersConcat(a + b + c, d, h);
    OffersConcat(a + b, c, h);
    OffersConcat(a, b, h);
  }

  lemma {:induction false} ArriveOffers(k: Tree, toks: seq<Token>, path: string, values: seq<string>, rx: Matcher)
    requires Good(k)
    requires Lookup(k, toks).endpoints != map[] && Reaches(k, toks, path, values, rx)
    ensures Offers(Arrive(k, path, rx), Hit(toks, values, Lookup(k, toks)))
    decreases k, 5, 0
  {
    hide Hits;
    var h := Hit(toks, values, Lookup(k, toks));
    if toks == [] {
      assert Arrive(k, path, rx)[0] == h;
    } else {
      ReachedOffered(k, toks, path, values, rx);
      OffersConcat(if path == "" && k.leaf.endpoints != map[] then [Hit([], [], k.leaf)] else [], Hits(k, path, rx), h);
    }
  }

  ghost predicate GroupOffers(t: Tree, typ: NodeType, path: string, rx: Matcher, h: Hit) {
    match typ
    case Static => Offers(StaticHits(t, path, rx), h)
    case CatchAll => Offers(CatchAllHits(t, path, rx), h)
    case _ => Offers(WildHits(t, typ, path, rx), h)
  }

  /** The child that the first token leads to, and the tokens left below it. */
  lemma KidOnTheWay(t: Tree, toks: seq<Token>)
    requires Good(t) && toks != [] && Lookup(t, toks).endpoints != map[]
    ensures var ks := t.kids.Get(TypeOf(toks[0]));
            var i := KeyIndex(ks, toks[0]);
            && i < |ks| && Good(ks[i]) && EdgeOk(ks[i]) && ks[i].typ == TypeOf(toks[0]) && ks[i] in ks
            && |EdgeTokens(ks[i])| <= |toks|
            && toks == EdgeTokens(ks[i]) + toks[|EdgeTokens(ks[i])|..]
            && Lookup(ks[i], toks[|EdgeTokens(ks[i])|..]) == Lookup(t, toks)
  {
    var ks := t.kids.Get(TypeOf(toks[0]));
    var i := KeyIndex(ks, toks[0]);
    assert GroupOk(ks, TypeOf(toks[0])) && ks[i] in ks && GoodGroup(ks);
    assert toks == EdgeTokens(ks[i]) + toks[|EdgeTokens(ks[i])|..];
  }

  lemma {:induction false} KidOffers(t: Tree, toks: seq<Token>, path: string, values: seq<string>, rx: Matcher)
    requires Good(t) && toks != []
    requires Lookup(t, toks).endpoints != map[] && Reaches(t, toks, path, values, rx)
    ensures GroupOffers(t, TypeOf(toks[0]), path, rx, Hit(toks, values, Lookup(t, toks)))
    decreases t, 3, 0
  {
    hide Reaches;
    match TypeOf(toks[0]) {
      case Static => StaticOffers(t, toks, path, values, rx);
      case CatchAll => StarOffers(t, toks, path, values, rx);
      case _ => WildOffers(t, toks, path, values, rx);
    }
  }

  lemma {:induction false} StaticOffers(t: Tree, toks: seq<Token>, path: string, values: seq<string>, rx: Matcher)
    requires Good(t) && toks != [] && toks[0].Lit?
    requires Lookup(t, toks).endpoints != map[] && Reaches(t, toks, path, values, rx)
    ensures Offers(StaticHits(t, path, rx), Hit(toks, values, Lookup(t, toks)))
    decreases t, 2, 0
  {
    hide Arrive;
    hide Reaches;
    hide Lookup;
    KidOnTheWay(t, toks);
    GroupGood(t, Static);
    assert t.kids.Get(Static) == t.kids.statics;
    var i := KeyIndex(t.kids.statics, toks[0]);
    var k := t.kids.statics[i];
    var edge := Lits(k.prefix);
    var rest := toks[|edge|..];
    StepStatic(t, i, rest, path, values, rx);
    ArriveOffers(k, rest, path[|k.prefix|..], values, rx);
    OffersThrough(edge, [], Arrive(k, path[|k.prefix|..], rx), Hit(rest, values, Lookup(k, rest)));
    assert [] + values == values;
  }

  lemma StarOffers(t: Tree, toks: seq<Token>, path: string, values: seq<string>, rx: Matcher)
    requires Good(t) && toks != [] && toks[0].Star?
    requires Lookup(t, toks).endpoints != map[] && Reaches(t, toks, path, values, rx)
    ensures Offers(CatchAllHits(t, path, rx), Hit(toks, values, Lookup(t, toks)))
  {
    KidOnTheWay(t, toks);
    CatchAllHitsOne(t, path, rx);
    hide Hits;
    var ks := t.kids.catchAlls;
    assert t.kids.Get(CatchAll) == ks;
    assert GroupOk(ks, CatchAll) && ks[0] in ks && EdgeKey(ks[0]) == Star;
    assert ks[0].kids == NONE && Reaches(ks[0], toks[1..], "", values[1..], rx);
    NothingReached(ks[0], toks[1..], "", values[1..], rx);
    assert toks == [Star] && values == [path];
    assert CatchAllHits(t, path, rx)[0] == Hit(toks, values, Lookup(t, toks));
  }

  lemma NothingReached(k: Tree, toks: seq<Token>, path: string, values: seq<string>, rx: Matcher)
    requires k.kids == NONE
    ensures Reaches(k, toks, path, values, rx) ==> toks == [] && values == []
  {
    if toks != [] {
      assert k.kids.Get(TypeOf(toks[0])) == [];
    }
  }

  lemma {:induction false} WildOffers(t: Tree, toks: seq<Token>, path: string, values: seq<string>, rx: Matcher)
    requires Good(t) && toks != [] && (toks[0].Par? || toks[0].Rex?)
    requires Lookup(t, toks).endpoints != map[] && Reaches(t, toks, path, values, rx)
    ensures Offers(WildHits(t, TypeOf(toks[0]), path, rx), Hit(toks, values, Lookup(t, toks)))
    decreases t, 2, 0
  {
    hide Arrive;
    hide Hits;
    hide Takes;
    hide Capture;
    hide EachHits;
    hide FallbackHits;
    KidOnTheWay(t, toks);
    var typ := TypeOf(toks[0]);
    var ks := t.kids.Get(typ);
    var i := KeyIndex(ks, toks[0]);
    var k, rest := ks[i], toks[1..];
    var h := Hit(toks, values, Lookup(t, toks));
    if Takes(toks[0], path, values[0], rx) && Reaches(k, rest, path[|values[0]|..], values[1..], rx) {
      TakenOffers(t, typ, i, rest, path, values, rx);
      EachOffers(t, typ, i, |ks|, path, rx, h);
    } else {
      ReachedOffered(k, rest, path, values[1..], rx);
      FallbackOffers(t, typ, rest, path, values, rx);
    }
    OffersConcat(EachHits(t, typ, |ks|, path, rx), FallbackHits(t, typ, path, rx), h);
  }

  lemma {:induction false} TakenOffers(t: Tree, typ: NodeType, i: nat, rest: seq<Token>, path: string, values: seq<string>, rx: Matcher)
    requires Good(t) && typ in {Regexp, Param} && i < |t.kids.Get(typ)| && values != []
    requires var k := t.kids.Get(typ)[i];
             && Takes(EdgeKey(k), path, values[0], rx) && Reaches(k, rest, path[|values[0]|..], values[1..], rx)
             && Lookup(k, rest).endpoints != map[]
    ensures var k := t.kids.Get(typ)[i];
            Offers(KidHits(t, typ, i, path, rx), Hit([EdgeKey(k)] + rest, values, Lookup(k, rest)))
    decreases t, 1, 0
  {
    hide Arrive;
    hide Takes;
    hide Capture;
    hide Reaches;
    hide Lookup;
    hide Good;
    var k := t.kids.Get(typ)[i];
    KidGood(t, typ, i);
    CaptureTakes(k, path, rx);
    var p := Capture(k, path, rx).value;
    ArriveOffers(k, rest, path[p..], values[1..], rx);
    OffersThrough([EdgeKey(k)], [path[..p]], Arrive(k, path[p..], rx), Hit(rest, values[1..], Lookup(k, rest)));
    assert [path[..p]] + values[1..] == values;
  }

  lemma FallbackOffers(t: Tree, typ: NodeType, rest: seq<Token>, path: string, values: seq<string>, rx: Matcher)
    requires t.kids.Get(typ) != [] && values != [] && values[0] == ""
    requires var k := t.kids.Get(typ)[|t.kids.Get(typ)| - 1]; Offers(Hits(k, path, rx), Hit(rest, values[1..], Lookup(k, rest)))
    ensures var k := t.kids.Get(typ)[|t.kids.Get(typ)| - 1];
            Offers(FallbackHits(t, typ, path, rx), Hit([EdgeKey(k)] + rest, values, Lookup(k, rest)))
  {
    hide Hits;
    hide Lookup;
    var k := t.kids.Get(typ)[|t.kids.Get(typ)| - 1];
    OffersThrough([EdgeKey(k)], [""], Hits(k, path, rx), Hit(rest, values[1..], Lookup(k, rest)));
    assert [""] + values[1..] == values;
  }

  lemma {:induction false} EachOffers(t: Tree, typ: NodeType, i: nat, n: nat, path: string, rx: Matcher, h: Hit)
    requires i < n <= |t.kids.Get(typ)| && Offers(KidHits(t, typ, i, path, rx), h)
    ensures Offers(EachHits(t, typ, n, path, rx), h)
    decreases n
  {
    OffersConcat(EachHits(t, typ, n - 1, path, rx), KidHits(t, typ, n - 1, path, rx), h);
    if i < n - 1 {
      EachOffers(t, typ, i, n - 1, path, rx, h);
    }
  }

  // ------------------------------------------------- every hit takes a step

  ghost predicate AllStep(hits: seq<Hit>) {
    forall i :: 0 <= i < |hits| ==> hits[i].route != []
  }

  lemma {:induction false} EachHitsStep(t: Tree, typ: NodeType, n: nat, path: string, rx: Matcher)
    requires n <= |t.kids.Get(typ)|
    ensures AllStep(EachHits(t, typ, n, path, rx))
    decreases n
  {
    hide Arrive;
    if n > 0 {
      EachHitsStep(t, typ, n - 1, path, rx);
    }
  }

  lemma WildHitsStep(t: Tree, typ: NodeType, path: string, rx: Matcher)
    ensures AllStep(WildHits(t, typ, path, rx))
  {
    hide EachHits;
    hide Hits;
    EachHitsStep(t, typ, |t.kids.Get(typ)|, path, rx);
  }

  /** A search never returns the node it started from. */
  lemma HitsStep(t: Tree, path: string, rx: Matcher)
    requires Good(t)
    ensures AllStep(Hits(t, path, rx))
  {
    hide Arrive;
    hide WildHits;
    WildHitsStep(t, Regexp, path, rx);
    WildHitsStep(t, Param, path, rx);
    var i := KeyIndex(t.kids.statics, Lit(FirstChar(path)));
    if i < |t.kids.statics| {
      assert t.kids.Get(Static) == t.kids.statics;
      assert GroupOk(t.kids.statics, Static) && t.kids.statics[i] in t.kids.statics;
    }
  }

  // ---------------------------------------------------------------- exactness

  /**
   The hits of a search are exactly the nodes with endpoints, other than the one it starts
   from, that a walk reaches, each with the values of that walk.
   */
  lemma HitsExact(t: Tree, path: string, rx: Matcher, h: Hit)
    requires Good(t)
    ensures Offers(Hits(t, path, rx), h) <==> h.route != [] && Reached(t, path, rx, h)
  {
    hide Hits;
    hide Reaches;
    hide Lookup;
    HitsReached(t, path, rx);
    HitsStep(t, path, rx);
    if h.route != [] && Reached(t, path, rx, h) {
      ReachedOffered(t, h.route, path, h.values, rx);
    }
  }

  // ------------------------------------------------- walks and derivations

  lemma {:induction false} DerivesLits(text: string, toks: seq<Token>, path: string, values: seq<string>, rx: Matcher, lax: bool)
    ensures Derives(Lits(text) + toks, path, values, rx, lax)
        <==> text <= path && Derives(toks, path[|text|..], values, rx, lax)
  {
    if text == "" {
      assert Lits(text) + toks == toks && path[0..] == path;
    } else {
      var all := Lits(text) + toks;
      assert all[1..] == Lits(text[1..]) + toks;
      assert all[0] == Lit(text[0]);
      if path != "" {
        DerivesLits(text[1..], toks, path[1..], values, rx, lax);
        assert text <= path <==> text[0] == path[0] && text[1..] <= path[1..];
        if text <= path {
          assert path[1..][|text| - 1..] == path[|text|..];
        }
      }
    }
  }

  /** Every walk is a derivation, the empty string allowed at parameters and regexps. */
  lemma {:induction false} ReachesDerives(t: Tree, toks: seq<Token>, path: string, values: seq<string>, rx: Matcher)
    requires Good(t) && Reaches(t, toks, path, values, rx)
    ensures Derives(toks, path, values, rx, true)
    decreases t
  {
    hide Takes;
    if toks != [] {
      var ks := t.kids.Get(TypeOf(toks[0]));
      var i := KeyIndex(ks, toks[0]);
      var k, rest := ks[i], toks[|EdgeTokens(ks[i])|..];
      KidGood(t, TypeOf(toks[0]), i);
      assert toks == EdgeTokens(k) + rest;
      if toks[0].Lit? {
        ReachesDerives(k, rest, path[|k.prefix|..], values, rx);
        DerivesLits(k.prefix, rest, path, values, rx, true);
      } else if toks[0].Star? {
        NothingReached(k, rest, "", values[1..], rx);
        assert values == [path];
      } else if Takes(toks[0], path, values[0], rx) && Reaches(k, rest, path[|values[0]|..], values[1..], rx) {
        ReachesDerives(k, rest, path[|values[0]|..], values[1..], rx);
      } else {
        ReachesDerives(k, rest, path, values[1..], rx);
        assert path[|values[0]|..] == path;
      }
    }
  }

  /** Every derivation without the empty fallback is a walk to a node, if the trie has the node. */
  lemma {:induction false} DerivesReaches(t: Tree, toks: seq<Token>, path: string, values: seq<string>, rx: Matcher)
    requires Good(t) && Lookup(t, toks).endpoints != map[] && Derives(toks, path, values, rx, false)
    ensures Reaches(t, toks, path, values, rx)
    decreases t
  {
    hide Takes;
    if toks != [] {
      KidOnTheWay(t, toks);
      var ks := t.kids.Get(TypeOf(toks[0]));
      var k := ks[KeyIndex(ks, toks[0])];
      var rest := toks[|EdgeTokens(k)|..];
      if toks[0].Lit? {
        DerivesLits(k.prefix, rest, path, values, rx, false);
        DerivesReaches(k, rest, path[|k.prefix|..], values, rx);
      } else if toks[0].Star? {
        assert rest == [] && values[1..] == [];
      } else {
        DerivesReaches(k, rest, path[|values[0]|..], values[1..], rx);
      }
    }
  }

  ghost predicate Sound(t: Tree, path: string, rx: Matcher, h: Hit) {
    && h.route != [] && Lookup(t, h.route) == h.leaf && h.leaf.endpoints != map[]
    && Derives(h.route, path, h.values, rx, true)
  }

  /** Every hit is a node of the trie whose tokens derive the path with the captured values. */
  lemma HitsSound(t: Tree, path: string, rx: Matcher)
    requires Good(t)
    ensures forall i :: 0 <= i < |Hits(t, path, rx)| ==> Sound(t, path, rx, Hits(t, path, rx)[i])
  {
    hide Hits;
    hide Lookup;
    hide Derives;
    hide Reaches;
    HitsReached(t, path, rx);
    HitsStep(t, path, rx);
    var hits := Hits(t, path, rx);
    forall i | 0 <= i < |hits|
      ensures Sound(t, path, rx, hits[i])
    {
      assert Reached(t, path, rx, hits[i]);
      ReachesDerives(t, hits[i].route, path, hits[i].values, rx);
    }
  }

  /**
   Completeness under backtracking: a node whose tokens derive the path, every capture
   taken as the token says, is among the hits, whatever else the trie holds.
   */
  lemma HitsComplete(t: Tree, toks: seq<Token>, path: string, values: seq<string>, rx: Matcher)
    requires Good(t) && toks != []
    requires Lookup(t, toks).endpoints != map[] && Derives(toks, path, values, rx, false)
    ensures Offers(Hits(t, path, rx), Hit(toks, values, Lookup(t, toks)))
  {
    DerivesReaches(t, toks, path, values, rx);
    ReachedOffered(t, toks, path, values, rx);
  }
}
