/**
 The order of a search, told on walks: two walks are compared at the node where they part.
 It does not mention the enumeration, and the enumeration is proved to follow it.
 */
module TrieRank {
  import opened Wrappers
  import opened Pattern
  import opened Endpoints
  import opened Trie
  import opened TrieContents
  import opened TrieSearch
  import opened TrieHits
  import opened Runs

  /** Literal text is tried first, then regexps, then parameters, then a catch-all. */
  function Rank(tok: Token): nat {
    match tok
    case Lit(_) => 0
    case Rex(_, _) => 1
    case Par(_) => 2
    case Star => 3
  }

  /** Does a walk with these values pass its first token by the empty fallback? */
  predicate FallsHere(tok: Token, path: string, values: seq<string>, rx: Matcher) {
    (tok.Par? || tok.Rex?) && !(values != [] && Takes(tok, path, values[0], rx))
  }

  /**
   Is the walk along `a` with the values `u` tried before the one along `b` with `v`? Where
   they part, a walk that ends there comes first; then the kinds of token decide; then a
   capture comes before the fallback; then the place of the child in its group decides.
   */
  ghost predicate Before(t: Tree, path: string, a: seq<Token>, u: seq<string>, b: seq<Token>, v: seq<string>, rx: Matcher)
    decreases t, 0
  {
    if a == [] || b == [] then a == [] && b != []
    else if Rank(a[0]) != Rank(b[0]) then Rank(a[0]) < Rank(b[0])
    else if FallsHere(a[0], path, u, rx) != FallsHere(b[0], path, v, rx) then FallsHere(b[0], path, v, rx)
    else
      var ks := t.kids.Get(TypeOf(a[0]));
      var i, j := KeyIndex(ks, a[0]), KeyIndex(ks, b[0]);
      if i != j || i == |ks| then i < j
      else BeforeBelow(ks[i], path, a, u, b, v, rx)
  }

  /** Both walks go on below the child `k`. */
  ghost predicate BeforeBelow(k: Tree, path: string, a: seq<Token>, u: seq<string>, b: seq<Token>, v: seq<string>, rx: Matcher)
    requires a != [] && b != []
    decreases k, 1
  {
    var n := |EdgeTokens(k)|;
    n <= |a| && n <= |b| &&
    match a[0]
    case Lit(_) => n <= |path| && Before(k, path[n..], a[n..], u, b[n..], v, rx)
    case Star => false
    case _ =>
      && u != [] && v != []
      && (if FallsHere(a[0], path, u, rx) then Before(k, path, a[1..], u[1..], b[1..], v[1..], rx)
          else Before(k, path[|u[0]|..], a[1..], u[1..], b[1..], v[1..], rx))
  }

  ghost predicate HitBefore(t: Tree, path: string, g: Hit, h: Hit, rx: Matcher) {
    Before(t, path, g.route, g.values, h.route, h.values, rx)
  }

  lemma {:induction false} NotBeforeItself(t: Tree, path: string, a: seq<Token>, u: seq<string>, rx: Matcher)
    ensures !Before(t, path, a, u, a, u, rx)
    decreases t
  {
    hide Takes;
    if a != [] {
      var ks := t.kids.Get(TypeOf(a[0]));
      var i := KeyIndex(ks, a[0]);
      if i < |ks| && |EdgeTokens(ks[i])| <= |a| {
        var k, n := ks[i], |EdgeTokens(ks[i])|;
        if a[0].Lit? {
          if n <= |path| { NotBeforeItself(k, path[n..], a[n..], u, rx); }
        } else if !a[0].Star? && u != [] {
          if FallsHere(a[0], path, u, rx) {
            NotBeforeItself(k, path, a[1..], u[1..], rx);
          } else {
            NotBeforeItself(k, path[|u[0]|..], a[1..], u[1..], rx);
          }
        }
      }
    }
  }

  /** Below a shared child, the walks compare as their rests do. */
  lemma BeforeStatic(t: Tree, i: nat, path: string, a: seq<Token>, u: seq<string>, b: seq<Token>, v: seq<string>, rx: Matcher)
    requires GroupOk(t.kids.statics, Static) && i < |t.kids.statics| && t.kids.statics[i].prefix <= path
    ensures var k := t.kids.statics[i];
            var edge := Lits(k.prefix);
            Before(t, path, edge + a, u, edge + b, v, rx) <==> Before(k, path[|k.prefix|..], a, u, b, v, rx)
  {
    hide KeyIndex;
    hide Lookup;
    assert t.kids.Get(Static) == t.kids.statics;
    LookupKid(t, Static, i, a);
    LookupKid(t, Static, i, b);
    hide GroupOk;
  }

  lemma BeforeWild(t: Tree, typ: NodeType, i: nat, path: string, w: string, a: seq<Token>, u: seq<string>, b: seq<Token>, v: seq<string>,
                   rx: Matcher)
    requires typ in {Regexp, Param} && GroupOk(t.kids.Get(typ), typ) && i < |t.kids.Get(typ)|
    ensures var k := t.kids.Get(typ)[i];
            Before(t, path, [EdgeKey(k)] + a, [w] + u, [EdgeKey(k)] + b, [w] + v, rx)
            <==> Before(k, if Takes(EdgeKey(k), path, w, rx) then path[|w|..] else path, a, u, b, v, rx)
  {
    hide KeyIndex;
    hide Lookup;
    hide Takes;
    LookupKid(t, typ, i, a);
    LookupKid(t, typ, i, b);
    hide GroupOk;
    assert ([w] + u)[1..] == u && ([w] + v)[1..] == v;
  }

  lemma TakesOne(tok: Token, path: string, v: string, w: string, rx: Matcher)
    requires Takes(tok, path, v, rx) && Takes(tok, path, w, rx)
    ensures v == w
  {
  }

  /** The first step of a walk. */
  lemma WalkStep(t: Tree, a: seq<Token>, path: string, u: seq<string>, rx: Matcher)
    requires Good(t) && a != [] && Reaches(t, a, path, u, rx)
    ensures var ks := t.kids.Get(TypeOf(a[0]));
            var i := KeyIndex(ks, a[0]);
            && i < |ks| && EdgeTokens(ks[i]) <= a && a == EdgeTokens(ks[i]) + a[|EdgeTokens(ks[i])|..]
            && var k, rest := ks[i], a[|EdgeTokens(ks[i])|..];
               && ks[i].typ == TypeOf(a[0]) && Good(k)
               && (a[0].Lit? ==> k.prefix <= path && Reaches(k, rest, path[|k.prefix|..], u, rx))
               && (a[0].Star? ==> rest == [] && u == [path])
               && (a[0].Par? || a[0].Rex? ==>
                     && u != [] && u == [u[0]] + u[1..] && |u[0]| <= |path| && EdgeTokens(k) == [a[0]]
                     && (FallsHere(a[0], path, u, rx) ==> u[0] == "")
                     && Reaches(k, rest, if FallsHere(a[0], path, u, rx) then path else path[|u[0]|..], u[1..], rx))
  {
    hide Takes;
    var ks := t.kids.Get(TypeOf(a[0]));
    var i := KeyIndex(ks, a[0]);
    KidGood(t, TypeOf(a[0]), i);
    var k := ks[i];
    var rest := a[|EdgeTokens(k)|..];
    hide Good;
    if a[0].Star? {
      NothingReached(k, rest, "", u[1..], rx);
      assert u == [u[0]] + u[1..];
    } else if !a[0].Lit? {
      if u[0] == "" {
        assert path[|u[0]|..] == path;
      }
    }
  }

  /** Of two walks that use up the path, one comes before the other, unless they are the same. */
  lemma {:induction false} WalksCompare(t: Tree, path: string, a: seq<Token>, u: seq<string>, b: seq<Token>, v: seq<string>, rx: Matcher)
    requires Good(t) && Reaches(t, a, path, u, rx) && Reaches(t, b, path, v, rx)
    ensures (a == b && u == v) || Before(t, path, a, u, b, v, rx) || Before(t, path, b, v, a, u, rx)
    decreases t, 1
  {
    hide Good;
    hide FallsHere;
    hide BeforeBelow;
    if a != [] && b != [] && a[0] == b[0] && FallsHere(a[0], path, u, rx) == FallsHere(b[0], path, v, rx) {
      SameKid(t, path, a, u, b, v, rx);
    }
  }

  /** Two walks that start with the same step. */
  lemma {:induction false} SameKid(t: Tree, path: string, a: seq<Token>, u: seq<string>, b: seq<Token>, v: seq<string>, rx: Matcher)
    requires Good(t) && Reaches(t, a, path, u, rx) && Reaches(t, b, path, v, rx)
    requires a != [] && b != [] && a[0] == b[0] && FallsHere(a[0], path, u, rx) == FallsHere(b[0], path, v, rx)
    ensures (a == b && u == v) || Before(t, path, a, u, b, v, rx) || Before(t, path, b, v, a, u, rx)
    decreases t, 0
  {
    hide Good;
    hide Takes;
    hide Reaches;
    hide Before;
    hide GroupOk;
    var typ := TypeOf(a[0]);
    var i := KeyIndex(t.kids.Get(typ), a[0]);
    WalkStep(t, a, path, u, rx);
    WalkStep(t, b, path, v, rx);
    GroupGood(t, typ);
    var k := t.kids.Get(typ)[i];
    var n := |EdgeTokens(k)|;
    if a[0].Lit? {
      WalksCompare(k, path[n..], a[n..], u, b[n..], v, rx);
      BeforeStatic(t, i, path, a[n..], u, b[n..], v, rx);
      BeforeStatic(t, i, path, b[n..], v, a[n..], u, rx);
    } else if !a[0].Star? {
      if !FallsHere(a[0], path, u, rx) {
        TakesOne(a[0], path, u[0], v[0], rx);
      }
      var below := if FallsHere(a[0], path, u, rx) then path else path[|u[0]|..];
      WalksCompare(k, below, a[1..], u[1..], b[1..], v[1..], rx);
      BeforeWild(t, typ, i, path, u[0], a[1..], u[1..], b[1..], v[1..], rx);
      BeforeWild(t, typ, i, path, u[0], b[1..], v[1..], a[1..], u[1..], rx);
    }
  }

  // --------------------------------------------------- the hits are in order

  /** No hit comes before an earlier one, except one that was met before both. */
  ghost predicate Sorted(t: Tree, path: string, rx: Matcher, hits: seq<Hit>) {
    forall i, j :: 0 <= i < j < |hits| ==> hits[j] in hits[..i] || !HitBefore(t, path, hits[j], hits[i], rx)
  }

  /** Everything in `b` may follow everything in `a`. */
  ghost predicate Follows(t: Tree, path: string, rx: Matcher, a: seq<Hit>, b: seq<Hit>) {
    forall x, y :: x in a && y in b && y !in a ==> !HitBefore(t, path, y, x, rx)
  }

  lemma SortedConcat(t: Tree, path: string, rx: Matcher, a: seq<Hit>, b: seq<Hit>)
    requires Sorted(t, path, rx, a) && Sorted(t, path, rx, b) && Follows(t, path, rx, a, b)
    ensures Sorted(t, path, rx, a + b)
  {
    hide HitBefore;
    var all := a + b;
    forall i, j | 0 <= i < j < |all|
      ensures all[j] in all[..i] || !HitBefore(t, path, all[j], all[i], rx)
    {
      if j < |a| {
        assert all[..i] == a[..i];
      } else if i >= |a| {
        assert all[..i] == a + b[..i - |a|];
        assert b[j - |a|] in b[..i - |a|] || !HitBefore(t, path, b[j - |a|], b[i - |a|], rx);
      } else {
        assert all[..i] == a[..i];
        assert b[j - |a|] in b;
        MetLater(t, path, rx, a, i, b[j - |a|]);
      }
    }
  }

  lemma MetLater(t: Tree, path: string, rx: Matcher, a: seq<Hit>, i: nat, y: Hit)
    requires Sorted(t, path, rx, a) && i < |a|
    requires y !in a ==> !HitBefore(t, path, y, a[i], rx)
    ensures y in a[..i] || !HitBefore(t, path, y, a[i], rx)
  {
    hide Before;
    assert forall l :: 0 <= l < i ==> a[..i][l] == a[l];
    if y in a && y !in a[..i] {
      var l :| 0 <= l < |a| && a[l] == y;
      if l == i {
        NotBeforeItself(t, path, y.route, y.values, rx);
      }
    }
  }

  /** A walk below a child keeps its place when the step into the child is put in front. */
  ghost predicate Lifts(t: Tree, path: string, toks: seq<Token>, values: seq<string>, k: Tree, below: string, rx: Matcher) {
    forall g: Hit, h: Hit ::
      Before(t, path, toks + g.route, values + g.values, toks + h.route, values + h.values, rx) ==> HitBefore(k, below, g, h, rx)
  }

  lemma SortedThrough(t: Tree, path: string, toks: seq<Token>, values: seq<string>, k: Tree, below: string, rx: Matcher, hits: seq<Hit>)
    requires Lifts(t, path, toks, values, k, below, rx) && Sorted(k, below, rx, hits)
    ensures Sorted(t, path, rx, Through(toks, values, hits))
  {
    hide Before;
    var all := Through(toks, values, hits);
    forall i, j | 0 <= i < j < |all|
      ensures all[j] in all[..i] || !HitBefore(t, path, all[j], all[i], rx)
    {
      if hits[j] in hits[..i] {
        var l :| 0 <= l < i && hits[l] == hits[j];
        assert all[l] == all[..i][l];
      } else {
        assert !HitBefore(k, below, hits[j], hits[i], rx);
      }
    }
  }

  lemma LiftsStatic(t: Tree, i: nat, path: string, rx: Matcher)
    requires Good(t) && i < |t.kids.statics| && t.kids.statics[i].prefix <= path
    ensures var k := t.kids.statics[i];
            Lifts(t, path, Lits(k.prefix), [], k, path[|k.prefix|..], rx)
  {
    hide Before;
    hide Good;
    hide GroupOk;
    assert t.kids.Get(Static) == t.kids.statics;
    GroupGood(t, Static);
    var k := t.kids.statics[i];
    forall g: Hit, h: Hit
      ensures Before(t, path, Lits(k.prefix) + g.route, [] + g.values, Lits(k.prefix) + h.route, [] + h.values, rx)
          ==> HitBefore(k, path[|k.prefix|..], g, h, rx)
    {
      assert [] + g.values == g.values && [] + h.values == h.values;
      BeforeStatic(t, i, path, g.route, g.values, h.route, h.values, rx);
    }
  }

  lemma LiftsWild(t: Tree, typ: NodeType, i: nat, path: string, v: string, below: string, rx: Matcher)
    requires Good(t) && typ in {Regexp, Param} && i < |t.kids.Get(typ)|
    requires below == if Takes(EdgeKey(t.kids.Get(typ)[i]), path, v, rx) then path[|v|..] else path
    ensures var k := t.kids.Get(typ)[i]; Lifts(t, path, [EdgeKey(k)], [v], k, below, rx)
  {
    hide Before;
    hide Good;
    hide GroupOk;
    hide Takes;
    GroupGood(t, typ);
    var k := t.kids.Get(typ)[i];
    forall g: Hit, h: Hit
      ensures Before(t, path, [EdgeKey(k)] + g.route, [v] + g.values, [EdgeKey(k)] + h.route, [v] + h.values, rx)
          ==> HitBefore(k, below, g, h, rx)
    {
      BeforeWild(t, typ, i, path, v, g.route, g.values, h.route, h.values, rx);
    }
  }

  lemma AtMostOne(t: Tree, path: string, rx: Matcher, hits: seq<Hit>)
    requires |hits| <= 1
    ensures Sorted(t, path, rx, hits)
  {
  }

  /** Every hit's first token is of this kind. */
  ghost predicate Kind(hits: seq<Hit>, rank: nat) {
    forall h <- hits :: h.route != [] && Rank(h.route[0]) == rank
  }

  /** Every hit's first token is of a kind tried before. */
  ghost predicate KindBelow(hits: seq<Hit>, rank: nat) {
    forall h <- hits :: h.route != [] && Rank(h.route[0]) < rank
  }

  lemma AppendKind(t: Tree, path: string, rx: Matcher, a: seq<Hit>, b: seq<Hit>, rank: nat)
    requires Sorted(t, path, rx, a) && Sorted(t, path, rx, b) && KindBelow(a, rank) && Kind(b, rank)
    ensures Sorted(t, path, rx, a + b) && KindBelow(a + b, rank + 1)
  {
    assert Follows(t, path, rx, a, b);
    hide Before;
    hide Sorted;
    SortedConcat(t, path, rx, a, b);
  }

  lemma {:induction false} HitsSorted(t: Tree, path: string, rx: Matcher)
    requires Good(t)
    ensures Sorted(t, path, rx, Hits(t, path, rx))
    decreases t, 4, 0
  {
    hide Sorted;
    hide Good;
    hide Kind;
    var a, b := StaticHits(t, path, rx), WildHits(t, Regexp, path, rx);
    var c, d := WildHits(t, Param, path, rx), CatchAllHits(t, path, rx);
    StaticSorted(t, path, rx);
    WildSorted(t, Regexp, path, rx);
    WildSorted(t, Param, path, rx);
    CatchAllSorted(t, path, rx);
    AtMostOne(t, path, rx, []);
    AppendKind(t, path, rx, [], a, 0);
    AppendKind(t, path, rx, [] + a, b, 1);
    AppendKind(t, path, rx, [] + a + b, c, 2);
    AppendKind(t, path, rx, [] + a + b + c, d, 3);
    assert [] + a == a;
  }

  lemma {:induction false} ArriveSorted(k: Tree, path: string, rx: Matcher)
    requires Good(k)
    ensures Sorted(k, path, rx, Arrive(k, path, rx))
    decreases k, 5, 0
  {
    hide Good;
    hide Hits;
    HitsSorted(k, path, rx);
    var here := if path == "" && k.leaf.endpoints != map[] then [Hit([], [], k.leaf)] else [];
    AtMostOne(k, path, rx, here);
    assert Follows(k, path, rx, here, Hits(k, path, rx));
    SortedConcat(k, path, rx, here, Hits(k, path, rx));
  }

  lemma {:induction false} StaticSorted(t: Tree, path: string, rx: Matcher)
    requires Good(t)
    ensures Sorted(t, path, rx, StaticHits(t, path, rx)) && Kind(StaticHits(t, path, rx), 0)
    decreases t, 3, 0
  {
    hide Arrive;
    hide Good;
    hide Lifts;
    hide HitBefore;
    var ks := t.kids.statics;
    var i := KeyIndex(ks, Lit(FirstChar(path)));
    if i < |ks| && ks[i].prefix <= path {
      var k, rest := ks[i], path[|ks[i].prefix|..];
      assert t.kids.Get(Static) == ks;
      KidGood(t, Static, i);
      ArriveSorted(k, rest, rx);
      LiftsStatic(t, i, path, rx);
      SortedThrough(t, path, Lits(k.prefix), [], k, rest, rx, Arrive(k, rest, rx));
    }
  }

  /** Every hit captures at one of the first `n` children. */
  ghost predicate Captures(t: Tree, typ: NodeType, n: nat, path: string, rx: Matcher, hits: seq<Hit>) {
    forall h <- hits :: && h.route != [] && TypeOf(h.route[0]) == typ && KeyIndex(t.kids.Get(typ), h.route[0]) < n
                        && !FallsHere(h.route[0], path, h.values, rx)
  }

  lemma {:induction false} EachSorted(t: Tree, typ: NodeType, n: nat, path: string, rx: Matcher)
    requires Good(t) && typ in {Regexp, Param} && n <= |t.kids.Get(typ)|
    ensures Sorted(t, path, rx, EachHits(t, typ, n, path, rx))
    ensures Captures(t, typ, n, path, rx, EachHits(t, typ, n, path, rx))
    decreases t, 2, n
  {
    hide Sorted;
    hide Good;
    hide KidHits;
    hide HitBefore;
    if n == 0 {
      AtMostOne(t, path, rx, []);
    } else {
      EachSorted(t, typ, n - 1, path, rx);
      KidSorted(t, typ, n - 1, path, rx);
      var a, b := EachHits(t, typ, n - 1, path, rx), KidHits(t, typ, n - 1, path, rx);
      NextKid(t, typ, n - 1, path, rx, a, b);
      SortedConcat(t, path, rx, a, b);
    }
  }

  /** Every hit captures at the child `i`. */
  ghost predicate CapturesAt(t: Tree, typ: NodeType, i: nat, path: string, rx: Matcher, hits: seq<Hit>) {
    forall h <- hits :: && h.route != [] && TypeOf(h.route[0]) == typ && KeyIndex(t.kids.Get(typ), h.route[0]) == i
                        && !FallsHere(h.route[0], path, h.values, rx)
  }

  lemma NextKid(t: Tree, typ: NodeType, i: nat, path: string, rx: Matcher, a: seq<Hit>, b: seq<Hit>)
    requires Captures(t, typ, i, path, rx, a) && CapturesAt(t, typ, i, path, rx, b)
    ensures Follows(t, path, rx, a, b) && Captures(t, typ, i + 1, path, rx, a + b)
  {
    hide FallsHere;
    hide KeyIndex;
  }

  lemma {:induction false} KidSorted(t: Tree, typ: NodeType, i: nat, path: string, rx: Matcher)
    requires Good(t) && typ in {Regexp, Param} && i < |t.kids.Get(typ)|
    ensures Sorted(t, path, rx, KidHits(t, typ, i, path, rx)) && CapturesAt(t, typ, i, path, rx, KidHits(t, typ, i, path, rx))
    decreases t, 1, 0
  {
    hide Sorted;
    hide Good;
    hide Arrive;
    hide Takes;
    hide Capture;
    hide Lifts;
    var k := t.kids.Get(typ)[i];
    KidGood(t, typ, i);
    GroupGood(t, typ);
    CaptureTakes(k, path, rx);
    if Capture(k, path, rx).None? {
      AtMostOne(t, path, rx, []);
    } else {
      var p := Capture(k, path, rx).value;
      ArriveSorted(k, path[p..], rx);
      LookupKid(t, typ, i, []);
      LiftsWild(t, typ, i, path, path[..p], path[p..], rx);
      SortedThrough(t, path, [EdgeKey(k)], [path[..p]], k, path[p..], rx, Arrive(k, path[p..], rx));
    }
  }

  lemma {:induction false} WildSorted(t: Tree, typ: NodeType, path: string, rx: Matcher)
    requires Good(t) && typ in {Regexp, Param}
    ensures Sorted(t, path, rx, WildHits(t, typ, path, rx)) && Kind(WildHits(t, typ, path, rx), if typ == Regexp then 1 else 2)
    decreases t, 3, 0
  {
    hide Sorted;
    hide EachHits;
    hide FallbackHits;
    hide Good;
    hide Follows;
    hide FallsHere;
    hide KeyIndex;
    var ks := t.kids.Get(typ);
    if ks == [] || path == "" {
      AtMostOne(t, path, rx, []);
    } else {
      var a, b := EachHits(t, typ, |ks|, path, rx), FallbackHits(t, typ, path, rx);
      EachSorted(t, typ, |ks|, path, rx);
      FallbackSorted(t, typ, path, rx);
      SortedConcat(t, path, rx, a, b);
    }
  }

  lemma {:induction false} FallbackSorted(t: Tree, typ: NodeType, path: string, rx: Matcher)
    requires Good(t) && typ in {Regexp, Param} && t.kids.Get(typ) != [] && path != ""
    requires var ks := t.kids.Get(typ); Captures(t, typ, |ks|, path, rx, EachHits(t, typ, |ks|, path, rx))
    ensures var ks, b := t.kids.Get(typ), FallbackHits(t, typ, path, rx);
            && Sorted(t, path, rx, b) && (forall h <- b :: h.route != [] && TypeOf(h.route[0]) == typ)
            && Follows(t, path, rx, EachHits(t, typ, |ks|, path, rx), b)
    decreases t, 2, 0
  {
    hide Sorted;
    hide Good;
    hide Hits;
    hide Takes;
    hide Lifts;
    hide EachHits;
    hide HitBefore;
    var ks := t.kids.Get(typ);
    var i := |ks| - 1;
    var k := ks[i];
    KidGood(t, typ, i);
    HitsSorted(k, path, rx);
    assert path[|""|..] == path;
    LiftsWild(t, typ, i, path, "", path, rx);
    SortedThrough(t, path, [EdgeKey(k)], [""], k, path, rx, Hits(k, path, rx));
    var a, b := EachHits(t, typ, |ks|, path, rx), FallbackHits(t, typ, path, rx);
    if Takes(EdgeKey(k), path, "", rx) {
      TakenTwice(t, typ, path, rx);
      assert Follows(t, path, rx, a, b);
    } else {
      FallsLast(t, typ, path, rx, a, b);
    }
  }

  /** If the last child takes the empty string anyway, the fallback only repeats its hits. */
  lemma TakenTwice(t: Tree, typ: NodeType, path: string, rx: Matcher)
    requires Good(t) && typ in {Regexp, Param} && t.kids.Get(typ) != []
    requires var ks := t.kids.Get(typ); Takes(EdgeKey(ks[|ks| - 1]), path, "", rx)
    ensures forall h <- FallbackHits(t, typ, path, rx) :: h in EachHits(t, typ, |t.kids.Get(typ)|, path, rx)
  {
    hide Hits;
    hide Takes;
    hide Capture;
    hide Good;
    var ks := t.kids.Get(typ);
    var k := ks[|ks| - 1];
    KidGood(t, typ, |ks| - 1);
    CaptureTakes(k, path, rx);
    assert Capture(k, path, rx) == Some(0) by { assert |path[..Capture(k, path, rx).value]| == |""|; }
    assert path[..0] == "" && path[0..] == path;
    var front := if path == "" && k.leaf.endpoints != map[] then [Hit([], [], k.leaf)] else [];
    var below := Hits(k, path, rx);
    assert Arrive(k, path, rx) == front + below;
    var a, b := KidHits(t, typ, |ks| - 1, path, rx), FallbackHits(t, typ, path, rx);
    forall l | 0 <= l < |b|
      ensures b[l] in a
    {
      assert (front + below)[|front| + l] == below[l];
      assert a[|front| + l] == b[l];
    }
  }

  /** The fallback comes after all captures of its group. */
  lemma FallsLast(t: Tree, typ: NodeType, path: string, rx: Matcher, a: seq<Hit>, b: seq<Hit>)
    requires typ in {Regexp, Param} && Captures(t, typ, |t.kids.Get(typ)|, path, rx, a)
    requires forall h <- b :: h.route != [] && TypeOf(h.route[0]) == typ && FallsHere(h.route[0], path, h.values, rx)
    ensures Follows(t, path, rx, a, b)
  {
    hide FallsHere;
    hide KeyIndex;
  }

  lemma CatchAllSorted(t: Tree, path: string, rx: Matcher)
    requires Good(t)
    ensures Sorted(t, path, rx, CatchAllHits(t, path, rx)) && Kind(CatchAllHits(t, path, rx), 3)
  {
    hide Sorted;
    hide Hits;
    hide Good;
    if t.kids.catchAlls != [] {
      CatchAllHitsOne(t, path, rx);
    }
    AtMostOne(t, path, rx, CatchAllHits(t, path, rx));
  }

  // ------------------------------------------------------------ main results

  /** Of two different hits, the one that comes before in the order of walks is the one met first. */
  lemma OrderExact(t: Tree, path: string, rx: Matcher, i: nat, j: nat)
    requires Good(t) && i < |Hits(t, path, rx)| && j < |Hits(t, path, rx)| && i != j
    requires var hits := Hits(t, path, rx); hits[i] !in hits[..i] && hits[j] !in hits[..j]
    ensures i < j <==> HitBefore(t, path, Hits(t, path, rx)[i], Hits(t, path, rx)[j], rx)
  {
    hide Hits;
    hide Before;
    hide Good;
    hide Reaches;
    hide Lookup;
    var hits := Hits(t, path, rx);
    HitsSorted(t, path, rx);
    HitsReached(t, path, rx);
    var g, h := hits[i], hits[j];
    assert Reached(t, path, rx, g) && Reached(t, path, rx, h);
    WalksCompare(t, path, g.route, g.values, h.route, h.values, rx);
    FirstsDiffer(hits, i, j);
  }

  lemma FirstsDiffer(hits: seq<Hit>, i: nat, j: nat)
    requires i < |hits| && j < |hits| && i != j && hits[i] !in hits[..i] && hits[j] !in hits[..j]
    ensures hits[i] != hits[j] && hits[j] !in hits[..if i < j then i else j] && hits[i] !in hits[..if i < j then i else j]
  {
    var n, m := if i < j then i else j, if i < j then j else i;
    assert hits[..m][n] == hits[n];
    assert forall l :: 0 <= l < n ==> hits[..n][l] == hits[..m][l];
  }

  /**
   What a search returns comes before every other walk to a leaf with a handler for the method,
   whatever is registered.
   */
  lemma SearchIsFirst(routes: seq<Route>, m: Method, path: string, rx: Matcher, toks: seq<Token>, values: seq<string>)
    requires IsValid(m) && toks != [] && Reaches(Build(routes), toks, path, values, rx) && Answers(routes, toks, m)
    ensures var t := Build(routes);
            var hits := Hits(t, path, rx);
            var i := FirstServing(hits, m);
            && i < |hits| && Answers(routes, hits[i].route, m) && Reaches(t, hits[i].route, path, hits[i].values, rx)
            && (hits[i].route != toks || hits[i].values != values ==>
                  Before(t, path, hits[i].route, hits[i].values, toks, values, rx))
  {
    hide Hits;
    hide Build;
    hide Before;
    hide Good;
    hide Reaches;
    hide Lookup;
    var t := Build(routes);
    var hits := Hits(t, path, rx);
    var i := FirstServing(hits, m);
    TrieIsTable(routes, toks);
    TableLast(routes, toks, m);
    var h := Hit(toks, values, Lookup(t, toks));
    HitsExact(t, path, rx, h);
    var j :| 0 <= j < |hits| && hits[j] == h;
    assert Serves(hits[j].leaf.endpoints, m);
    HitExact(routes, path, rx, i);
    TableLast(routes, hits[i].route, m);
    WalksCompare(t, path, hits[i].route, hits[i].values, toks, values, rx);
    HitsSorted(t, path, rx);
    if i < j {
      assert h !in hits[..i];
    }
  }
}
