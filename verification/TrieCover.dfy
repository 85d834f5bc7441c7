/**
 A trie has no nodes but those its patterns need: every walk in it is the beginning of
 the tokens of some registered pattern.
 */
module TrieCover {
  import opened Wrappers
  import opened Pattern
  import opened Endpoints
  import opened Trie
  import opened TrieOrder
  import opened TrieSteps
  import opened TrieContents
  import opened TrieLookup
  import opened Runs

  /** Does a walk from `t` begin with these tokens? It may stop within the text of an edge. */
  ghost predicate Covered(t: Tree, q: seq<Token>)
    decreases t, 0
  {
    q == [] || exists typ: NodeType, i :: 0 <= i < |t.kids.Get(typ)| && CoveredBy(t.kids.Get(typ)[i], q)
  }

  /** Does such a walk go through the edge into `k`? */
  ghost predicate CoveredBy(k: Tree, q: seq<Token>)
    decreases k, 1
  {
    q <= EdgeTokens(k) || (EdgeTokens(k) <= q && Covered(k, q[|EdgeTokens(k)|..]))
  }

  /** Is this the beginning of the pattern's tokens? */
  predicate Begins(q: seq<Token>, s: string) {
    Tokens(s).Some? && q <= Tokens(s).value
  }

  lemma CoveredKid(t: Tree, typ: NodeType, i: nat, q: seq<Token>)
    requires i < |t.kids.Get(typ)| && CoveredBy(t.kids.Get(typ)[i], q)
    ensures Covered(t, q)
  {
  }

  lemma CoveredAdd(t: Tree, k: Tree, q: seq<Token>)
    requires Covered(AddKid(t, k), q)
    ensures Covered(t, q) || CoveredBy(k, q)
  {
    hide CoveredBy;
    hide Ordered;
    if q != [] {
      var t' := AddKid(t, k);
      var typ: NodeType, i :| 0 <= i < |t'.kids.Get(typ)| && CoveredBy(t'.kids.Get(typ)[i], q);
      var c := t'.kids.Get(typ)[i];
      if typ == k.typ {
        OrderedPermutes(t.kids.Get(typ) + [k]);
        assert c in Ordered(t.kids.Get(typ) + [k]);
        if c != k {
          var j :| 0 <= j < |t.kids.Get(typ)| && t.kids.Get(typ)[j] == c;
          CoveredKid(t, typ, j, q);
        }
      } else {
        CoveredKid(t, typ, i, q);
      }
    }
  }

  lemma CoveredSet(t: Tree, typ: NodeType, i: nat, k: Tree, q: seq<Token>)
    requires i < |t.kids.Get(typ)| && Covered(SetKid(t, typ, i, k), q)
    ensures Covered(t, q) || CoveredBy(k, q)
  {
    hide CoveredBy;
    if q != [] {
      var t' := SetKid(t, typ, i, k);
      var other: NodeType, j :| 0 <= j < |t'.kids.Get(other)| && CoveredBy(t'.kids.Get(other)[j], q);
      if other != typ || j != i {
        CoveredKid(t, other, j, q);
      }
    }
  }

  lemma NothingCovered(k: Tree, q: seq<Token>)
    requires k.kids == NONE
    ensures Covered(k, q) <==> q == []
  {
    NoKids(k);
  }

  /** Behind the edge's tokens. */
  lemma BeginsBehind(edge: seq<Token>, s: string, rest: string, q: seq<Token>)
    requires Tokens(s) == Prepend(edge, Tokens(rest)) && Tokens(rest).Some?
    requires q <= edge || (edge <= q && Begins(q[|edge|..], rest))
    ensures Begins(q, s)
  {
    hide Tokens;
    var below := Tokens(rest).value;
    if q <= edge {
      assert q == edge[..|q|] == (edge + below)[..|q|];
    } else {
      var more := q[|edge|..];
      assert q == edge + more && more == below[..|more|];
      assert (edge + below)[..|q|] == edge + below[..|more|];
    }
  }

  // ------------------------------------------------------------ new branches

  /** A branch covers the tokens it was built for. */
  lemma {:induction false} BranchCovers(s: string, pre: string, leaf: Leaf, q: seq<Token>)
    requires s != "" && Branch(s, pre, leaf).Some? && CoveredBy(Branch(s, pre, leaf).value, q)
    ensures Begins(q, s)
    decreases |s|, 1
  {
    hide Branch;
    hide Tokens;
    hide NextSegment;
    BranchPlain(s, pre, leaf);
    BranchGood(s, pre, leaf, []);
    SegmentTokens(s);
    var seg := NextSegment(s).value;
    if seg.typ == Static {
      NothingCovered(Branch(s, pre, leaf).value, q[|q|..]);
      PlainCovers(s, Branch(s, pre, leaf).value, q);
    } else {
      WildStart(s, seg);
      if seg.start > 0 {
        TextCovers(s, seg, pre, leaf, q);
      } else {
        WildCovers(s, seg, pre, leaf, q);
      }
    }
  }

  lemma PlainCovers(s: string, k: Tree, q: seq<Token>)
    requires Tokens(s) == Some(Lits(s)) && k.kids == NONE && EdgeTokens(k) == Lits(s) && CoveredBy(k, q)
    ensures Begins(q, s)
  {
    if Lits(s) <= q {
      NothingCovered(k, q[|Lits(s)|..]);
      assert q == Lits(s) + q[|Lits(s)|..];
    }
  }

  /** A childless node with one new child. */
  lemma StepCovers(first: Tree, k: Tree, s: string, rest: string, q: seq<Token>)
    requires first.kids == NONE && Tokens(s) == Prepend(EdgeTokens(first), Tokens(rest)) && Tokens(rest).Some?
    requires CoveredBy(AddKid(first, k), q)
    requires var n := |EdgeTokens(first)|; n <= |q| && CoveredBy(k, q[n..]) ==> Begins(q[n..], rest)
    ensures Begins(q, s)
  {
    hide Tokens;
    hide Ordered;
    hide Covered;
    var edge := EdgeTokens(first);
    assert EdgeTokens(AddKid(first, k)) == edge;
    if !(q <= edge) {
      var below := q[|edge|..];
      CoveredAdd(first, k, below);
      NothingCovered(first, below);
    }
    BeginsBehind(edge, s, rest, q);
  }

  lemma {:induction false} TextCovers(s: string, seg: Segment, pre: string, leaf: Leaf, q: seq<Token>)
    requires s != "" && NextSegment(s) == Some(seg) && seg.typ != Static && 0 < seg.start < |s| && SegmentAgrees(s, seg)
    requires Branch(s, pre, leaf).Some? && CoveredBy(Branch(s, pre, leaf).value, q)
    ensures Begins(q, s)
    decreases |s|, 0
  {
    hide NextSegment;
    hide Branch;
    hide Tokens;
    hide Keys;
    hide AddKid;
    hide CoveredBy;
    var n := seg.start;
    var first, rest := Tree(Static, s[0], NUL, s[..n], None, EMPTY, NONE), s[n..];
    BranchText(s, seg, pre, leaf);
    PlainBefore(s, n);
    var next := Branch(rest, "", leaf);
    BranchGood(rest, "", leaf, []);
    assert EdgeTokens(first) == Lits(s[..n]) && |Lits(s[..n])| == n;
    if n <= |q| && CoveredBy(next.value, q[n..]) {
      BranchCovers(rest, "", leaf, q[n..]);
    }
    StepCovers(first, next.value, s, rest, q);
  }

  lemma {:induction false} WildCovers(s: string, seg: Segment, pre: string, leaf: Leaf, q: seq<Token>)
    requires s != "" && NextSegment(s) == Some(seg) && seg.typ != Static && seg.start == 0 < seg.end <= |s| && SegmentAgrees(s, seg)
    requires Branch(s, pre, leaf).Some? && CoveredBy(Branch(s, pre, leaf).value, q)
    ensures Begins(q, s)
    decreases |s|, 0
  {
    hide NextSegment;
    hide Branch;
    hide Tokens;
    hide Keys;
    hide AddKid;
    hide CoveredBy;
    FirstToken(s, seg);
    BranchWild(s, seg, pre, leaf);
    var first := if seg.typ == Regexp then Tree(Regexp, s[0], seg.tail, seg.rexpat, Some(seg.rexpat), EMPTY, NONE)
                 else Tree(seg.typ, s[0], seg.tail, pre, None, EMPTY, NONE);
    var rest := s[seg.end..];
    assert EdgeTokens(first) == [TokenOf(seg)];
    if Continues(s, seg) {
      var next := Branch(rest, rest, leaf);
      BranchGood(rest, rest, leaf, []);
      if 1 <= |q| && CoveredBy(next.value, q[1..]) {
        BranchCovers(rest, rest, leaf, q[1..]);
      }
      StepCovers(first, next.value, s, rest, q);
    } else {
      assert rest == "";
      LastCovers(s, seg, first.(leaf := leaf), q);
    }
  }

  lemma LastCovers(s: string, seg: Segment, k: Tree, q: seq<Token>)
    requires seg.typ != Static && k.kids == NONE && EdgeTokens(k) == [TokenOf(seg)] && CoveredBy(k, q)
    requires Tokens(s) == Prepend([TokenOf(seg)], Tokens(""))
    ensures Begins(q, s)
  {
    assert [TokenOf(seg)] + [] == [TokenOf(seg)];
    if [TokenOf(seg)] <= q {
      NothingCovered(k, q[1..]);
      assert q == [TokenOf(seg)] + q[1..];
    }
  }

  // ----------------------------------------------------------- registrations

  /** Splitting a node covers nothing new. */
  lemma SplitCovers(k: Tree, n: nat, q: seq<Token>)
    requires k.typ == Static && 0 < n < |k.prefix| && CoveredBy(Split(k, n), q)
    ensures CoveredBy(k, q)
  {
    var a, b := Lits(k.prefix[..n]), Lits(k.prefix[n..]);
    assert Lits(k.prefix) == a + b && EdgeTokens(Split(k, n)) == a;
    if q <= a {
      assert q == a[..|q|] == (a + b)[..|q|];
    } else {
      var below := q[n..];
      assert q == a + below;
      CoveredAdd(Upper(k, n), Lower(k, n), below);
      NothingCovered(Upper(k, n), below);
      LowerCovers(k, n, a, b, below);
    }
  }

  lemma LowerCovers(k: Tree, n: nat, a: seq<Token>, b: seq<Token>, below: seq<Token>)
    requires k.typ == Static && 0 < n < |k.prefix| && EdgeTokens(k) == a + b && EdgeTokens(Lower(k, n)) == b
    requires below == [] || CoveredBy(Lower(k, n), below)
    ensures CoveredBy(k, a + below)
  {
    var q := a + below;
    if below <= b {
      assert q == (a + b)[..|q|];
    } else {
      var rest := below[|b|..];
      assert below == b + rest && q == (a + b) + rest && q[|a + b|..] == rest;
      SameKids(k, Lower(k, n), rest);
    }
  }

  lemma SameKids(a: Tree, b: Tree, q: seq<Token>)
    requires a.kids == b.kids
    ensures Covered(a, q) <==> Covered(b, q)
  {
    hide CoveredBy;
  }

  /** Through an edge: what the new child covers, the old one did, or the pattern does. */
  lemma EdgeCovers(t: Tree, typ: NodeType, i: nat, m: Tree, m': Tree, s: string, rest: string, q: seq<Token>)
    requires i < |t.kids.Get(typ)| && EdgeTokens(m') == EdgeTokens(m)
    requires CoveredBy(m, q) ==> CoveredBy(t.kids.Get(typ)[i], q)
    requires Tokens(s) == Prepend(EdgeTokens(m), Tokens(rest))
    requires var n := |EdgeTokens(m)|; n <= |q| && Covered(m', q[n..]) ==> Covered(m, q[n..]) || Begins(q[n..], rest)
    requires Covered(SetKid(t, typ, i, m'), q)
    ensures Covered(t, q) || Begins(q, s)
  {
    hide Tokens;
    hide Covered;
    hide SetKid;
    CoveredSet(t, typ, i, m', q);
    if !Covered(t, q) {
      if CoveredBy(m, q) {
        CoveredKid(t, typ, i, q);
      } else {
        BeginsBehind(EdgeTokens(m), s, rest, q);
      }
    }
  }

  lemma AttachCovers(t: Tree, s: string, r: Route, q: seq<Token>)
    requires s != "" && Covered(Attach(t, s, r).tree, q)
    ensures Covered(t, q) || Begins(q, s)
  {
    hide Branch;
    hide Covered;
    hide CoveredBy;
    hide AddKid;
    hide Begins;
    var grown := Branch(s, s, NewLeaf(EMPTY, r));
    if grown.Some? {
      CoveredAdd(t, grown.value, q);
      if CoveredBy(grown.value, q) {
        BranchCovers(s, s, NewLeaf(EMPTY, r), q);
      }
    }
  }

  lemma AttachEdge(t: Tree, s: string, r: Route)
    requires s != ""
    ensures SameEdge(t, Attach(t, s, r).tree)
  {
    hide Branch;
  }

  /** A registration covers what was covered before, and the beginnings of its own pattern. */
  lemma {:induction false} InsertCovers(t: Tree, s: string, r: Route, q: seq<Token>)
    requires Good(t)
    ensures SameEdge(t, Insert(t, s, r).tree)
    ensures Covered(Insert(t, s, r).tree, q) ==> Covered(t, q) || Begins(q, s)
    decreases t
  {
    hide Good;
    hide Insert;
    hide Front;
    hide Attach;
    hide Tokens;
    hide Covered;
    hide Begins;
    hide KeyIndex;
    if s == "" {
      InsertAtEnd(t, r);
      SameKids(t, Insert(t, s, r).tree, q);
    } else {
      FrontTokens(s);
      if Front(s).None? {
        InsertMalformed(t, s, r);
      } else {
        var seg := Front(s).value;
        var i := KeyIndex(t.kids.Get(seg.typ), SegmentKey(s, seg));
        if i == |t.kids.Get(seg.typ)| {
          InsertNew(t, s, seg, r);
          AttachEdge(t, s, r);
          if Covered(Attach(t, s, r).tree, q) { AttachCovers(t, s, r, q); }
        } else if seg.typ != Static {
          PastCovers(t, i, s, seg, r, q);
        } else {
          StaticCovers(t, i, s, r, q);
        }
      }
    }
  }

  lemma {:induction false} PastCovers(t: Tree, i: nat, s: string, seg: Segment, r: Route, q: seq<Token>)
    requires Good(t) && s != "" && Front(s) == Some(seg) && seg.typ != Static && FrontOk(s, Some(seg))
    requires i < |t.kids.Get(seg.typ)| && i == KeyIndex(t.kids.Get(seg.typ), SegmentKey(s, seg))
    ensures SameEdge(t, Insert(t, s, r).tree)
    ensures Covered(Insert(t, s, r).tree, q) ==> Covered(t, q) || Begins(q, s)
    decreases t, 0
  {
    hide Good;
    hide Insert;
    hide Front;
    hide Tokens;
    hide Covered;
    hide CoveredBy;
    hide Begins;
    hide KeyIndex;
    var k, rest := t.kids.Get(seg.typ)[i], s[seg.end..];
    KidGood(t, seg.typ, i);
    assert EdgeTokens(k) == [TokenOf(seg)];
    InsertPast(t, s, seg, seg.end, i, r);
    InsertCovers(k, rest, r, if 1 <= |q| then q[1..] else []);
    var k' := Insert(k, rest, r).tree;
    if Covered(SetKid(t, seg.typ, i, k'), q) {
      EdgeCovers(t, seg.typ, i, k, k', s, rest, q);
    }
  }

  lemma {:induction false} StaticCovers(t: Tree, i: nat, s: string, r: Route, q: seq<Token>)
    requires Good(t) && s != "" && s[0] != '{' && s[0] != '*'
    requires i < |t.kids.statics| && i == KeyIndex(t.kids.statics, Lit(s[0]))
    ensures SameEdge(t, Insert(t, s, r).tree)
    ensures Covered(Insert(t, s, r).tree, q) ==> Covered(t, q) || Begins(q, s)
    decreases t, 0
  {
    hide Good;
    hide Insert;
    hide Front;
    hide Tokens;
    hide Covered;
    hide CoveredBy;
    hide Begins;
    hide KeyIndex;
    hide CommonPrefix;
    hide SplitOutcome;
    hide Split;
    var k := t.kids.statics[i];
    assert t.kids.Get(Static) == t.kids.statics;
    KidGood(t, Static, i);
    SharedText(t, i, s);
    LiteralFront(s);
    var n := CommonPrefix(s, k.prefix);
    var rest, below := s[n..], if n <= |q| then q[n..] else [];
    if n == |k.prefix| {
      assert k.prefix == k.prefix[..n];
      InsertPast(t, s, STATIC_SEGMENT, n, i, r);
      InsertCovers(k, rest, r, below);
      var k' := Insert(k, rest, r).tree;
      if Covered(SetKid(t, Static, i, k'), q) {
        EdgeCovers(t, Static, i, k, k', s, rest, q);
      }
    } else {
      InsertAtSplit(t, s, n, i, r);
      SplitOutcomeCovers(k, s, n, r, below);
      if CoveredBy(Split(k, n), q) { SplitCovers(k, n, q); }
      var m' := SplitOutcome(Split(k, n), s, n, r).tree;
      if Covered(SetKid(t, Static, i, m'), q) {
        EdgeCovers(t, Static, i, Split(k, n), m', s, rest, q);
      }
    }
  }

  lemma SplitOutcomeCovers(k: Tree, s: string, n: nat, r: Route, q: seq<Token>)
    requires k.typ == Static && 0 < n < |k.prefix| && n <= |s|
    ensures var m := Split(k, n); var m' := SplitOutcome(m, s, n, r).tree;
            && EdgeTokens(m) == EdgeTokens(m') == Lits(k.prefix[..n])
            && (Covered(m', q) ==> Covered(m, q) || Begins(q, s[n..]))
  {
    hide Attach;
    hide Covered;
    hide Begins;
    hide Ordered;
    var m := Split(k, n);
    var m' := SplitOutcome(m, s, n, r).tree;
    if n == |s| {
      SameKids(m, m', q);
    } else {
      AttachEdge(m, s[n..], r);
      if Covered(m', q) { AttachCovers(m, s[n..], r, q); }
    }
  }

  // ---------------------------------------------------------- over every run

  /** Is this the beginning of some registered pattern, accepted or not? */
  ghost predicate BeginsSome(routes: seq<Route>, q: seq<Token>) {
    q == [] || exists r <- routes :: Begins(q, r.pattern)
  }

  /** Every walk in a trie built by registrations is the beginning of some registered pattern. */
  lemma {:induction false} WalksAreRegistered(routes: seq<Route>, q: seq<Token>)
    requires Covered(Build(routes), q)
    ensures BeginsSome(routes, q)
  {
    hide Insert;
    hide Begins;
    hide Covered;
    if routes == [] {
      NothingCovered(ROOT, q);
    } else {
      var front, last := routes[..|routes| - 1], routes[|routes| - 1];
      TrieIsTable(front, []);
      InsertCovers(Build(front), last.pattern, last, q);
      assert last in routes;
      if !Begins(q, last.pattern) {
        WalksAreRegistered(front, q);
      }
    }
  }

  // --------------------------------------------- parameters that stand alone

  predicate IsWild(tok: Token) {
    tok.Par? || tok.Rex?
  }

  /** Where two token sequences part, they do not both go on with a parameter or regexp. */
  predicate Agree(a: seq<Token>, b: seq<Token>) {
    a == [] || b == [] || if a[0] == b[0] then Agree(a[1..], b[1..]) else !(IsWild(a[0]) && IsWild(b[0]))
  }

  lemma {:induction false} AgreePrefix(a: seq<Token>, q: seq<Token>, b: seq<Token>)
    requires q <= b && Agree(a, b)
    ensures Agree(a, q)
  {
    if a != [] && q != [] {
      assert q[0] == b[0];
      if a[0] == b[0] {
        assert q[1..] <= b[1..] by { assert q[1..] == b[1..][..|q| - 1]; }
        AgreePrefix(a[1..], q[1..], b[1..]);
      }
    }
  }

  lemma {:induction false} AgreeBehind(edge: seq<Token>, a: seq<Token>, b: seq<Token>)
    ensures Agree(edge + a, edge + b) <==> Agree(a, b)
  {
    if edge == [] {
      assert edge + a == a && edge + b == b;
    } else {
      assert (edge + a)[1..] == edge[1..] + a && (edge + b)[1..] == edge[1..] + b;
      AgreeBehind(edge[1..], a, b);
    }
  }

  /** No registered pattern has another parameter or regexp where these tokens have one. */
  ghost predicate Alone(routes: seq<Route>, toks: seq<Token>) {
    forall r <- routes :: Tokens(r.pattern).Some? ==> Agree(toks, Tokens(r.pattern).value)
  }

  ghost predicate AllAgree(t: Tree, toks: seq<Token>) {
    forall q :: Covered(t, q) ==> Agree(toks, q)
  }

  lemma KidAgrees(t: Tree, typ: NodeType, i: nat, toks: seq<Token>)
    requires i < |t.kids.Get(typ)| && AllAgree(t, toks) && EdgeTokens(t.kids.Get(typ)[i]) <= toks
    ensures var k := t.kids.Get(typ)[i]; AllAgree(k, toks[|EdgeTokens(k)|..])
  {
    hide Agree;
    var k := t.kids.Get(typ)[i];
    var edge := EdgeTokens(k);
    var rest := toks[|edge|..];
    assert toks == edge + rest;
    forall q | Covered(k, q)
      ensures Agree(rest, q)
    {
      assert (edge + q)[|edge|..] == q && edge <= edge + q;
      CoveredKid(t, typ, i, edge + q);
      AgreeBehind(edge, rest, q);
    }
  }

  /** Every parameter or regexp beside the wanted one is the wanted one. */
  lemma OnlyWild(t: Tree, typ: NodeType, i: nat, toks: seq<Token>)
    requires Good(t) && i < |t.kids.Get(typ)| && typ in {Regexp, Param} && toks != [] && IsWild(toks[0]) && AllAgree(t, toks)
    ensures EdgeKey(t.kids.Get(typ)[i]) == toks[0]
  {
    var k := t.kids.Get(typ)[i];
    KidGood(t, typ, i);
    CoveredKid(t, typ, i, [EdgeKey(k)]);
    assert Agree(toks, [EdgeKey(k)]);
  }

  /** If all walks agree with these tokens, the lookup takes the wanted nodes. */
  lemma {:induction false} AgreeMiddle(t: Tree, toks: seq<Token>)
    requires Good(t) && HasNode(t, toks) && AllAgree(t, toks)
    ensures Middle(t, toks)
    decreases t
  {
    hide Good;
    hide AllAgree;
    if toks != [] && !toks[0].Star? {
      var typ := TypeOf(toks[0]);
      var ks := t.kids.Get(typ);
      var i := KeyIndex(ks, toks[0]);
      KidGood(t, typ, i);
      KidAgrees(t, typ, i, toks);
      AgreeMiddle(ks[i], toks[|EdgeTokens(ks[i])|..]);
      if IsWild(toks[0]) {
        OneWild(t, toks);
      } else {
        assert ks == t.kids.statics && EdgeTokens(ks[i]) == Lits(ks[i].prefix);
      }
    }
  }

  /** The other group is empty. */
  lemma OtherEmpty(t: Tree, typ: NodeType, toks: seq<Token>)
    requires Good(t) && typ in {Regexp, Param} && toks != [] && IsWild(toks[0]) && AllAgree(t, toks)
    ensures typ != TypeOf(toks[0]) ==> t.kids.Get(typ) == []
  {
    hide Good;
    hide AllAgree;
    if t.kids.Get(typ) != [] {
      KidGood(t, typ, 0);
      OnlyWild(t, typ, 0, toks);
    }
  }

  lemma OneWild(t: Tree, toks: seq<Token>)
    requires Good(t) && toks != [] && IsWild(toks[0]) && AllAgree(t, toks)
    requires KeyIndex(t.kids.Get(TypeOf(toks[0])), toks[0]) < |t.kids.Get(TypeOf(toks[0]))|
    ensures var ks := t.kids.Get(TypeOf(toks[0])); |ks| == 1 && WildGroup(t) == ks && KeyIndex(ks, toks[0]) == 0
  {
    hide Good;
    hide AllAgree;
    var typ := TypeOf(toks[0]);
    var ks := t.kids.Get(typ);
    forall i | 0 <= i < |ks|
      ensures EdgeKey(ks[i]) == toks[0]
    {
      OnlyWild(t, typ, i, toks);
    }
    GroupGood(t, typ);
    assert Distinct(ks);
    assert |ks| > 1 ==> EdgeKey(ks[0]) == EdgeKey(ks[1]);
    OtherEmpty(t, Regexp, toks);
    OtherEmpty(t, Param, toks);
    assert t.kids.Get(Regexp) == t.kids.regexps && t.kids.Get(Param) == t.kids.params;
  }

  /**
   If no registered pattern has another parameter or regexp where this one has one, the
   lookup takes the wanted nodes, whatever else is registered and in whatever order.
   */
  lemma AloneMiddle(routes: seq<Route>, toks: seq<Token>)
    requires HasNode(Build(routes), toks) && Alone(routes, toks)
    ensures Middle(Build(routes), toks)
  {
    hide Build;
    hide Tokens;
    hide HasNode;
    hide Middle;
    hide Covered;
    hide Agree;
    TrieIsTable(routes, []);
    forall q | Covered(Build(routes), q)
      ensures Agree(toks, q)
    {
      WalksAreRegistered(routes, q);
      if q == [] {
        AgreeNothing(toks);
      } else {
        var r :| r in routes && Begins(q, r.pattern);
        AgreePrefix(toks, q, Tokens(r.pattern).value);
      }
    }
    AgreeMiddle(Build(routes), toks);
  }

  lemma AgreeNothing(toks: seq<Token>)
    ensures Agree(toks, [])
  {
  }
}
