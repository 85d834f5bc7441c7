/**
 Registration refines a map: for every pattern, insert_route changes the leaf stored
 under that pattern's tokens as set_endpoint says, and no other leaf; a call that throws
 changes none. The trie invariant is kept either way.
 */
module TrieContents {
  import opened Wrappers
  import opened Pattern
  import opened Endpoints
  import opened Trie
  import opened TrieOrder
  import opened TrieSteps

  // ------------------------------------------------------ adding, replacing

  lemma KidGood(t: Tree, typ: NodeType, i: nat)
    requires Good(t) && i < |t.kids.Get(typ)|
    ensures var k := t.kids.Get(typ)[i];
            k.typ == typ && EdgeOk(k) && Good(k) && EdgeTokens(k) != [] && EdgeTokens(k)[0] == EdgeKey(k)
  {
    var ks := t.kids.Get(typ);
    assert GroupOk(ks, typ) && ks[i] in ks;
    assert GoodGroup(ks);
  }

  lemma GroupGood(t: Tree, typ: NodeType)
    requires Good(t)
    ensures GroupOk(t.kids.Get(typ), typ)
  {
  }

  /** The invariant in plain terms, for any node of a good trie. */
  lemma GoodShape(t: Tree)
    requires Good(t)
    ensures forall i, j :: 0 <= i < j < |t.kids.statics| ==> t.kids.statics[i].head < t.kids.statics[j].head
    ensures forall k <- t.kids.statics ::
              && k.prefix != "" && '{' !in k.prefix && '*' !in k.prefix && k.head == k.prefix[0] && k.tail == NUL
              && (t.typ in {Regexp, Param} ==> k.prefix[0] == t.tail)
    ensures forall i, j :: 0 <= i < j < |t.kids.params| ==> t.kids.params[i].tail != t.kids.params[j].tail
    ensures forall i, j :: 0 <= i < j < |t.kids.regexps| ==>
              t.kids.regexps[i].tail != t.kids.regexps[j].tail || t.kids.regexps[i].prefix != t.kids.regexps[j].prefix
    ensures |t.kids.catchAlls| <= 1 && forall k <- t.kids.catchAlls :: k.kids == NONE
    ensures forall typ: NodeType, k <- t.kids.Get(typ) :: k.typ == typ && Good(k)
  {
    hide GroupOk;
    hide EdgeOk;
    GroupGood(t, Static);
    GroupGood(t, Param);
    GroupGood(t, Regexp);
    GroupGood(t, CatchAll);
    StaticShape(t.kids.statics);
    WildShape(t.kids.params, Param);
    WildShape(t.kids.regexps, Regexp);
    CatchAllShape(t.kids.catchAlls);
    assert t.kids.Get(Static) == t.kids.statics;
    forall typ: NodeType, k | k in t.kids.Get(typ)
      ensures k.typ == typ && Good(k)
    {
      var i :| 0 <= i < |t.kids.Get(typ)| && t.kids.Get(typ)[i] == k;
      KidGood(t, typ, i);
    }
  }

  lemma StaticShape(ks: seq<Tree>)
    requires GroupOk(ks, Static)
    ensures forall i, j :: 0 <= i < j < |ks| ==> ks[i].head < ks[j].head
    ensures forall k <- ks :: k.prefix != "" && '{' !in k.prefix && '*' !in k.prefix && k.head == k.prefix[0] && k.tail == NUL
  {
    assert forall i :: 0 <= i < |ks| ==> ks[i] in ks;
    assert forall i, j :: 0 <= i < j < |ks| ==> EdgeKey(ks[i]) != EdgeKey(ks[j]);
  }

  lemma WildShape(ks: seq<Tree>, typ: NodeType)
    requires GroupOk(ks, typ) && typ in {Param, Regexp}
    ensures forall i, j :: 0 <= i < j < |ks| ==> ks[i].tail != ks[j].tail || (typ == Regexp && ks[i].prefix != ks[j].prefix)
  {
    assert forall i :: 0 <= i < |ks| ==> ks[i] in ks;
    assert forall i, j :: 0 <= i < j < |ks| ==> EdgeKey(ks[i]) != EdgeKey(ks[j]);
  }

  lemma CatchAllShape(ks: seq<Tree>)
    requires GroupOk(ks, CatchAll)
    ensures |ks| <= 1 && forall k <- ks :: k.kids == NONE
  {
    assert forall i :: 0 <= i < |ks| ==> ks[i] in ks;
    assert forall i :: 0 <= i < |ks| ==> EdgeKey(ks[i]) == Star;
    assert |ks| > 1 ==> EdgeKey(ks[0]) == EdgeKey(ks[1]);
  }

  lemma GroupAdd(ks: seq<Tree>, k: Tree)
    requires GroupOk(ks, k.typ) && EdgeOk(k)
    requires forall x <- ks :: EdgeKey(x) != EdgeKey(k)
    ensures GroupOk(Ordered(ks + [k]), k.typ)
    ensures forall x :: x in Ordered(ks + [k]) <==> x in ks || x == k
  {
    var all := ks + [k];
    OrderedPermutes(all);
    OrderedDistinct(all);
    if k.typ == Static {
      OrderedStatic(all);
    } else {
      OrderedWild(all);
      assert forall x <- Ordered(all) :: x.head == k.head;
    }
  }

  lemma GoodAdd(t: Tree, k: Tree)
    requires Good(t) && EdgeOk(k) && Good(k)
    requires t.typ in {Regexp, Param} ==> k.head == t.tail
    requires forall x <- t.kids.Get(k.typ) :: EdgeKey(x) != EdgeKey(k)
    ensures Good(AddKid(t, k))
  {
    var ks, t' := t.kids.Get(k.typ), AddKid(t, k);
    GroupAdd(ks, k);
    assert GoodGroup(t'.kids.Get(k.typ));
    forall typ: NodeType
      ensures GroupOk(t'.kids.Get(typ), typ)
    {
      assert GroupOk(t.kids.Get(typ), typ);
    }
  }

  lemma LookupAdd(t: Tree, k: Tree, toks: seq<Token>)
    requires GroupOk(t.kids.Get(k.typ), k.typ) && EdgeOk(k)
    requires forall x <- t.kids.Get(k.typ) :: EdgeKey(x) != EdgeKey(k)
    ensures Lookup(AddKid(t, k), toks)
         == if toks != [] && toks[0] == EdgeKey(k) then Via(k, toks) else Lookup(t, toks)
  {
    hide Ordered;
    hide Via;
    hide KeyIndex;
    if toks != [] && TypeOf(toks[0]) == k.typ {
      var ks := t.kids.Get(k.typ);
      GroupAdd(ks, k);
      OrderedPermutes(ks + [k]);
      DistinctAppend(ks, k);
      SameChild(ks + [k], Ordered(ks + [k]), toks[0]);
      KeyIndexAdd(ks, k, toks[0]);
    }
  }

  lemma KeyIndexAdd(ks: seq<Tree>, k: Tree, tok: Token)
    requires forall x <- ks :: EdgeKey(x) != EdgeKey(k)
    ensures var i, j := KeyIndex(ks, tok), KeyIndex(ks + [k], tok);
            if i < |ks| then j == i && (ks + [k])[j] == ks[i]
            else j == if tok == EdgeKey(k) then |ks| else |ks| + 1
  {
    hide EdgeKey;
    var i, j := KeyIndex(ks, tok), KeyIndex(ks + [k], tok);
    assert forall l :: 0 <= l < |ks| ==> (ks + [k])[l] == ks[l];
    assert (ks + [k])[|ks|] == k;
    if i < |ks| {
      assert ks[i] in ks && (ks + [k])[i] == ks[i];
    }
  }

  lemma GroupSet(ks: seq<Tree>, i: nat, k: Tree)
    requires i < |ks| && GroupOk(ks, k.typ) && EdgeOk(k)
    requires EdgeKey(k) == EdgeKey(ks[i]) && k.tail == ks[i].tail
    ensures GroupOk(ks[i := k], k.typ)
    ensures k.head == ks[i].head
  {
    var ks' := ks[i := k];
    assert ks[i] in ks;
    assert forall j :: 0 <= j < |ks| ==>
                         EdgeKey(ks'[j]) == EdgeKey(ks[j]) && ks'[j].head == ks[j].head && ks'[j].tail == ks[j].tail;
  }

  lemma GoodSet(t: Tree, typ: NodeType, i: nat, k: Tree)
    requires Good(t) && i < |t.kids.Get(typ)|
    requires EdgeOk(k) && Good(k) && k.typ == typ && EdgeKey(k) == EdgeKey(t.kids.Get(typ)[i])
    requires k.tail == t.kids.Get(typ)[i].tail
    ensures Good(SetKid(t, typ, i, k))
  {
    var ks, t' := t.kids.Get(typ), SetKid(t, typ, i, k);
    assert GroupOk(ks, typ) && ks[i] in ks;
    GroupSet(ks, i, k);
    assert GoodGroup(ks) && GoodGroup(ks[i := k]);
    forall other: NodeType
      ensures GroupOk(t'.kids.Get(other), other)
    {
      assert GroupOk(t.kids.Get(other), other);
    }
  }

  lemma LookupSet(t: Tree, typ: NodeType, i: nat, k: Tree, toks: seq<Token>)
    requires i < |t.kids.Get(typ)| && GroupOk(t.kids.Get(typ), typ)
    requires k.typ == typ && EdgeKey(k) == EdgeKey(t.kids.Get(typ)[i])
    ensures Lookup(SetKid(t, typ, i, k), toks)
         == if toks != [] && toks[0] == EdgeKey(k) then Via(k, toks) else Lookup(t, toks)
  {
    if toks != [] && TypeOf(toks[0]) == typ {
      var ks := t.kids.Get(typ);
      var m, n := KeyIndex(ks, toks[0]), KeyIndex(ks[i := k], toks[0]);
      assert ks[i] in ks;
      assert forall j :: 0 <= j < |ks| ==> EdgeKey(ks[i := k][j]) == EdgeKey(ks[j]);
      assert m == n;
    }
  }

  // ---------------------------------------------------------- a new branch

  lemma BranchEnd(k: Tree, toks: seq<Token>)
    requires k.kids == NONE
    ensures Good(k)
    ensures Via(k, toks) == if toks == EdgeTokens(k) then k.leaf else EMPTY
  {
    forall typ: NodeType
      ensures k.kids.Get(typ) == []
    {
    }
    if EdgeTokens(k) <= toks {
      var rest := toks[|EdgeTokens(k)|..];
      assert toks == EdgeTokens(k) + rest;
    }
  }

  lemma NoKids(t: Tree)
    requires t.kids == NONE
    ensures forall typ: NodeType :: t.kids.Get(typ) == [] && GroupOk(t.kids.Get(typ), typ)
    ensures forall toks :: Lookup(t, toks) == if toks == [] then t.leaf else EMPTY
  {
    forall typ: NodeType
      ensures t.kids.Get(typ) == [] && GroupOk(t.kids.Get(typ), typ)
    {
    }
  }

  /** A childless node with one new child below it. */
  lemma BranchStep(first: Tree, k: Tree, s: string, rest: string, leaf: Leaf, toks: seq<Token>)
    requires first.kids == NONE && first.leaf == EMPTY && rest != ""
    requires EdgeTokens(first) != [] && Tokens(s) == Prepend(EdgeTokens(first), Tokens(rest))
    requires Tokens(rest).Some? && Good(k) && EdgeOk(k) && k.head == rest[0] && EdgeKey(k) == Tokens(rest).value[0]
    requires first.typ in {Regexp, Param} ==> first.tail == rest[0]
    requires var n := |EdgeTokens(first)|; n <= |toks| ==>
               Via(k, toks[n..]) == if Tokens(rest) == Some(toks[n..]) then leaf else EMPTY
    ensures Good(AddKid(first, k))
    ensures Via(AddKid(first, k), toks) == if Tokens(s) == Some(toks) then leaf else EMPTY
  {
    hide Good;
    hide EdgeOk;
    hide Tokens;
    hide Ordered;
    hide Lookup;
    BranchEnd(first, []);
    NoKids(first);
    GoodAdd(first, k);
    var edge, t' := EdgeTokens(first), AddKid(first, k);
    assert EdgeTokens(t') == edge;
    PrependIs(edge, Tokens(rest), toks);
    if edge <= toks {
      var below := toks[|edge|..];
      LookupAdd(first, k, below);
      assert Via(t', toks) == Lookup(t', below);
    }
  }

  lemma PrependIs(edge: seq<Token>, rest: Option<seq<Token>>, toks: seq<Token>)
    ensures Prepend(edge, rest) == Some(toks) <==> edge <= toks && rest == Some(toks[|edge|..])
  {
    if edge <= toks {
      assert toks == edge + toks[|edge|..];
    }
    if rest.Some? {
      assert (edge + rest.value)[|edge|..] == rest.value;
    }
  }

  /** What a branch for `s` must be: well formed, starting with the first token, with one leaf. */
  ghost predicate BranchFits(s: string, leaf: Leaf, branch: Option<Tree>, toks: seq<Token>)
    requires s != ""
  {
    && (branch.Some? <==> Tokens(s).Some?)
    && (branch.Some? ==>
          var k := branch.value;
          && Good(k) && EdgeOk(k) && k.head == s[0] && EdgeKey(k) == Tokens(s).value[0]
          && Via(k, toks) == if Tokens(s) == Some(toks) then leaf else EMPTY)
  }

  lemma {:induction false} BranchGood(s: string, pre: string, leaf: Leaf, toks: seq<Token>)
    requires s != ""
    ensures BranchFits(s, leaf, Branch(s, pre, leaf), toks)
    decreases |s|, 1
  {
    SegmentTokens(s);
    if NextSegment(s).Some? {
      var seg := NextSegment(s).value;
      if seg.typ == Static {
        assert s[0] in s;
        BranchEnd(Tree(Static, s[0], NUL, s, None, leaf, NONE), toks);
      } else if seg.start > 0 {
        BranchAfterText(s, seg, pre, leaf, toks);
      } else {
        BranchAfterWild(s, seg, pre, leaf, toks);
      }
    }
  }

  /** Literal text first: a static node above the branch for the wild segment. */
  lemma {:induction false} BranchAfterText(s: string, seg: Segment, pre: string, leaf: Leaf, toks: seq<Token>)
    requires s != "" && NextSegment(s) == Some(seg) && seg.typ != Static && seg.start > 0
    requires SegmentAgrees(s, seg)
    ensures BranchFits(s, leaf, Branch(s, pre, leaf), toks)
    decreases |s|, 0
  {
    hide NextSegment;
    hide Branch;
    hide Tokens;
    hide Keys;
    hide Ordered;
    hide Via;
    var n := seg.start;
    var first := Tree(Static, s[0], NUL, s[..n], None, EMPTY, NONE);
    var rest := s[n..];
    BranchText(s, seg, pre, leaf);
    PlainBefore(s, n);
    BranchGood(rest, "", leaf, if n <= |toks| then toks[n..] else []);
    var next := Branch(rest, "", leaf);
    assert s[..n][0] in s[..n];
    if next.Some? {
      assert EdgeTokens(first) == Lits(s[..n]);
      BranchStep(first, next.value, s, rest, leaf, toks);
    }
  }

  /** A wild segment at the very start is the first token. */
  lemma FirstToken(s: string, seg: Segment)
    requires seg.start == 0 <= seg.end <= |s| && SegmentAgrees(s, seg) && seg.typ != Static && s != ""
    ensures Tokens(s) == Prepend([TokenOf(seg)], Tokens(s[seg.end..]))
    ensures if seg.typ == CatchAll then seg.end == |s| && s[0] == '*'
            else s[0] == '{' && (seg.end < |s| ==> seg.tail == s[seg.end])
  {
    assert Lits(s[..0]) + [TokenOf(seg)] == [TokenOf(seg)];
    if seg.typ == CatchAll {
      assert s[seg.end..] == "";
      assert [TokenOf(seg)] + [] == [TokenOf(seg)];
    }
  }

  /** A wild segment first: the node for it, above the branch for what follows. */
  lemma {:induction false} BranchAfterWild(s: string, seg: Segment, pre: string, leaf: Leaf, toks: seq<Token>)
    requires s != "" && NextSegment(s) == Some(seg) && seg.typ != Static && seg.start == 0
    requires SegmentAgrees(s, seg) && (seg.typ == CatchAll ==> seg.tail == NUL)
    ensures BranchFits(s, leaf, Branch(s, pre, leaf), toks)
    decreases |s|, 0
  {
    assert seg.start <= seg.end <= |s|;
    FirstToken(s, seg);
    var first := if seg.typ == Regexp then Tree(Regexp, s[0], seg.tail, seg.rexpat, Some(seg.rexpat), EMPTY, NONE)
                 else Tree(seg.typ, s[0], seg.tail, pre, None, EMPTY, NONE);
    assert EdgeTokens(first) == [TokenOf(seg)];
    if Continues(s, seg) {
      var rest := s[seg.end..];
      BranchGood(rest, rest, leaf, if 1 <= |toks| then toks[1..] else []);
      var next := Branch(rest, rest, leaf);
      if next.Some? {
        BranchStep(first, next.value, s, rest, leaf, toks);
      }
    } else {
      BranchLast(s, seg, first.(leaf := leaf), toks);
    }
  }

  lemma BranchLast(s: string, seg: Segment, k: Tree, toks: seq<Token>)
    requires seg.end == |s| && seg.typ != Static && k.typ == seg.typ && k.kids == NONE && EdgeKey(k) == TokenOf(seg)
    requires Tokens(s) == Prepend([TokenOf(seg)], Tokens(s[seg.end..]))
    ensures Good(k) && Tokens(s) == Some([EdgeKey(k)])
    ensures Via(k, toks) == if Tokens(s) == Some(toks) then k.leaf else EMPTY
  {
    assert s[seg.end..] == "";
    assert [TokenOf(seg)] + [] == [TokenOf(seg)];
    BranchEnd(k, toks);
  }

  // --------------------------------------------------------- registration

  /** The leaf under `toks` after registering `r` where the remaining search is `s`. */
  ghost function After(leaf: Leaf, s: string, r: Route, toks: seq<Token>): Leaf {
    if Accepted(r.pattern) && Tokens(s) == Some(toks) then Register(leaf, r) else leaf
  }

  /** `s` may be searched for at `t`: below a parameter it begins with the tail, below a catch-all it is used up. */
  ghost predicate Fits(t: Tree, s: string) {
    && (s != "" && t.typ in {Regexp, Param} ==> s[0] == t.tail)
    && (s != "" ==> t.typ != CatchAll)
  }

  predicate SameEdge(a: Tree, b: Tree) {
    a.typ == b.typ && a.head == b.head && a.tail == b.tail && a.prefix == b.prefix && a.rex == b.rex
  }

  /** The outcome of registering at `t`, seen at one token sequence. */
  ghost predicate Refines(t: Tree, s: string, r: Route, out: Outcome, toks: seq<Token>) {
    && out.ok == Accepted(r.pattern)
    && Good(out.tree) && SameEdge(t, out.tree)
    && Lookup(out.tree, toks) == After(Lookup(t, toks), s, r, toks)
  }

  /** One edge's tokens off the front of both the pattern and the token sequence. */
  lemma AfterEdge(edge: seq<Token>, s: string, rest: string, r: Route, toks: seq<Token>, leaf: Leaf)
    requires Tokens(s) == Prepend(edge, Tokens(rest))
    ensures After(leaf, s, r, toks) == if edge <= toks then After(leaf, rest, r, toks[|edge|..]) else leaf
  {
    if edge <= toks {
      assert toks == edge + toks[|edge|..];
      if Tokens(s) == Some(toks) {
        assert Tokens(rest).value == Tokens(s).value[|edge|..];
      }
    }
  }

  /** Through an edge: `m` stands for the old child there (itself, or its split form), `m'` for the new one. */
  lemma StepDown(t: Tree, i: nat, m: Tree, m': Tree, s: string, rest: string, r: Route, toks: seq<Token>)
    requires GroupOk(t.kids.Get(m.typ), m.typ) && i < |t.kids.Get(m.typ)|
    requires SameEdge(m, m') && EdgeKey(m) == EdgeKey(t.kids.Get(m.typ)[i])
    requires Via(m, toks) == Via(t.kids.Get(m.typ)[i], toks)
    requires EdgeTokens(m) != [] && EdgeTokens(m)[0] == EdgeKey(m)
    requires Tokens(s) == Prepend(EdgeTokens(m), Tokens(rest))
    requires var n := |EdgeTokens(m)|; n <= |toks| ==>
               Lookup(m', toks[n..]) == After(Lookup(m, toks[n..]), rest, r, toks[n..])
    ensures Lookup(SetKid(t, m.typ, i, m'), toks) == After(Lookup(t, toks), s, r, toks)
  {
    hide Lookup;
    hide KeyIndex;
    hide GroupOk;
    hide Tokens;
    hide Accepted;
    hide After;
    hide SetKid;
    var edge := EdgeTokens(m);
    assert EdgeTokens(m') == edge;
    LookupSet(t, m.typ, i, m', toks);
    AfterEdge(edge, s, rest, r, toks, Via(m, toks));
    AfterEdge(edge, s, rest, r, toks, Lookup(t, toks));
    if toks != [] && toks[0] == EdgeKey(m) {
      LookupVia(t, m.typ, i, toks);
    }
  }

  /** A token sequence that starts with a child's key leads into that child. */
  lemma LookupVia(t: Tree, typ: NodeType, i: nat, toks: seq<Token>)
    requires GroupOk(t.kids.Get(typ), typ) && i < |t.kids.Get(typ)|
    requires toks != [] && toks[0] == EdgeKey(t.kids.Get(typ)[i])
    ensures Lookup(t, toks) == Via(t.kids.Get(typ)[i], toks)
  {
    hide Via;
    var ks := t.kids.Get(typ);
    assert ks[i] in ks && TypeOf(toks[0]) == typ;
    assert KeyIndex(ks, toks[0]) == i;
  }

  /** What the front segment says about the tokens of the search. */
  ghost predicate FrontOk(s: string, front: Option<Segment>)
    requires s != ""
  {
    && (front.None? ==> Tokens(s).None?)
    && (front.Some? ==>
          var seg := front.value;
          && (Tokens(s).Some? ==> SegmentKey(s, seg) == Tokens(s).value[0])
          && if seg.typ == Static then s[0] != '{' && s[0] != '*'
             else
               && 0 < seg.end <= |s|
               && (s[seg.end..] != "" ==> seg.typ != CatchAll && seg.tail == s[seg.end])
               && Tokens(s) == Prepend([TokenOf(seg)], Tokens(s[seg.end..])))
  }

  lemma BraceIsFront(s: string)
    requires s != "" && s[0] == '{'
    ensures var e := CloseBrace(s, 1, 1); NextSegment(s) == if e < 0 then None else Some(WildSegment(s, 0, e))
  {
    hide CloseBrace;
    hide WildSegment;
    StartsAt(s, '{');
    hide IndexOf;
  }

  lemma StartsAt(s: string, c: char)
    requires s != "" && s[0] == c
    ensures IndexOf(s, c) == 0 && forall d :: d != c ==> IndexOf(s, d) != 0
  {
  }

  lemma WildFields(s: string, e: nat)
    requires 0 < e < |s|
    ensures var seg := WildSegment(s, 0, e);
            seg.typ in {Param, Regexp} && seg.end == e + 1 && (seg.end < |s| ==> seg.tail == s[seg.end])
  {
    hide IndexOf;
    hide Anchor;
  }

  lemma FrontBrace(s: string)
    requires s != "" && s[0] == '{'
    ensures FrontOk(s, NextSegment(s))
  {
    hide Tokens;
    hide CloseBrace;
    hide WildSegment;
    hide NextSegment;
    BraceTokens(s);
    BraceIsFront(s);
    var e := CloseBrace(s, 1, 1);
    if e >= 0 {
      WildFields(s, e);
    }
  }

  lemma FrontStar(s: string)
    requires s != "" && s[0] == '*'
    ensures FrontOk(s, NextSegment(s))
  {
    assert IndexOf(s, '*') == 0;
    if |s| == 1 {
      assert s == "*";
      assert [Star] + [] == [Star];
    }
  }

  lemma FrontTokens(s: string)
    requires s != ""
    ensures FrontOk(s, Front(s))
  {
    if s[0] == '{' {
      FrontBrace(s);
    } else if s[0] == '*' {
      FrontStar(s);
    }
  }

  ghost predicate NoKey(ks: seq<Tree>, key: Token) {
    forall x <- ks :: EdgeKey(x) != key
  }

  lemma AddRefines(t: Tree, k: Tree, leaf: Leaf, s: string, toks: seq<Token>)
    requires Good(t) && s != "" && Fits(t, s) && BranchFits(s, leaf, Some(k), toks)
    requires NoKey(t.kids.Get(TypeOf(Tokens(s).value[0])), Tokens(s).value[0])
    ensures Good(AddKid(t, k)) && SameEdge(t, AddKid(t, k))
    ensures Lookup(AddKid(t, k), toks) == if Tokens(s) == Some(toks) then leaf else Lookup(t, toks)
    ensures Tokens(s) == Some(toks) ==> Lookup(t, toks) == EMPTY
  {
    var key := EdgeKey(k);
    assert TypeOf(key) == k.typ;
    var ks := t.kids.Get(k.typ);
    GoodAdd(t, k);
    assert GroupOk(ks, k.typ);
    LookupAdd(t, k, toks);
    assert KeyIndex(ks, key) == |ks|;
  }

  lemma AttachRefines(t: Tree, s: string, r: Route, toks: seq<Token>)
    requires Good(t) && s != "" && Fits(t, s)
    requires Accepted(r.pattern) ==> Tokens(s).Some?
    requires Tokens(s).Some? ==> NoKey(t.kids.Get(TypeOf(Tokens(s).value[0])), Tokens(s).value[0])
    ensures Refines(t, s, r, Attach(t, s, r), toks)
  {
    var leaf := NewLeaf(EMPTY, r);
    BranchGood(s, s, leaf, toks);
    var branch := Branch(s, s, leaf);
    if branch.Some? {
      AddRefines(t, branch.value, leaf, s, toks);
    }
  }

  /** The upper and the lower node that a split makes of `k`. */
  function Upper(k: Tree, n: nat): Tree
    requires n < |k.prefix|
  {
    Tree(Static, k.prefix[0], NUL, k.prefix[..n], None, EMPTY, NONE)
  }

  function Lower(k: Tree, n: nat): Tree
    requires n < |k.prefix|
  {
    k.(head := k.prefix[n], prefix := k.prefix[n..])
  }

  lemma SplitShape(k: Tree, n: nat)
    requires Good(k) && EdgeOk(k) && k.typ == Static && 0 < n < |k.prefix|
    ensures var m := Split(k, n);
            Good(m) && EdgeOk(m) && SameEdge(m, Upper(k, n)) && m.leaf == EMPTY && m.kids == NONE.Put(Static, [Lower(k, n)])
  {
    var base, low := Upper(k, n), Lower(k, n);
    assert Plain(low.prefix) && Plain(base.prefix) by {
      assert forall c :: c in low.prefix || c in base.prefix ==> c in k.prefix;
    }
    assert Good(low) by {
      forall typ: NodeType
        ensures GroupOk(low.kids.Get(typ), typ)
      {
        assert GroupOk(k.kids.Get(typ), typ);
      }
    }
    BranchEnd(base, []);
    GoodAdd(base, low);
    OrderedPermutes([low]);
    assert Ordered([low]) == [low] by {
      assert Ordered([low])[0] in Ordered([low]);
    }
    assert [] + [low] == [low];
  }

  lemma LookupLower(k: Tree, n: nat, toks: seq<Token>)
    requires n < |k.prefix|
    ensures Lookup(Lower(k, n), toks) == Lookup(k, toks)
  {
  }

  /** Splitting a static node changes no contents. */
  lemma SplitKeeps(k: Tree, n: nat, toks: seq<Token>)
    requires Good(k) && EdgeOk(k) && k.typ == Static && 0 < n < |k.prefix|
    ensures Via(Split(k, n), toks) == Via(k, toks)
  {
    SplitShape(k, n);
    var m, low := Split(k, n), Lower(k, n);
    var a, b := Lits(k.prefix[..n]), Lits(k.prefix[n..]);
    assert Lits(k.prefix) == a + b;
    if a <= toks {
      var below := toks[n..];
      assert toks == a + below;
      assert a + b <= toks <==> b <= below;
      ViaOnly(m, low, below);
      if b <= below {
        assert toks[|k.prefix|..] == below[|b|..];
        LookupLower(k, n, below[|b|..]);
      }
    }
  }

  /** An empty node with one static child. */
  lemma ViaOnly(m: Tree, k: Tree, toks: seq<Token>)
    requires m.leaf == EMPTY && m.kids == NONE.Put(Static, [k]) && k.typ == Static && EdgeOk(k)
    ensures Lookup(m, toks) == Via(k, toks)
  {
  }

  /** The pattern ends here: this node's own leaf changes. */
  lemma EndRefines(t: Tree, r: Route, toks: seq<Token>)
    requires Good(t)
    ensures Refines(t, "", r, Outcome(t.(leaf := NewLeaf(t.leaf, r)), Accepted(r.pattern)), toks)
  {
    var t' := t.(leaf := NewLeaf(t.leaf, r));
    assert Good(t') by {
      assert forall typ: NodeType :: t'.kids.Get(typ) == t.kids.Get(typ);
    }
    hide Good;
    hide Accepted;
    hide Register;
    assert Tokens("") == Some([]);
  }

  /** A malformed rest changes nothing. */
  lemma MalformedRefines(t: Tree, s: string, r: Route, toks: seq<Token>)
    requires Good(t) && Tokens(s).None? && !Accepted(r.pattern)
    ensures Refines(t, s, r, Outcome(t, false), toks)
  {
    hide Good;
    hide Accepted;
  }

  /** No child has the key of the front segment: it is not the key of the pattern's first token either. */
  lemma NoFrontKey(t: Tree, s: string, seg: Segment)
    requires s != "" && FrontOk(s, Some(seg))
    requires KeyIndex(t.kids.Get(seg.typ), SegmentKey(s, seg)) == |t.kids.Get(seg.typ)|
    ensures Tokens(s).Some? ==> NoKey(t.kids.Get(TypeOf(Tokens(s).value[0])), Tokens(s).value[0])
  {
    hide Tokens;
    assert TypeOf(SegmentKey(s, seg)) == seg.typ;
  }

  /** Registration at any node of the trie: the induction behind the two results below. */
  lemma {:induction false} InsertRefines(t: Tree, s: string, r: Route, toks: seq<Token>)
    requires Good(t) && Fits(t, s)
    requires Accepted(r.pattern) ==> Tokens(s).Some?
    ensures Refines(t, s, r, Insert(t, s, r), toks)
    decreases t
  {
    hide Good;
    hide Insert;
    hide Front;
    hide Attach;
    hide Tokens;
    hide Accepted;
    hide Refines;
    hide NewLeaf;
    hide KeyIndex;
    if s == "" {
      InsertAtEnd(t, r);
      EndRefines(t, r, toks);
    } else {
      FrontTokens(s);
      if Front(s).None? {
        InsertMalformed(t, s, r);
        MalformedRefines(t, s, r, toks);
      } else {
        var seg := Front(s).value;
        var i := KeyIndex(t.kids.Get(seg.typ), SegmentKey(s, seg));
        if i == |t.kids.Get(seg.typ)| {
          InsertNew(t, s, seg, r);
          NoFrontKey(t, s, seg);
          AttachRefines(t, s, r, toks);
        } else if seg.typ != Static {
          InsertWild(t, i, s, seg, r, toks);
        } else {
          InsertStatic(t, i, s, r, toks);
        }
      }
    }
  }

  lemma {:induction false} InsertWild(t: Tree, i: nat, s: string, seg: Segment, r: Route, toks: seq<Token>)
    requires Good(t) && s != "" && Front(s) == Some(seg) && seg.typ != Static && FrontOk(s, Some(seg))
    requires i < |t.kids.Get(seg.typ)| && i == KeyIndex(t.kids.Get(seg.typ), SegmentKey(s, seg))
    requires Accepted(r.pattern) ==> Tokens(s).Some?
    ensures Refines(t, s, r, Insert(t, s, r), toks)
    decreases t, 0
  {
    hide Insert;
    hide Front;
    hide NextSegment;
    hide Tokens;
    hide Accepted;
    hide Good;
    hide GroupOk;
    hide EdgeOk;
    hide Lookup;
    hide Via;
    hide KeyIndex;
    var k, rest := t.kids.Get(seg.typ)[i], s[seg.end..];
    KidGood(t, seg.typ, i);
    GroupGood(t, seg.typ);
    assert EdgeTokens(k) == [TokenOf(seg)] && (seg.typ != CatchAll ==> k.tail == seg.tail);
    InsertPast(t, s, seg, seg.end, i, r);
    InsertRefines(k, rest, r, if toks == [] then [] else toks[1..]);
    var out := Insert(k, rest, r);
    if rest == "" {
      InsertAtEnd(k, r);
    }
    EdgeKept(k, out.tree);
    StepDown(t, i, k, out.tree, s, rest, r, toks);
    GoodSet(t, seg.typ, i, out.tree);
  }

  lemma EdgeKept(k: Tree, k': Tree)
    requires EdgeOk(k) && SameEdge(k, k') && (k.typ == CatchAll ==> k'.kids == k.kids)
    ensures EdgeOk(k') && EdgeKey(k') == EdgeKey(k)
  {
  }

  lemma LiteralFront(s: string)
    requires s != "" && s[0] != '{' && s[0] != '*'
    ensures Front(s) == Some(STATIC_SEGMENT) && SegmentKey(s, STATIC_SEGMENT) == Lit(s[0])
  {
  }

  /** The text shared by the search and a static node: a non-empty run of literals. */
  lemma SharedText(t: Tree, i: nat, s: string)
    requires Good(t) && s != "" && s[0] != '{' && s[0] != '*'
    requires i < |t.kids.statics| && i == KeyIndex(t.kids.statics, Lit(s[0]))
    ensures var k := t.kids.statics[i]; var n := CommonPrefix(s, k.prefix);
            0 < n && Tokens(s) == Prepend(Lits(k.prefix[..n]), Tokens(s[n..]))
  {
    var k := t.kids.statics[i];
    KidGood(t, Static, i);
    assert k.head == s[0] == k.prefix[0];
    var n := CommonPrefix(s, k.prefix);
    assert s[..n] == k.prefix[..n];
    assert forall c :: c in k.prefix[..n] ==> c in k.prefix;
    PlainBefore(s, n);
  }

  lemma {:induction false} InsertStatic(t: Tree, i: nat, s: string, r: Route, toks: seq<Token>)
    requires Good(t) && s != "" && s[0] != '{' && s[0] != '*'
    requires i < |t.kids.statics| && i == KeyIndex(t.kids.statics, Lit(s[0]))
    requires Accepted(r.pattern) ==> Tokens(s).Some?
    ensures Refines(t, s, r, Insert(t, s, r), toks)
    decreases t, 0
  {
    hide Insert;
    hide Front;
    hide Tokens;
    hide Accepted;
    hide Refines;
    hide Good;
    hide CommonPrefix;
    hide KeyIndex;
    hide SplitOutcome;
    var k := t.kids.statics[i];
    assert t.kids.Get(Static) == t.kids.statics;
    KidGood(t, Static, i);
    SharedText(t, i, s);
    LiteralFront(s);
    var n := CommonPrefix(s, k.prefix);
    var rest, below := s[n..], if n <= |toks| then toks[n..] else [];
    if n == |k.prefix| {
      assert k.prefix == k.prefix[..n];
      InsertPast(t, s, STATIC_SEGMENT, n, i, r);
      InsertRefines(k, rest, r, below);
      StaticStep(t, i, k, Insert(k, rest, r), s, rest, r, toks);
    } else {
      InsertAtSplit(t, s, n, i, r);
      InsertBroken(t, i, k, n, s, r, toks);
    }
  }

  lemma InsertBroken(t: Tree, i: nat, k: Tree, n: nat, s: string, r: Route, toks: seq<Token>)
    requires Good(t) && i < |t.kids.statics| && k == t.kids.statics[i]
    requires n == CommonPrefix(s, k.prefix) && 0 < n < |k.prefix|
    requires Tokens(s) == Prepend(Lits(k.prefix[..n]), Tokens(s[n..]))
    requires Accepted(r.pattern) ==> Tokens(s).Some?
    ensures var out := SplitOutcome(Split(k, n), s, n, r);
            Refines(t, s, r, Outcome(SetKid(t, Static, i, out.tree), out.ok), toks)
  {
    KidGood(t, Static, i);
    SplitShape(k, n);
    SplitKeeps(k, n, toks);
    InsertSplit(k, n, s, r, if n <= |toks| then toks[n..] else []);
    StaticStep(t, i, Split(k, n), SplitOutcome(Split(k, n), s, n, r), s, s[n..], r, toks);
  }

  lemma InsertSplit(k: Tree, n: nat, s: string, r: Route, toks: seq<Token>)
    requires Good(k) && EdgeOk(k) && k.typ == Static && n == CommonPrefix(s, k.prefix) && 0 < n < |k.prefix|
    requires Accepted(r.pattern) ==> Tokens(s[n..]).Some?
    ensures Refines(Split(k, n), s[n..], r, SplitOutcome(Split(k, n), s, n, r), toks)
  {
    var m, rest := Split(k, n), s[n..];
    SplitShape(k, n);
    if n < |s| {
      FrontTokens(rest);
      assert s[n] != k.prefix[n];
      AttachRefines(m, rest, r, toks);
    }
  }

  lemma StaticStep(t: Tree, i: nat, m: Tree, out: Outcome, s: string, rest: string, r: Route, toks: seq<Token>)
    requires Good(t) && i < |t.kids.statics| && m.typ == Static && EdgeOk(m)
    requires EdgeKey(m) == EdgeKey(t.kids.statics[i]) && Via(m, toks) == Via(t.kids.statics[i], toks)
    requires Tokens(s) == Prepend(Lits(m.prefix), Tokens(rest))
    requires var n := |m.prefix|; Refines(m, rest, r, out, if n <= |toks| then toks[n..] else [])
    ensures Refines(t, s, r, Outcome(SetKid(t, Static, i, out.tree), out.ok), toks)
  {
    KidGood(t, Static, i);
    assert Lits(m.prefix)[0] == Lit(m.prefix[0]);
    StepDown(t, i, m, out.tree, s, rest, r, toks);
    GoodSet(t, Static, i, out.tree);
  }
}
