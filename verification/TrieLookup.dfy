/** find_pattern: is there already a node for a pattern? Mounting relies on it. */
module TrieLookup {
  import opened Wrappers
  import opened Pattern
  import opened Endpoints
  import opened Trie
  import opened TrieContents
  import opened TrieSearch

  /** The edge find_edge returns: by label, or the only catch-all whatever the label; parameters all share one label. */
  function EdgeByLabel(ks: seq<Tree>, typ: NodeType, lead: char): (r: Option<nat>)
    requires ks != []
    ensures r.Some? ==> r.value < |ks|
  {
    match typ
    case Static =>
      var i := KeyIndex(ks, Lit(lead));
      if i == |ks| then None else Some(i)
    case CatchAll => Some(0)
    case _ => if lead == '{' then Some((|ks| - 1) / 2) else None
  }

  /** How much of the pattern an edge accounts for; None if it is a static edge that does not match. */
  function Matched(k: Tree, p: string): (n: Option<nat>)
    ensures n.Some? ==> n.value <= |p|
  {
    match k.typ
    case Static =>
      var n := CommonPrefix(p, k.prefix);
      if n < |k.prefix| then None else Some(n)
    case CatchAll => Some(CommonPrefix(p, "*"))
    case _ => Some(IndexOf(p, '}') + 1)
  }

  /** The first group with an edge for the pattern decides, even if the pattern then fails below it. */
  function FindPattern(t: Tree, p: string): bool
    requires p != ""
    decreases t, 5
  {
    FindPatternFrom(t, 0, p)
  }

  function FindPatternFrom(t: Tree, g: nat, p: string): bool
    requires p != "" && g <= 4
    decreases t, 4 - g
  {
    if g == 4 then false
    else
      var ks := t.kids.Get(TYPES[g]);
      if ks == [] then FindPatternFrom(t, g + 1, p)
      else
        match EdgeByLabel(ks, TYPES[g], p[0])
        case None => FindPatternFrom(t, g + 1, p)
        case Some(i) =>
          match Matched(ks[i], p)
          case None => FindPatternFrom(t, g + 1, p)
          case Some(n) => p[n..] == "" || FindPattern(ks[i], p[n..])
  }

  /** Is there a node under these tokens, registered or not? */
  predicate HasNode(t: Tree, toks: seq<Token>)
    decreases t
  {
    toks == [] ||
    var ks := t.kids.Get(TypeOf(toks[0]));
    var i := KeyIndex(ks, toks[0]);
    i < |ks| && EdgeTokens(ks[i]) <= toks && HasNode(ks[i], toks[|EdgeTokens(ks[i])|..])
  }

  lemma {:induction false} LookupHasNode(t: Tree, toks: seq<Token>)
    requires Lookup(t, toks) != EMPTY
    ensures HasNode(t, toks)
    decreases t
  {
    if toks != [] {
      var ks := t.kids.Get(TypeOf(toks[0]));
      var k := ks[KeyIndex(ks, toks[0])];
      LookupHasNode(k, toks[|EdgeTokens(k)|..]);
    }
  }

  lemma CommonPrefixAll(p: string, prefix: string)
    ensures CommonPrefix(p, prefix) == |prefix| <==> prefix <= p
  {
  }

  /** A catch-all is found by `*` and by nothing longer. */
  lemma CatchAllOnly(t: Tree, p: string)
    requires Good(t) && p != ""
    ensures FindPatternFrom(t, 3, p) <==> p == "*" && t.kids.catchAlls != []
  {
    assert FindPatternFrom(t, 4, p) == false;
    assert TYPES[3] == CatchAll;
    if t.kids.catchAlls != [] {
      assert t.kids.Get(CatchAll) == t.kids.catchAlls;
      KidGood(t, CatchAll, 0);
      var k := t.kids.catchAlls[0];
      var n := CommonPrefix(p, "*");
      CommonPrefixAll(p, "*");
      if p != "*" {
        assert n == if "*" <= p then 1 else 0;
        assert p[n..] != "";
        NothingBelow(k, p[n..]);
      }
    }
  }

  lemma NothingBelow(k: Tree, p: string)
    requires k.kids == NONE && p != ""
    ensures !FindPattern(k, p)
  {
    assert !FindPatternFrom(k, 4, p);
    assert !FindPatternFrom(k, 3, p);
    assert !FindPatternFrom(k, 2, p);
    assert !FindPatternFrom(k, 1, p);
  }

  lemma SkipWild(t: Tree, p: string)
    requires p != "" && p[0] != '{'
    ensures FindPatternFrom(t, 1, p) == FindPatternFrom(t, 3, p)
  {
    assert FindPatternFrom(t, 2, p) == FindPatternFrom(t, 3, p);
    assert TYPES[1] == Regexp && TYPES[2] == Param;
  }

  // --------------------------------------------- where the lookup goes, by text

  /** The group in which the lookup looks for a parameter or regexp: the regexps, if there are any. */
  function WildGroup(t: Tree): seq<Tree> {
    if t.kids.regexps != [] then t.kids.regexps else t.kids.params
  }

  /**
   The walk of the lookup, for any text: at a `{` it takes the middle of the group and goes
   on after the next `}`, or from the same place if there is none.
   */
  predicate Goes(t: Tree, p: string)
    decreases t
  {
    p == "" ||
    if p[0] == '{' then
      var ks := WildGroup(t);
      ks != [] && Goes(ks[(|ks| - 1) / 2], p[IndexOf(p, '}') + 1..])
    else if p[0] == '*' then p == "*" && t.kids.catchAlls != []
    else
      var ks := t.kids.statics;
      var i := KeyIndex(ks, Lit(p[0]));
      i < |ks| && ks[i].prefix <= p && Goes(ks[i], p[|ks[i].prefix|..])
  }

  lemma StaticEdgePlain(t: Tree, i: nat)
    requires Good(t) && i < |t.kids.statics|
    ensures var k := t.kids.statics[i];
            && Good(k) && Plain(k.prefix) && k.prefix != "" && k.head == k.prefix[0] && k.typ == Static
            && k.head != '*' && k.head != '{' && EdgeTokens(k) == Lits(k.prefix)
  {
    assert t.kids.Get(Static) == t.kids.statics;
    KidGood(t, Static, i);
    var k := t.kids.statics[i];
    assert k.prefix[0] in k.prefix;
  }

  lemma NoSuchLabel(t: Tree, c: char)
    requires Good(t) && (c == '*' || c == '{')
    ensures KeyIndex(t.kids.statics, Lit(c)) == |t.kids.statics|
  {
    var i := KeyIndex(t.kids.statics, Lit(c));
    if i < |t.kids.statics| {
      StaticEdgePlain(t, i);
    }
  }

  /** Where a literal is wanted. */
  lemma AimLiteral(t: Tree, p: string)
    requires Good(t) && p != "" && p[0] != '{' && p[0] != '*'
    ensures var ks := t.kids.statics;
            var i := KeyIndex(ks, Lit(p[0]));
            FindPattern(t, p)
            <==> i < |ks| && ks[i].prefix <= p && (p[|ks[i].prefix|..] == "" || FindPattern(ks[i], p[|ks[i].prefix|..]))
  {
    hide Good;
    hide EdgeOk;
    hide KeyIndex;
    hide CommonPrefix;
    hide Lits;
    var ks := t.kids.statics;
    var i := KeyIndex(ks, Lit(p[0]));
    SkipWild(t, p);
    CatchAllOnly(t, p);
    assert TYPES[0] == Static && t.kids.Get(Static) == ks;
    if i < |ks| {
      StaticEdgePlain(t, i);
      CommonPrefixAll(p, ks[i].prefix);
    }
  }

  /** No static edge begins with a brace. */
  lemma FromStatic(t: Tree, p: string)
    requires Good(t) && p != "" && p[0] == '{'
    ensures FindPattern(t, p) == FindPatternFrom(t, 1, p)
  {
    hide Good;
    hide KeyIndex;
    hide Matched;
    NoSuchLabel(t, '{');
    assert TYPES[0] == Static && t.kids.Get(Static) == t.kids.statics;
  }

  /** Where a parameter or regexp is wanted. */
  lemma AimWild(t: Tree, p: string)
    requires Good(t) && p != "" && p[0] == '{'
    ensures var ks := WildGroup(t);
            var rest := p[IndexOf(p, '}') + 1..];
            FindPattern(t, p) <==> ks != [] && (rest == "" || FindPattern(ks[(|ks| - 1) / 2], rest))
  {
    hide IndexOf;
    hide FindPattern;
    hide FindPatternFrom;
    hide Good;
    FromStatic(t, p);
    FromWild(t, 1, p);
    FromWild(t, 2, p);
    CatchAllOnly(t, p);
    assert TYPES[1] == Regexp && TYPES[2] == Param;
  }

  /** The turn of a group of regexps or parameters. */
  lemma FromWild(t: Tree, g: nat, p: string)
    requires Good(t) && p != "" && p[0] == '{' && g in {1, 2}
    ensures var ks := t.kids.Get(TYPES[g]);
            var rest := p[IndexOf(p, '}') + 1..];
            FindPatternFrom(t, g, p)
            <==> if ks == [] then FindPatternFrom(t, g + 1, p) else rest == "" || FindPattern(ks[(|ks| - 1) / 2], rest)
  {
    hide IndexOf;
    hide CommonPrefix;
    var ks := t.kids.Get(TYPES[g]);
    if ks != [] {
      KidGood(t, TYPES[g], (|ks| - 1) / 2);
    }
  }

  /** Where a catch-all is wanted: a `*` with more text after it is nowhere. */
  lemma AimStar(t: Tree, p: string)
    requires Good(t) && p != "" && p[0] == '*'
    ensures FindPattern(t, p) <==> p == "*" && t.kids.catchAlls != []
  {
    NoSuchLabel(t, '*');
    SkipWild(t, p);
    CatchAllOnly(t, p);
    assert TYPES[0] == Static && t.kids.Get(Static) == t.kids.statics;
  }

  lemma WildGroupGood(t: Tree)
    requires Good(t) && WildGroup(t) != []
    ensures var ks := WildGroup(t); var k := ks[(|ks| - 1) / 2];
            Good(k) && k.typ in {Regexp, Param} && EdgeTokens(k) == [EdgeKey(k)]
  {
    var typ := if t.kids.regexps != [] then Regexp else Param;
    KidGood(t, typ, (|t.kids.Get(typ)| - 1) / 2);
  }

  // One unfolding of the walk for each way a text may begin.

  lemma GoesLiteral(t: Tree, p: string)
    requires p != "" && p[0] != '{' && p[0] != '*'
    ensures var ks := t.kids.statics;
            var i := KeyIndex(ks, Lit(p[0]));
            Goes(t, p) <==> i < |ks| && ks[i].prefix <= p && Goes(ks[i], p[|ks[i].prefix|..])
  {
    hide KeyIndex;
  }

  lemma GoesWild(t: Tree, p: string)
    requires p != "" && p[0] == '{'
    ensures var ks := WildGroup(t);
            Goes(t, p) <==> ks != [] && Goes(ks[(|ks| - 1) / 2], p[IndexOf(p, '}') + 1..])
  {
    hide IndexOf;
    hide WildGroup;
  }

  lemma GoesNowhere(t: Tree, p: string)
    ensures p == "" ==> Goes(t, p)
    ensures p != "" && p[0] == '*' ==> (Goes(t, p) <==> p == "*" && t.kids.catchAlls != [])
  {
  }

  /** find_pattern answers, on every trie and for every text, whether this walk arrives. */
  lemma {:induction false} FindPatternGoes(t: Tree, p: string)
    requires Good(t) && p != ""
    ensures FindPattern(t, p) <==> Goes(t, p)
    decreases t
  {
    hide FindPattern;
    hide Goes;
    hide Good;
    hide IndexOf;
    hide KeyIndex;
    if p[0] == '*' {
      AimStar(t, p);
      GoesNowhere(t, p);
    } else if p[0] == '{' {
      AimWild(t, p);
      GoesWild(t, p);
      if WildGroup(t) != [] {
        WildGroupGood(t);
        ArrivesWild(t, p[IndexOf(p, '}') + 1..]);
      }
    } else {
      AimLiteral(t, p);
      GoesLiteral(t, p);
      var ks := t.kids.statics;
      var i := KeyIndex(ks, Lit(p[0]));
      if i < |ks| && ks[i].prefix <= p {
        StaticEdgePlain(t, i);
        var rest := p[|ks[i].prefix|..];
        GoesNowhere(ks[i], rest);
        if rest != "" { FindPatternGoes(ks[i], rest); }
      }
    }
  }

  /** Below the node taken for a parameter. */
  lemma {:induction false} ArrivesWild(t: Tree, rest: string)
    requires Good(t) && WildGroup(t) != []
    ensures var k := WildGroup(t)[(|WildGroup(t)| - 1) / 2]; rest == "" || FindPattern(k, rest) <==> Goes(k, rest)
    decreases t, 0
  {
    hide FindPattern;
    hide Goes;
    hide Good;
    var ks := WildGroup(t);
    WildGroupGood(t);
    GoesNowhere(ks[(|ks| - 1) / 2], rest);
    if rest != "" { FindPatternGoes(ks[(|ks| - 1) / 2], rest); }
  }

  /** The walk ends at a node it took for a parameter if the next text does not begin with that node's tail. */
  lemma WrongTail(t: Tree, p: string)
    requires Good(t) && p != "" && p[0] == '{' && WildGroup(t) != []
    requires var ks := WildGroup(t);
             var next := IndexOf(p, '}') + 1;
             0 < next < |p| && p[next] != ks[(|ks| - 1) / 2].tail
    ensures !FindPattern(t, p)
  {
    hide FindPattern;
    var ks, rest := WildGroup(t), p[IndexOf(p, '}') + 1..];
    var k := ks[(|ks| - 1) / 2];
    WildGroupGood(t);
    AimWild(t, p);
    FindPatternGoes(k, rest);
    TailFirst(k, rest);
  }

  /** Every child of a parameter is labelled with its tail. */
  lemma TailLabels(k: Tree)
    requires Good(k) && k.typ in {Regexp, Param}
    ensures forall i :: 0 <= i < |k.kids.statics| ==> EdgeKey(k.kids.statics[i]) == Lit(k.tail)
    ensures WildGroup(k) != [] ==> k.tail == '{'
    ensures k.kids.catchAlls != [] ==> k.tail == '*'
  {
    forall typ: NodeType, i | 0 <= i < |k.kids.Get(typ)|
      ensures k.kids.Get(typ)[i].head == k.tail && k.kids.Get(typ)[i].typ == typ && EdgeOk(k.kids.Get(typ)[i])
    {
      KidGood(k, typ, i);
      assert TailOk(k) && k.kids.Get(typ)[i] in k.kids.Get(typ);
    }
    assert k.kids.Get(Static) == k.kids.statics && k.kids.Get(CatchAll) == k.kids.catchAlls;
    assert k.kids.Get(Regexp) == k.kids.regexps && k.kids.Get(Param) == k.kids.params;
  }

  /** Below a parameter every text begins with its tail. */
  lemma TailFirst(k: Tree, rest: string)
    requires Good(k) && k.typ in {Regexp, Param} && rest != "" && rest[0] != k.tail
    ensures !Goes(k, rest)
  {
    hide Good;
    hide IndexOf;
    TailLabels(k);
  }

  // ------------------------------------------- where the lookup goes, by tokens

  /** Is every parameter closed by the first `}` after it, as the lookup takes it to be? */
  predicate Flat(p: string)
    decreases |p|
  {
    p == "" || p[0] == '*'
    || ((p[0] == '{' ==> FrontClosed(p) && IndexOf(p, '}') == CloseBrace(p, 1, 1)) && Flat(p[FrontLength(p)..]))
  }

  /** The walk of the lookup: at a parameter or regexp it takes the middle of the group, whatever the token. */
  predicate Aims(t: Tree, toks: seq<Token>)
    decreases t
  {
    toks == [] ||
    match toks[0]
    case Lit(_) =>
      var ks := t.kids.statics;
      var i := KeyIndex(ks, toks[0]);
      i < |ks| && Lits(ks[i].prefix) <= toks && Aims(ks[i], toks[|ks[i].prefix|..])
    case Star => t.kids.catchAlls != []
    case _ =>
      var ks := WildGroup(t);
      ks != [] && Aims(ks[(|ks| - 1) / 2], toks[1..])
  }

  /** At every parameter or regexp on the walk along these tokens, the wanted child is the one the lookup takes. */
  predicate Middle(t: Tree, toks: seq<Token>)
    decreases t
  {
    toks == [] ||
    match toks[0]
    case Lit(_) =>
      var ks := t.kids.statics;
      var i := KeyIndex(ks, toks[0]);
      i < |ks| && Lits(ks[i].prefix) <= toks ==> Middle(ks[i], toks[|ks[i].prefix|..])
    case Star => true
    case _ =>
      var ks := WildGroup(t);
      var i := (|ks| - 1) / 2;
      ks != [] && KeyIndex(t.kids.Get(TypeOf(toks[0])), toks[0]) == i && t.kids.Get(TypeOf(toks[0])) == ks
      && Middle(ks[i], toks[1..])
  }

  predicate StarLast(toks: seq<Token>) {
    forall i :: 0 <= i < |toks| - 1 ==> !toks[i].Star?
  }

  lemma {:induction false} TokensStarLast(p: string)
    requires Tokens(p).Some?
    ensures StarLast(Tokens(p).value)
    decreases |p|
  {
    if p != "" && p[0] != '*' {
      var toks, rest := Tokens(p).value, p[FrontLength(p)..];
      TokensStarLast(rest);
      assert toks == [toks[0]] + Tokens(rest).value;
      FrontIsToken(p);
    }
  }

  /** The first token of a pattern tells its first character. */
  lemma FrontIsToken(p: string)
    requires p != "" && Tokens(p).Some?
    ensures var tok := Tokens(p).value[0];
            && (tok.Star? <==> p[0] == '*') && (tok.Par? || tok.Rex? <==> p[0] == '{') && (tok.Lit? ==> tok.c == p[0])
    ensures p[0] == '*' ==> p == "*" && Tokens(p).value == [Star]
    ensures p[0] != '*' ==> Tokens(p[FrontLength(p)..]).Some?
                            && Tokens(p).value == [Tokens(p).value[0]] + Tokens(p[FrontLength(p)..]).value
  {
    hide CloseBrace;
    hide IndexOf;
    hide Anchor;
  }

  /** Text matches the front of a pattern exactly if its literals are the first tokens. */
  lemma {:induction false} TextFront(text: string, p: string)
    requires Plain(text) && Tokens(p).Some? && Flat(p)
    ensures Lits(text) <= Tokens(p).value <==> text <= p
    ensures text <= p ==> var rest := p[|text|..];
                          Tokens(rest).Some? && Flat(rest) && Tokens(p).value[|text|..] == Tokens(rest).value
  {
    hide FrontLength;
    if text == "" {
      assert p[0..] == p && Tokens(p).value[0..] == Tokens(p).value;
    } else {
      assert text[0] in text && Lits(text) == [Lit(text[0])] + Lits(text[1..]);
      assert text == [text[0]] + text[1..];
      if p != "" && p[0] == text[0] {
        TextStep(p);
        var rest := p[1..];
        TextFront(text[1..], rest);
        assert p == [p[0]] + rest;
        assert Tokens(p).value[1..] == Tokens(rest).value;
        assert Lits(text) <= Tokens(p).value <==> Lits(text[1..]) <= Tokens(rest).value by {
          PrefixCons(Lit(text[0]), Lits(text[1..]), Tokens(rest).value);
        }
        if text <= p {
          assert text[1..] <= rest && p[|text|..] == rest[|text| - 1..];
          assert Tokens(p).value[|text|..] == Tokens(rest).value[|text| - 1..];
        }
      } else if p != "" {
        FrontIsToken(p);
      }
    }
  }

  lemma PrefixCons<T>(x: T, a: seq<T>, b: seq<T>)
    ensures [x] + a <= [x] + b <==> a <= b
  {
    assert ([x] + a)[1..] == a && ([x] + b)[1..] == b;
    if [x] + a <= [x] + b {
      assert [x] + a == ([x] + b)[..|a| + 1];
      assert a == b[..|a|];
    }
  }

  lemma TextStep(p: string)
    requires p != "" && p[0] != '{' && p[0] != '*' && Tokens(p).Some? && Flat(p)
    ensures Tokens(p[1..]).Some? && Flat(p[1..]) && Tokens(p).value == [Lit(p[0])] + Tokens(p[1..]).value
  {
  }

  /** Where every parameter is closed by the first `}` after it, the walk can be told from the tokens. */
  lemma {:induction false} GoesAims(t: Tree, p: string)
    requires Good(t) && Tokens(p).Some? && Flat(p)
    ensures Goes(t, p) <==> Aims(t, Tokens(p).value)
    decreases t
  {
    hide Tokens;
    hide IndexOf;
    hide CloseBrace;
    var toks := Tokens(p).value;
    if p == "" {
      EmptyTokens();
    } else if p[0] == '*' {
      FrontIsToken(p);
    } else if p[0] == '{' {
      FrontIsToken(p);
      var rest, ks := p[FrontLength(p)..], WildGroup(t);
      assert toks[1..] == Tokens(rest).value;
      if ks != [] {
        WildGroupGood(t);
        GoesAims(ks[(|ks| - 1) / 2], rest);
      }
    } else {
      FrontIsToken(p);
      var ks := t.kids.statics;
      var i := KeyIndex(ks, Lit(p[0]));
      if i < |ks| {
        StaticEdgePlain(t, i);
        TextFront(ks[i].prefix, p);
        if ks[i].prefix <= p {
          GoesAims(ks[i], p[|ks[i].prefix|..]);
        }
      }
    }
  }

  /** For every pattern whose parameters are closed by their first `}`, find_pattern answers whether the token walk arrives. */
  lemma FindPatternAims(t: Tree, p: string)
    requires Good(t) && p != "" && Tokens(p).Some? && Flat(p)
    ensures FindPattern(t, p) <==> Aims(t, Tokens(p).value)
  {
    hide FindPattern;
    hide Tokens;
    FindPatternGoes(t, p);
    GoesAims(t, p);
  }

  lemma EmptyTokens()
    ensures Tokens("") == Some([])
  {
  }

  // ----------------------------------------------- when the lookup is right

  /** Where the wanted children are the ones the lookup takes, it finds exactly the nodes that are there. */
  lemma {:induction false} MiddleExact(t: Tree, toks: seq<Token>)
    requires Good(t) && StarLast(toks) && Middle(t, toks)
    ensures Aims(t, toks) <==> HasNode(t, toks)
    decreases t
  {
    if toks != [] {
      var ks := t.kids.Get(TypeOf(toks[0]));
      var i := KeyIndex(ks, toks[0]);
      if toks[0].Lit? {
        if i < |ks| {
          StaticEdgePlain(t, i);
          if Lits(ks[i].prefix) <= toks { MiddleExact(ks[i], toks[|ks[i].prefix|..]); }
        }
      } else if toks[0].Star? {
        assert toks == [Star];
        StarNode(t);
      } else {
        KidGood(t, TypeOf(toks[0]), i);
        assert EdgeTokens(ks[i]) == [toks[0]] && [toks[0]] <= toks;
        MiddleExact(ks[i], toks[1..]);
      }
    }
  }

  lemma StarNode(t: Tree)
    requires Good(t)
    ensures HasNode(t, [Star]) <==> t.kids.catchAlls != []
  {
    var cs := t.kids.catchAlls;
    assert t.kids.Get(CatchAll) == cs;
    if cs != [] {
      KidGood(t, CatchAll, 0);
      assert KeyIndex(cs, Star) == 0 && EdgeTokens(cs[0]) == [Star] && [Star][1..] == [];
    }
  }

  /** Without parameters and regexps there is nothing to miss. */
  lemma {:induction false} PlainMiddle(t: Tree, toks: seq<Token>)
    requires forall tok <- toks :: tok.Lit? || tok.Star?
    ensures Middle(t, toks)
    decreases t
  {
    if toks != [] && toks[0].Lit? {
      var ks := t.kids.statics;
      var i := KeyIndex(ks, toks[0]);
      if i < |ks| && Lits(ks[i].prefix) <= toks {
        PlainMiddle(ks[i], toks[|ks[i].prefix|..]);
      }
    }
  }

  lemma {:induction false} PlainFlat(text: string)
    requires Plain(text)
    ensures Flat(text + "*") && Tokens(text + "*") == Some(Lits(text) + [Star])
  {
    if text == "" {
      assert text + "*" == "*" && Tokens("*") == Some([Star]) && Lits("") + [Star] == [Star];
    } else {
      assert text[0] in text;
      assert (text + "*")[1..] == text[1..] + "*";
      PlainFlat(text[1..]);
      assert Lits(text) + [Star] == [Lit(text[0])] + (Lits(text[1..]) + [Star]);
    }
  }

  /** For literal text followed by `*`, find_pattern answers exactly whether the trie has that node. */
  lemma FindPatternExact(t: Tree, text: string)
    requires Good(t) && Plain(text)
    ensures FindPattern(t, text + "*") <==> HasNode(t, Lits(text) + [Star])
  {
    hide FindPattern;
    hide Tokens;
    PlainFlat(text);
    TokensStarLast(text + "*");
    FindPatternAims(t, text + "*");
    PlainMiddle(t, Lits(text) + [Star]);
    MiddleExact(t, Lits(text) + [Star]);
  }
}
