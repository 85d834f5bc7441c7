/**
 Patterns filled with values: when the search finds the pattern again on the filled path.
 The conditions speak of the values and of the characters that follow them.
 */
module Filling {
  import opened Wrappers
  import opened Pattern
  import opened Endpoints
  import opened TrieSearch
  import opened TrieHits
  import opened Runs

  /** Where a parameter stops, in plain terms: at its first tail, or at the end of the path if its tail is `/`. */
  lemma StopExact(path: string, tail: char, p: nat)
    ensures Stop(path, tail) == Some(p)
       <==> && p <= |path| && tail !in path[..p]
            && (if p < |path| then path[p] == tail else tail == '/')
  {
    var i := IndexOf(path, tail);
    if i >= 0 && p <= |path| {
      assert i < p ==> path[..p][i] == tail;
      assert p < i ==> path[..i][p] == path[p];
    }
    assert path[..|path|] == path;
  }

  /** `v` is free of its tail, and the tail comes next, or nothing does and the tail is `/`. */
  predicate Ends(v: string, tail: char, rest: string) {
    tail !in v && v + rest != "" && (if rest == "" then tail == '/' else rest[0] == tail)
  }

  /**
   May these values be written in place of the wild tokens? A parameter's has no `/`; a regexp's
   is not empty and accepted; each ends where its token does in the filled text.
   */
  predicate Written(toks: seq<Token>, values: seq<string>, rx: Matcher) {
    if toks == [] then values == []
    else
      match toks[0]
      case Lit(_) => Written(toks[1..], values, rx)
      case Star => |toks| == 1 && |values| == 1
      case Par(tail) =>
        && values != [] && '/' !in values[0]
        && Ends(values[0], tail, FillTokens(toks[1..], values[1..])) && Written(toks[1..], values[1..], rx)
      case Rex(text, tail) =>
        && values != [] && values[0] != "" && rx(text, values[0])
        && Ends(values[0], tail, FillTokens(toks[1..], values[1..])) && Written(toks[1..], values[1..], rx)
  }

  /** What a wild token takes off `v + rest` is `v`, exactly if `v` fits it and ends there. */
  lemma TakesWritten(tok: Token, v: string, rest: string, rx: Matcher)
    requires (tok.Par? || tok.Rex?) && v + rest != ""
    ensures Takes(tok, v + rest, v, rx)
       <==> && Ends(v, tok.tail, rest)
            && (tok.Par? ==> '/' !in v) && (tok.Rex? ==> v != "" && rx(tok.text, v))
  {
    hide Stop;
    var path := v + rest;
    StopExact(path, tok.tail, |v|);
    assert path[..|v|] == v;
    assert rest != "" ==> path[|v|] == rest[0];
  }

  /**
   A token sequence derives a path strictly with given values if and only if the filled
   tokens are the path and the values may be written there.
   */
  lemma {:induction false} DerivesExact(toks: seq<Token>, path: string, values: seq<string>, rx: Matcher)
    ensures Derives(toks, path, values, rx, false) <==> FillTokens(toks, values) == path && Written(toks, values, rx)
    decreases |toks|
  {
    hide Takes;
    hide Ends;
    if toks == [] {
    } else if toks[0].Lit? {
      var rest := FillTokens(toks[1..], values);
      assert ([toks[0].c] + rest)[1..] == rest;
      if path != "" {
        DerivesExact(toks[1..], path[1..], values, rx);
        assert path == [path[0]] + path[1..];
      }
    } else if toks[0].Star? {
      StarWritten(toks, path, values, rx);
    } else if values != [] {
      WildWritten(toks, path, values, rx);
    }
  }

  lemma StarWritten(toks: seq<Token>, path: string, values: seq<string>, rx: Matcher)
    requires toks != [] && toks[0].Star?
    ensures Derives(toks, path, values, rx, false) <==> FillTokens(toks, values) == path && Written(toks, values, rx)
  {
    if |toks| == 1 && values != [] {
      assert toks[1..] == [] && values[0] + "" == values[0];
    }
  }

  lemma {:induction false} WildWritten(toks: seq<Token>, path: string, values: seq<string>, rx: Matcher)
    requires toks != [] && (toks[0].Par? || toks[0].Rex?) && values != []
    ensures Derives(toks, path, values, rx, false) <==> FillTokens(toks, values) == path && Written(toks, values, rx)
    decreases |toks|, 0
  {
    hide Takes;
    var v, below := values[0], FillTokens(toks[1..], values[1..]);
    if |v| <= |path| && path != "" {
      DerivesExact(toks[1..], path[|v|..], values[1..], rx);
    }
    if Takes(toks[0], path, v, rx) {
      TakesPrefix(toks[0], path, v, rx);
    }
    assert (v + below)[|v|..] == below;
    if path == v + below && path != "" {
      TakesWritten(toks[0], v, below, rx);
    }
  }

  /**
   Completeness without the search's own terms: if a pattern's last registration for a method
   has a handler, then on the pattern filled with fitting values the search finds a handler,
   and the pattern's node is among the hits with these very values, whatever else is registered.
   */
  lemma SearchFinds(routes: seq<Route>, pattern: string, m: Method, values: seq<string>, rx: Matcher)
    requires IsValid(m) && pattern != "" && Tokens(pattern).Some? && Answers(routes, Tokens(pattern).value, m)
    requires Written(Tokens(pattern).value, values, rx)
    ensures var toks, hits := Tokens(pattern).value, Hits(Build(routes), Fill(pattern, values), rx);
            FirstServing(hits, m) < |hits| && Offers(hits, Hit(toks, values, Table(routes, toks)))
  {
    hide Hits;
    hide Written;
    hide Derives;
    hide Table;
    var toks, path := Tokens(pattern).value, Fill(pattern, values);
    FillIsFillTokens(pattern, values);
    DerivesExact(toks, path, values, rx);
    SearchComplete(routes, toks, m, path, values, rx);
    TrieIsTable(routes, toks);
    TableLast(routes, toks, m);
    HitsComplete(Build(routes), toks, path, values, rx);
  }

  // ------------------------------------------------ a parameter at the end

  /** A key without braces and colons. */
  predicate Simple(key: string) {
    '{' !in key && '}' !in key && ':' !in key
  }

  lemma {:induction false} BraceBehind(p: string, i: nat, e: nat)
    requires i <= e < |p| && p[e] == '}' && forall j :: i <= j < e ==> p[j] != '{' && p[j] != '}'
    ensures CloseBrace(p, i, 1) == e
    decreases e - i
  {
    if i < e {
      BraceBehind(p, i + 1, e);
    }
  }

  /** A pattern that ends in a parameter: literal text, then a parameter whose tail is `/`. */
  lemma EndsInParameter(base: string, key: string)
    requires Plain(base) && Simple(key)
    ensures Tokens(base + "{" + key + "}") == Some(Lits(base) + [Par('/')])
  {
    var p := "{" + key + "}";
    assert base + "{" + key + "}" == base + p;
    TokensPlain(base, p);
    BraceBehind(p, 1, |key| + 1);
    assert p[0 + 1..|key| + 1] == key;
    assert WildSegment(p, 0, |key| + 1) == Segment(Param, key, "", '/', 0, |p|);
    assert p[|p|..] == "" && FrontLength(p) == |p|;
    assert Tokens(p) == Prepend([Par('/')], Tokens(p[|p|..]));
    assert [Par('/')] + [] == [Par('/')];
  }

  lemma {:induction false} LitsWritten(base: string, toks: seq<Token>, values: seq<string>, rx: Matcher)
    ensures Written(Lits(base) + toks, values, rx) <==> Written(toks, values, rx)
    ensures FillTokens(Lits(base) + toks, values) == base + FillTokens(toks, values)
  {
    if base == "" {
      assert Lits(base) + toks == toks;
    } else {
      var all := Lits(base) + toks;
      assert all[0] == Lit(base[0]) && all[1..] == Lits(base[1..]) + toks;
      LitsWritten(base[1..], toks, values, rx);
      assert base == [base[0]] + base[1..];
    }
  }

  /** A parameter at the end of a pattern takes any rest of the path without `/`, if there is one. */
  lemma LastParameterFound(routes: seq<Route>, base: string, key: string, m: Method, v: string, rx: Matcher)
    requires IsValid(m) && Plain(base) && Simple(key) && v != "" && '/' !in v
    requires Answers(routes, Lits(base) + [Par('/')], m)
    ensures var hits := Hits(Build(routes), base + v, rx);
            FirstServing(hits, m) < |hits| && Offers(hits, Hit(Lits(base) + [Par('/')], [v], Table(routes, Lits(base) + [Par('/')])))
  {
    hide Hits;
    hide Tokens;
    hide Table;
    var pattern, last := base + "{" + key + "}", [Par('/')];
    EndsInParameter(base, key);
    LitsWritten(base, last, [v], rx);
    assert last[1..] == [] && [v][1..] == [];
    assert FillTokens(last, [v]) == v + "" == v;
    assert Written(last, [v], rx);
    FillIsFillTokens(pattern, [v]);
    SearchFinds(routes, pattern, m, [v], rx);
  }
}
