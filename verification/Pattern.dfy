/**
 Route patterns and their segments.

 A pattern is normalised to a sequence of tokens in which parameter names are
 erased: two patterns with the same tokens share every node of the trie. Every
 `std::logic_error` thrown for a malformed pattern is modelled as `None`.
 */
module Pattern {
  import opened Wrappers

  datatype NodeType = Static | Regexp | Param | CatchAll

  /** What one pattern segment means for matching: its tail, but not its name. */
  datatype Token = Lit(c: char) | Par(tail: char) | Rex(text: string, tail: char) | Star

  /** The segment record filled in by pat_next_segment. */
  datatype Segment = Segment(typ: NodeType, key: string, rexpat: string,
                             tail: char, start: nat, end: nat)

  const NUL: char := '\0'

  /** The absent segment: what insert_route uses when the next label is a literal. */
  const STATIC_SEGMENT := Segment(Static, "", "", NUL, 0, 0)

  /** Index of the first `c` in `s`, or -1. */
  function IndexOf(s: string, c: char): (i: int)
    ensures -1 <= i < |s|
    ensures i >= 0 ==> s[i] == c && c !in s[..i]
    ensures i < 0 ==> c !in s
  {
    if s == "" then -1
    else if s[0] == c then 0
    else
      var i := IndexOf(s[1..], c);
      if i < 0 then (assert s == [s[0]] + s[1..]; -1)
      else (assert s[..i + 1] == [s[0]] + s[1..][..i]; i + 1)
  }

  predicate Plain(s: string) {
    '{' !in s && '*' !in s
  }

  function Lits(s: string): (r: seq<Token>)
    ensures |r| == |s|
  {
    seq(|s|, i requires 0 <= i < |s| => Lit(s[i]))
  }

  /** Index of the brace that closes the `cc` open ones, looking from `i` on; -1 if there is none. */
  function CloseBrace(s: string, i: nat, cc: nat): (e: int)
    requires i <= |s| && cc > 0
    ensures e == -1 || i <= e < |s|
    decreases |s| - i
  {
    if i == |s| then -1
    else if s[i] == '{' then CloseBrace(s, i + 1, cc + 1)
    else if s[i] == '}' then (if cc == 1 then i else CloseBrace(s, i + 1, cc - 1))
    else CloseBrace(s, i + 1, cc)
  }

  /** A non-empty regexp is anchored at both ends. */
  function Anchor(text: string): (r: string)
    ensures text != "" ==> |r| >= 2 && r[0] == '^' && r[|r| - 1] == '$'
  {
    if text == "" then ""
    else
      var start := if text[0] != '^' then "^" + text else text;
      if start[|start| - 1] != '$' then start + "$" else start
  }

  /** The parameter or regexp segment `p[ps..pe + 1]`. */
  function WildSegment(p: string, ps: nat, pe: nat): Segment
    requires ps < pe < |p|
  {
    var key := p[ps + 1..pe];
    var tail := if pe + 1 < |p| then p[pe + 1] else '/';
    var idx := IndexOf(key, ':');
    if idx < 0 then Segment(Param, key, "", tail, ps, pe + 1)
    else Segment(Regexp, key[..idx], Anchor(key[idx + 1..]), tail, ps, pe + 1)
  }

  /** The next segment of a pattern, or None where pat_next_segment throws. */
  function NextSegment(p: string): (r: Option<Segment>)
    ensures r.Some? ==> r.value.start <= r.value.end <= |p|
    ensures r.Some? && r.value.typ != Static ==> r.value.start < r.value.end
  {
    var ps, ws := IndexOf(p, '{'), IndexOf(p, '*');
    if ps < 0 && ws < 0 then Some(Segment(Static, "", "", NUL, 0, |p|))
    else if ps >= 0 && ws >= 0 && ws < ps then None
    else if ps >= 0 then
      var pe := CloseBrace(p, ps + 1, 1);
      if pe < 0 then None else Some(WildSegment(p, ps, pe))
    else if ws < |p| - 1 then None
    else Some(Segment(CatchAll, "*", "", NUL, ws, |p|))
  }

  function TokenOf(seg: Segment): Token
    requires seg.typ != Static
  {
    match seg.typ
    case Param => Par(seg.tail)
    case Regexp => Rex(seg.rexpat, seg.tail)
    case CatchAll => Star
  }

  function Prepend(ts: seq<Token>, rest: Option<seq<Token>>): Option<seq<Token>> {
    if rest.None? then None else Some(ts + rest.value)
  }

  /** How much of a pattern its first character accounts for: one character, or a whole parameter. */
  function FrontLength(p: string): (n: nat)
    requires p != ""
    ensures 1 <= n <= |p|
  {
    if p[0] == '{' && CloseBrace(p, 1, 1) >= 0 then CloseBrace(p, 1, 1) + 1 else 1
  }

  /** Is the parameter at the front of the pattern closed? */
  predicate FrontClosed(p: string)
    requires p != ""
  {
    p[0] == '{' ==> CloseBrace(p, 1, 1) >= 0
  }

  /** The parameter at the front of the pattern. */
  function FrontParam(p: string): Segment
    requires p != "" && p[0] == '{' && FrontClosed(p)
  {
    WildSegment(p, 0, CloseBrace(p, 1, 1))
  }

  /**
   The tokens of a pattern, read from the front: the reference that the segment-wise
   parser is proved to agree with. None is a malformed pattern.
   */
  function Tokens(s: string): (r: Option<seq<Token>>)
    ensures s != "" && r.Some? ==> r.value != []
    decreases |s|
  {
    if s == "" then Some([])
    else if s[0] == '*' then (if |s| == 1 then Some([Star]) else None)
    else if !FrontClosed(s) then None
    else Prepend([if s[0] == '{' then TokenOf(FrontParam(s)) else Lit(s[0])], Tokens(s[FrontLength(s)..]))
  }

  /** The keys a pattern binds, in order; a catch-all binds the key `*`. */
  function Keys(s: string): seq<string>
    decreases |s|
  {
    if s == "" then []
    else if s[0] == '*' then ["*"]
    else (if s[0] == '{' && FrontClosed(s) then [FrontParam(s).key] else []) + Keys(s[FrontLength(s)..])
  }

  ghost predicate NoDuplicates(keys: seq<string>) {
    forall i, j :: 0 <= i < j < |keys| ==> keys[i] != keys[j]
  }

  /** A pattern that registration accepts: it parses, and no key occurs twice. */
  ghost predicate Accepted(pattern: string) {
    Tokens(pattern).Some? && NoDuplicates(Keys(pattern))
  }

  /** A pattern with `values` written in place of its parameters. */
  function Fill(s: string, values: seq<string>): string
    decreases |s|
  {
    if s == "" then ""
    else if s[0] != '*' && s[0] != '{' then [s[0]] + Fill(s[FrontLength(s)..], values)
    else if values == [] then ""
    else values[0] + Fill(s[FrontLength(s)..], values[1..])
  }

  function Wilds(toks: seq<Token>): nat {
    if toks == [] then 0 else (if toks[0].Lit? then 0 else 1) + Wilds(toks[1..])
  }

  // ---------------------------------------------------------------- lemmas

  /** A regexp text that is anchored already is left alone, and no text is anchored twice. */
  lemma AnchorOnce(text: string)
    ensures Anchor(text) == text <==> text == "" || (|text| >= 2 && text[0] == '^' && text[|text| - 1] == '$')
    ensures Anchor(Anchor(text)) == Anchor(text)
    ensures text != "" ==> Anchor(text) in [text, "^" + text, text + "$", "^" + text + "$"]
  {
  }

  /** Opening braces less closing braces. */
  function Balance(s: string): int {
    if s == "" then 0
    else Balance(s[..|s| - 1]) + (if s[|s| - 1] == '{' then 1 else if s[|s| - 1] == '}' then -1 else 0)
  }

  /** The closing brace of `cc` open ones is the first place behind which none is open any more; there is none if some always is. */
  lemma {:induction false} CloseBraceExact(s: string, i: nat, cc: nat, at: nat)
    requires i <= at <= |s| && cc > 0 && cc + Balance(s[i..at]) > 0
    requires forall j :: i <= j <= at ==> cc + Balance(s[i..j]) > 0
    requires CloseBrace(s, i, cc) == CloseBrace(s, at, cc + Balance(s[i..at]))
    ensures var e := CloseBrace(s, i, cc);
            if e < 0 then forall j :: i <= j <= |s| ==> cc + Balance(s[i..j]) > 0
            else cc + Balance(s[i..e + 1]) == 0 && forall j :: i <= j <= e ==> cc + Balance(s[i..j]) > 0
    decreases |s| - at
  {
    if at < |s| {
      var next := s[i..at + 1];
      assert next[..|next| - 1] == s[i..at] && next[|next| - 1] == s[at];
      if cc + Balance(next) > 0 {
        CloseBraceExact(s, i, cc, at + 1);
      }
    }
  }

  /** So a parameter ends at the brace that closes its own first one. */
  lemma OwnBrace(s: string, i: nat)
    requires i <= |s|
    ensures var e := CloseBrace(s, i, 1);
            if e < 0 then forall j :: i <= j <= |s| ==> Balance(s[i..j]) >= 0
            else Balance(s[i..e + 1]) == -1 && forall j :: i <= j <= e ==> Balance(s[i..j]) >= 0
  {
    assert s[i..i] == "";
    CloseBraceExact(s, i, 1, i);
  }

  lemma {:induction false} WildsAppend(a: seq<Token>, b: seq<Token>)
    ensures Wilds(a + b) == Wilds(a) + Wilds(b)
  {
    if a == [] {
      assert a + b == b;
    } else {
      assert (a + b)[1..] == a[1..] + b;
      WildsAppend(a[1..], b);
    }
  }

  lemma {:induction false} WildsLits(s: string)
    ensures Wilds(Lits(s)) == 0
  {
    if s != "" {
      assert Lits(s)[1..] == Lits(s[1..]);
      WildsLits(s[1..]);
    }
  }

  lemma {:induction false} TokensPlain(a: string, s: string)
    requires Plain(a)
    ensures Tokens(a + s) == Prepend(Lits(a), Tokens(s))
    ensures Keys(a + s) == Keys(s)
  {
    if a == "" {
      assert a + s == s;
      assert Tokens(s).Some? ==> [] + Tokens(s).value == Tokens(s).value;
    } else {
      assert a[0] in a;
      assert (a + s)[1..] == a[1..] + s;
      TokensPlain(a[1..], s);
      assert Lits(a) == [Lit(a[0])] + Lits(a[1..]);
      if Tokens(s).Some? {
        assert [Lit(a[0])] + (Lits(a[1..]) + Tokens(s).value) == Lits(a) + Tokens(s).value;
      }
    }
  }

  /** What a segment says about the pattern it was read from. */
  ghost predicate SegmentAgrees(p: string, seg: Segment)
    requires seg.start <= seg.end <= |p|
  {
    match seg.typ
    case Static => Plain(p) && Tokens(p) == Some(Lits(p)) && Keys(p) == []
    case CatchAll =>
      && seg.start == |p| - 1 && seg.end == |p| && p[seg.start] == '*' && Plain(p[..seg.start])
      && Tokens(p) == Some(Lits(p[..seg.start]) + [Star]) && Keys(p) == [seg.key]
    case _ =>
      && seg.start < |p| && p[seg.start] == '{' && Plain(p[..seg.start])
      && seg.tail == (if seg.end < |p| then p[seg.end] else '/')
      && Tokens(p) == Prepend(Lits(p[..seg.start]) + [TokenOf(seg)], Tokens(p[seg.end..]))
      && (Tokens(p).Some? ==> Keys(p) == [seg.key] + Keys(p[seg.end..]))
  }

  lemma PlainBefore(p: string, at: nat)
    requires at <= |p|
    requires '{' !in p[..at] && '*' !in p[..at]
    ensures p == p[..at] + p[at..]
    ensures Tokens(p) == Prepend(Lits(p[..at]), Tokens(p[at..])) && Keys(p) == Keys(p[at..])
  {
    hide Tokens;
    hide Keys;
    hide Lits;
    hide Prepend;
    assert p == p[..at] + p[at..];
    TokensPlain(p[..at], p[at..]);
  }

  lemma ShorterPrefix(p: string, c: char, i: nat, j: nat)
    requires i <= j <= |p| && c !in p[..j]
    ensures c !in p[..i]
  {
    assert p[..i] == p[..j][..i];
  }

  lemma {:induction false} CloseBraceShift(a: string, sub: string, i: nat, cc: nat)
    requires i <= |sub| && cc > 0
    ensures CloseBrace(a + sub, |a| + i, cc) == (var e := CloseBrace(sub, i, cc); if e < 0 then -1 else |a| + e)
    decreases |sub| - i
  {
    if i < |sub| {
      assert (a + sub)[|a| + i] == sub[i];
      if sub[i] == '{' {
        CloseBraceShift(a, sub, i + 1, cc + 1);
      } else if sub[i] != '}' {
        CloseBraceShift(a, sub, i + 1, cc);
      } else if cc > 1 {
        CloseBraceShift(a, sub, i + 1, cc - 1);
      }
    }
  }

  /** A parameter segment looks the same from its own first character. */
  lemma WildSegmentShift(a: string, sub: string, e: nat)
    requires 0 < e < |sub|
    ensures var p := a + sub;
            var seg, own := WildSegment(p, |a|, |a| + e), WildSegment(sub, 0, e);
            && seg.typ in {Param, Regexp} && seg.start == |a| && seg.end == |a| + e + 1
            && seg.tail == (if seg.end < |p| then p[seg.end] else '/')
            && TokenOf(own) == TokenOf(seg) && own.key == seg.key
  {
    var p := a + sub;
    assert p[|a| + 1..|a| + e] == sub[1..e];
    assert e + 1 < |sub| ==> p[|a| + e + 1] == sub[e + 1];
    hide Anchor;
    hide IndexOf;
  }

  lemma PrependTwice(a: seq<Token>, b: seq<Token>, rest: Option<seq<Token>>)
    ensures Prepend(a, Prepend(b, rest)) == Prepend(a + b, rest)
  {
    if rest.Some? {
      assert a + (b + rest.value) == a + b + rest.value;
    }
  }

  /** One unfolding of the character-wise parser at a parameter. */
  lemma BraceTokens(sub: string)
    requires sub != "" && sub[0] == '{'
    ensures var e := CloseBrace(sub, 1, 1);
            if e < 0 then Tokens(sub).None?
            else
              && Tokens(sub) == Prepend([TokenOf(WildSegment(sub, 0, e))], Tokens(sub[e + 1..]))
              && Keys(sub) == [WildSegment(sub, 0, e).key] + Keys(sub[e + 1..])
  {
    hide WildSegment;
    hide CloseBrace;
    hide Prepend;
  }

  /** A parameter after literal text. */
  lemma BraceSegment(a: string, sub: string)
    requires Plain(a) && sub != "" && sub[0] == '{'
    ensures var pe := CloseBrace(a + sub, |a| + 1, 1);
            if pe < 0 then Tokens(a + sub).None? else SegmentAgrees(a + sub, WildSegment(a + sub, |a|, pe))
  {
    hide Tokens;
    hide Keys;
    hide WildSegment;
    hide SegmentAgrees;
    TokensPlain(a, sub);
    CloseBraceShift(a, sub, 1, 1);
    BraceTokens(sub);
    var e := CloseBrace(sub, 1, 1);
    if e >= 0 {
      BraceAgrees(a, sub, e);
    }
  }

  lemma BraceAgrees(a: string, sub: string, e: nat)
    requires Plain(a) && 0 < e < |sub| && sub[0] == '{'
    requires Tokens(a + sub) == Prepend(Lits(a), Tokens(sub)) && Keys(a + sub) == Keys(sub)
    requires Tokens(sub) == Prepend([TokenOf(WildSegment(sub, 0, e))], Tokens(sub[e + 1..]))
    requires Keys(sub) == [WildSegment(sub, 0, e).key] + Keys(sub[e + 1..])
    ensures SegmentAgrees(a + sub, WildSegment(a + sub, |a|, |a| + e))
  {
    WildSegmentShift(a, sub, e);
    hide Tokens;
    hide Keys;
    hide WildSegment;
    hide TokenOf;
    hide Lits;
    hide Prepend;
    var p := a + sub;
    var seg := WildSegment(p, |a|, |a| + e);
    assert p[seg.end..] == sub[e + 1..];
    assert p[..|a|] == a && p[|a|] == '{';
    PrependTwice(Lits(a), [TokenOf(seg)], Tokens(p[seg.end..]));
  }

  lemma PlainSegment(p: string)
    requires Plain(p)
    ensures Tokens(p) == Some(Lits(p)) && Keys(p) == []
  {
    TokensPlain(p, "");
    assert p + "" == p && Lits(p) + [] == Lits(p);
  }

  /** A `*` after literal text: a catch-all if it is the last character, malformed otherwise. */
  lemma StarSegment(a: string, sub: string)
    requires Plain(a) && sub != "" && sub[0] == '*'
    ensures if |sub| == 1 then SegmentAgrees(a + sub, Segment(CatchAll, "*", "", NUL, |a|, |a| + 1))
            else Tokens(a + sub).None?
  {
    TokensPlain(a, sub);
    assert (a + sub)[..|a|] == a && (a + sub)[|a|] == '*';
  }

  /** The segment-wise parser and the character-wise one agree, on malformed patterns too. */
  lemma SegmentTokens(p: string)
    ensures NextSegment(p).None? ==> Tokens(p).None?
    ensures NextSegment(p).Some? ==> SegmentAgrees(p, NextSegment(p).value)
  {
    hide Tokens;
    hide Keys;
    hide WildSegment;
    hide CloseBrace;
    hide IndexOf;
    var ps, ws := IndexOf(p, '{'), IndexOf(p, '*');
    assert p == p[..|p|];
    if ps < 0 && ws < 0 {
      PlainSegment(p);
    } else if ps >= 0 && (ws < 0 || ps < ws) {
      ShorterPrefix(p, '*', ps, if ws >= 0 then ws else |p|);
      assert p == p[..ps] + p[ps..];
      BraceSegment(p[..ps], p[ps..]);
    } else {
      ShorterPrefix(p, '{', ws, if ps >= 0 then ps else |p|);
      assert p == p[..ws] + p[ws..];
      StarSegment(p[..ws], p[ws..]);
    }
  }

  lemma {:induction false} KeysCount(s: string)
    requires Tokens(s).Some?
    ensures |Keys(s)| == Wilds(Tokens(s).value)
    decreases |s|
  {
    if s != "" && s[0] != '*' {
      KeysCount(s[FrontLength(s)..]);
      assert Tokens(s).value[1..] == Tokens(s[FrontLength(s)..]).value;
    }
  }
}
