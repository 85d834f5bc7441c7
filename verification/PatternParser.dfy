/** The pattern parser as the source runs it: loops over the pattern, proved against module Pattern. */
module PatternParser {
  import opened Wrappers
  import opened Pattern

  /** The brace-counting loop: where the brace opened at `ps` is closed, or `ps` if it is not. */
  method ClosingBrace(pattern: string, ps: nat) returns (pe: nat)
    requires ps < |pattern| && pattern[ps] == '{'
    ensures var e := CloseBrace(pattern, ps + 1, 1); pe == if e < 0 then ps else e
  {
    var cc, i := 0, 0;
    pe := ps;
    while ps + i < |pattern|
      invariant 0 <= i <= |pattern| - ps && pe == ps
      invariant if i == 0 then cc == 0 else cc > 0 && CloseBrace(pattern, ps + 1, 1) == CloseBrace(pattern, ps + i, cc)
    {
      var c := pattern[ps + i];
      if c == '{' {
        cc := cc + 1;
      } else if c == '}' {
        cc := cc - 1;
        if cc == 0 {
          pe := ps + i;
          break;
        }
      }
      i := i + 1;
    }
  }

  /** Splitting a key from its regexp and anchoring the regexp. */
  method SplitKey(key: string) returns (nt: NodeType, name: string, rexpat: string)
    ensures var idx := IndexOf(key, ':');
            (nt, name, rexpat) == if idx < 0 then (Param, key, "") else (Regexp, key[..idx], Anchor(key[idx + 1..]))
  {
    nt, name, rexpat := Param, key, "";
    var idx := IndexOf(key, ':');
    if idx >= 0 {
      nt, rexpat, name := Regexp, key[idx + 1..], key[..idx];
    }
    if rexpat != "" {
      if rexpat[0] != '^' {
        rexpat := "^" + rexpat;
      }
      if rexpat[|rexpat| - 1] != '$' {
        rexpat := rexpat + "$";
      }
    }
  }

  /** The next segment of a pattern; None where the source throws. */
  method PatNextSegment(pattern: string) returns (r: Option<Segment>)
    ensures r == NextSegment(pattern)
  {
    hide IndexOf;
    hide CloseBrace;
    hide Anchor;
    var ps, ws := IndexOf(pattern, '{'), IndexOf(pattern, '*');
    if ps < 0 && ws < 0 {
      return Some(Segment(Static, "", "", NUL, 0, |pattern|));
    }
    if ps >= 0 && ws >= 0 && ws < ps {
      return None;
    }
    var tail := '/';
    if ps >= 0 {
      var pe := ClosingBrace(pattern, ps);
      if pe == ps {
        return None;
      }
      var nt, key, rexpat := SplitKey(pattern[ps + 1..pe]);
      if pe + 1 < |pattern| {
        tail := pattern[pe + 1];
      }
      return Some(Segment(nt, key, rexpat, tail, ps, pe + 1));
    }
    if ws < |pattern| - 1 {
      return None;
    }
    return Some(Segment(CatchAll, "*", "", NUL, ws, |pattern|));
  }

  lemma EmptyPattern()
    ensures Tokens("") == Some([]) && Keys("") == []
  {
  }

  /** The keys of an accepted pattern, in order; None, a throw, for every other pattern. */
  method PatParamKeys(pattern: string) returns (r: Option<seq<string>>)
    ensures r.Some? <==>
              && Tokens(pattern).Some?
              && forall i, j :: 0 <= i < j < |Keys(pattern)| ==> Keys(pattern)[i] != Keys(pattern)[j]
    ensures r.Some? ==> r.value == Keys(pattern) && |r.value| == Wilds(Tokens(pattern).value)
  {
    hide NextSegment;
    hide Wilds;
    hide Tokens;
    hide Keys;
    hide Lits;
    hide TokenOf;
    var pat := pattern;
    var paramKeys: seq<string> := [];
    while true
      invariant Tokens(pattern).Some? <==> Tokens(pat).Some?
      invariant Tokens(pat).Some? ==> Keys(pattern) == paramKeys + Keys(pat)
      invariant NoDuplicates(paramKeys)
      decreases |pat|
    {
      SegmentTokens(pat);
      var result := PatNextSegment(pat);
      if result.None? {
        return None;
      }
      var seg := result.value;
      if seg.typ == Static {
        KeysCount(pattern);
        return Some(paramKeys);
      }
      if seg.typ == CatchAll {
        assert pat[seg.end..] == "";
        EmptyPattern();
      }
      if seg.key in paramKeys {
        var j :| 0 <= j < |paramKeys| && paramKeys[j] == seg.key;
        assert Tokens(pattern).Some? ==> Keys(pattern)[j] == Keys(pattern)[|paramKeys|];
        return None;
      }
      paramKeys := paramKeys + [seg.key];
      pat := pat[seg.end..];
    }
  }
}
