/**
 String replacing and splitting: two passes, one that collects the places of a pattern and
 one that builds the result, proved against specifications that read the string once.
 */
module StrUtils {

  /** Does `sub` occur in `s` at `at`? */
  predicate OccursAt(s: string, sub: string, at: nat) {
    at + |sub| <= |s| && s[at..at + |sub|] == sub
  }

  /** The first place of `sub` from `at` on, or -1. */
  function Find(s: string, sub: string, at: nat): (p: int)
    requires at <= |s|
    ensures p == -1 || (at <= p && OccursAt(s, sub, p))
    ensures forall i :: at <= i && (p == -1 || i < p) ==> !OccursAt(s, sub, i)
    decreases |s| - at
  {
    if at + |sub| > |s| then -1 else if s[at..at + |sub|] == sub then at else if at == |s| then -1 else Find(s, sub, at + 1)
  }

  /** All places of `sub` from `at` on, leftmost first, none overlapping another. */
  function Places(s: string, sub: string, at: nat): seq<nat>
    requires sub != "" && at <= |s|
    decreases |s| - at
  {
    var p := Find(s, sub, at);
    if p < 0 then [] else [p] + Places(s, sub, p + |sub|)
  }

  // --------------------------------------------------------------- specifications

  /** `s` with the first `n` occurrences of `from` replaced; all of them if `n` is negative. */
  function Replaced(s: string, from: string, to: string, n: int): string
    requires from != ""
    decreases |s|
  {
    if n == 0 || s == "" then s
    else if from <= s then to + Replaced(s[|from|..], from, to, n - 1)
    else [s[0]] + Replaced(s[1..], from, to, n)
  }

  /** How often `sub` occurs, counted from the left without overlaps. */
  function Count(s: string, sub: string): nat
    requires sub != ""
    decreases |s|
  {
    if s == "" then 0 else if sub <= s then 1 + Count(s[|sub|..], sub) else Count(s[1..], sub)
  }

  /** The parts of `s` between occurrences of `delim`. */
  function Parts(s: string, delim: string): (r: seq<string>)
    requires delim != ""
    ensures r != []
    decreases |s|
  {
    if s == "" then [""]
    else if delim <= s then [""] + Parts(s[|delim|..], delim)
    else
      var rest := Parts(s[1..], delim);
      [[s[0]] + rest[0]] + rest[1..]
  }

  function Join(parts: seq<string>, delim: string): string {
    if parts == [] then ""
    else if |parts| == 1 then parts[0]
    else parts[0] + delim + Join(parts[1..], delim)
  }

  function NonEmpty(parts: seq<string>): seq<string> {
    if parts == [] then [] else (if parts[0] == "" then [] else [parts[0]]) + NonEmpty(parts[1..])
  }

  /** The parts that are kept. */
  function Kept(parts: seq<string>, includeEmpty: bool): seq<string> {
    if includeEmpty then parts else NonEmpty(parts)
  }

  /** What replace_copy returns. */
  function ReplaceResult(s: string, from: string, to: string, n: int): string {
    if from == "" then s else Replaced(s, from, to, n)
  }

  /** What split returns: a string that is empty, or is the delimiter, is not split. */
  function SplitResult(s: string, delim: string, includeEmpty: bool): seq<string> {
    if s == "" then []
    else if delim == "" || s == delim then [s]
    else Kept(Parts(s, delim), includeEmpty)
  }

  // ------------------------------------------------------------- skipping text

  /** No occurrence starts from `at` on and before `p`. */
  ghost predicate Clear(s: string, sub: string, at: nat, p: nat) {
    forall i :: at <= i < p ==> !OccursAt(s, sub, i)
  }

  lemma AtFront(s: string, sub: string, at: nat)
    requires at <= |s|
    ensures sub <= s[at..] <==> OccursAt(s, sub, at)
  {
    if at + |sub| <= |s| {
      assert s[at..at + |sub|] == s[at..][..|sub|];
    }
  }

  /** Text before the next occurrence is copied. */
  lemma {:induction false} ReplacedSkip(s: string, from: string, to: string, n: int, at: nat, p: nat)
    requires from != "" && at <= p <= |s| && Clear(s, from, at, p)
    ensures Replaced(s[at..], from, to, n) == s[at..p] + Replaced(s[p..], from, to, n)
    decreases p - at
  {
    if at == p {
      assert s[at..p] == "";
    } else {
      AtFront(s, from, at);
      assert s[at..][1..] == s[at + 1..];
      ReplacedSkip(s, from, to, n, at + 1, p);
      assert s[at..p] == [s[at]] + s[at + 1..p];
      if n == 0 {
        assert s[at..] == s[at..p] + s[p..];
      }
    }
  }

  /** One occurrence is replaced. */
  lemma ReplacedAt(s: string, from: string, to: string, n: int, p: nat)
    requires from != "" && OccursAt(s, from, p) && n != 0
    ensures Replaced(s[p..], from, to, n) == to + Replaced(s[p + |from|..], from, to, n - 1)
  {
    AtFront(s, from, p);
    assert s[p..][|from|..] == s[p + |from|..];
  }

  lemma {:induction false} PartsSkip(s: string, delim: string, at: nat, p: nat)
    requires delim != "" && at <= p <= |s| && Clear(s, delim, at, p)
    ensures var rest := Parts(s[p..], delim); Parts(s[at..], delim) == [s[at..p] + rest[0]] + rest[1..]
    decreases p - at
  {
    var rest := Parts(s[p..], delim);
    if at == p {
      assert s[at..p] + rest[0] == rest[0];
    } else {
      AtFront(s, delim, at);
      assert s[at..][1..] == s[at + 1..];
      PartsSkip(s, delim, at + 1, p);
      assert Parts(s[at + 1..], delim)[1..] == rest[1..];
      assert s[at..p] + rest[0] == [s[at]] + (s[at + 1..p] + rest[0]);
    }
  }

  /** The first part ends where the next delimiter begins. */
  lemma PartsAt(s: string, delim: string, at: nat, p: nat)
    requires delim != "" && at <= p && OccursAt(s, delim, p) && Clear(s, delim, at, p)
    ensures Parts(s[at..], delim) == [s[at..p]] + Parts(s[p + |delim|..], delim)
  {
    AtFront(s, delim, p);
    assert s[p..][|delim|..] == s[p + |delim|..];
    PartsSkip(s, delim, at, p);
    assert s[at..p] + "" == s[at..p];
  }

  /** With no delimiter left there is one part. */
  lemma PartsEnd(s: string, delim: string, at: nat)
    requires delim != "" && at <= |s| && Clear(s, delim, at, |s| + 1)
    ensures Parts(s[at..], delim) == [s[at..]]
  {
    PartsSkip(s, delim, at, |s|);
    assert s[|s|..] == "" && s[at..|s|] + "" == s[at..];
  }

  lemma ReplacedEnd(s: string, from: string, to: string, n: int, at: nat)
    requires from != "" && at <= |s| && Clear(s, from, at, |s| + 1)
    ensures Replaced(s[at..], from, to, n) == s[at..]
  {
    ReplacedSkip(s, from, to, n, at, |s|);
    assert s[|s|..] == "" && s[at..|s|] + "" == s[at..];
  }

  lemma {:induction false} ReplacedSame(s: string, from: string, n: int)
    requires from != ""
    ensures Replaced(s, from, from, n) == s
    decreases |s|
  {
    if n == 0 || s == "" {
    } else if from <= s {
      ReplacedSame(s[|from|..], from, n - 1);
    } else {
      ReplacedSame(s[1..], from, n);
    }
  }

  // ------------------------------------------------------------------ methods

  lemma PlacesStep(s: string, sub: string, at: nat)
    requires sub != "" && at <= |s|
    ensures var r := Places(s, sub, at);
            if r == [] then Clear(s, sub, at, |s| + 1)
            else
              && at <= r[0] && OccursAt(s, sub, r[0]) && Clear(s, sub, at, r[0])
              && r == [r[0]] + Places(s, sub, r[0] + |sub|)
  {
  }

  /** From index `i` on, `places` are the places from `pos` on. */
  ghost predicate Ahead(places: seq<nat>, i: nat, s: string, sub: string, pos: nat)
    requires sub != "" && i <= |places|
  {
    pos <= |s| && places[i..] == Places(s, sub, pos)
  }

  lemma AheadStart(s: string, sub: string)
    requires sub != ""
    ensures Ahead(Places(s, sub, 0), 0, s, sub, 0)
  {
    var places := Places(s, sub, 0);
    hide Places;
    assert places[0..] == places;
  }

  lemma AheadStep(places: seq<nat>, i: nat, s: string, sub: string, pos: nat)
    requires sub != "" && i <= |places| && Ahead(places, i, s, sub, pos)
    ensures if i == |places| then Clear(s, sub, pos, |s| + 1)
            else
              var p := places[i];
              && pos <= p && p + |sub| <= |s| && OccursAt(s, sub, p) && Clear(s, sub, pos, p)
              && Ahead(places, i + 1, s, sub, p + |sub|)
  {
    PlacesStep(s, sub, pos);
    if i < |places| {
      assert places[i..] == [places[i]] + places[i + 1..];
    }
  }

  /** Before `pos`, `places` are all places. */
  ghost predicate Behind(places: seq<nat>, s: string, sub: string, pos: nat)
    requires sub != ""
  {
    pos <= |s| && Places(s, sub, 0) == places + Places(s, sub, pos)
  }

  lemma BehindStart(s: string, sub: string)
    requires sub != ""
    ensures Behind([], s, sub, 0)
  {
    assert [] + Places(s, sub, 0) == Places(s, sub, 0);
  }

  lemma BehindStep(places: seq<nat>, s: string, sub: string, pos: nat)
    requires sub != "" && Behind(places, s, sub, pos)
    ensures var p := Find(s, sub, pos);
            if p < 0 then places == Places(s, sub, 0) else Behind(places + [p], s, sub, p + |sub|)
  {
    hide Find;
    var p := Find(s, sub, pos);
    if p < 0 {
      assert places + [] == places;
    } else {
      assert places + ([p] + Places(s, sub, p + |sub|)) == places + [p] + Places(s, sub, p + |sub|);
    }
  }

  /** The first pass of both: where the pattern is. */
  method Collect(s: string, sub: string) returns (places: seq<nat>)
    requires sub != ""
    ensures places == Places(s, sub, 0)
  {
    hide Behind;
    hide Places;
    places := [];
    var pos: nat := 0;
    BehindStart(s, sub);
    while true
      invariant pos <= |s| && Behind(places, s, sub, pos)
      decreases |s| - pos
    {
      BehindStep(places, s, sub, pos);
      var p := Find(s, sub, pos);
      if p < 0 {
        return;
      }
      places := places + [p];
      pos := p + |sub|;
    }
  }

  /** One turn of the second pass of replace_copy. */
  lemma ReplacedStep(s: string, from: string, to: string, n: int, at: nat, p: nat)
    requires from != "" && at <= p && OccursAt(s, from, p) && Clear(s, from, at, p) && n != 0
    ensures Replaced(s[at..], from, to, n) == s[at..p] + to + Replaced(s[p + |from|..], from, to, n - 1)
  {
    ReplacedSkip(s, from, to, n, at, p);
    ReplacedAt(s, from, to, n, p);
    hide Replaced;
    assert s[at..p] + (to + Replaced(s[p + |from|..], from, to, n - 1))
        == s[at..p] + to + Replaced(s[p + |from|..], from, to, n - 1);
  }

  /** With `n` replacements left, `ns` is the result so far, for the text before `pos`. */
  ghost predicate Copied(result: string, ns: string, s: string, from: string, to: string, n: int, pos: nat)
    requires from != ""
  {
    pos <= |s| && result == ns + Replaced(s[pos..], from, to, n)
  }

  lemma CopiedStart(s: string, from: string, to: string, n: int)
    requires from != ""
    ensures Copied(ReplaceResult(s, from, to, n), "", s, from, to, n, 0)
  {
    assert s[0..] == s;
    hide Replaced;
  }

  /** When there is nothing to replace. */
  lemma ReplaceNothing(s: string, from: string, to: string, n: int)
    requires n == 0 || s == "" || from == "" || from == to
    ensures ReplaceResult(s, from, to, n) == s
  {
    if from != "" {
      ReplacedSame(s, from, n);
    }
  }

  lemma CopiedStep(result: string, ns: string, s: string, from: string, to: string, n: int, pos: nat, p: nat)
    requires from != "" && Copied(result, ns, s, from, to, n, pos)
    requires pos <= p && OccursAt(s, from, p) && Clear(s, from, pos, p) && n != 0
    ensures Copied(result, ns + s[pos..p] + to, s, from, to, n - 1, p + |from|)
  {
    ReplacedStep(s, from, to, n, pos, p);
    hide Replaced;
    var rest := Replaced(s[p + |from|..], from, to, n - 1);
    assert ns + (s[pos..p] + to + rest) == ns + s[pos..p] + to + rest;
  }

  lemma CopiedEnd(result: string, ns: string, s: string, from: string, to: string, n: int, pos: nat)
    requires from != "" && Copied(result, ns, s, from, to, n, pos) && (n == 0 || Clear(s, from, pos, |s| + 1))
    ensures pos <= |s| && result == ns + s[pos..]
  {
    if n != 0 {
      ReplacedEnd(s, from, to, n, pos);
    }
  }

  /** Replaces the first `numToReplace` occurrences, or all of them if that is negative. */
  method ReplaceCopy(s: string, from: string, to: string, numToReplace: int) returns (ns: string)
    ensures ns == ReplaceResult(s, from, to, numToReplace)
  {
    hide *;
    if numToReplace == 0 || s == "" || from == "" {
      ReplaceNothing(s, from, to, numToReplace);
      return s;
    }
    if from == to {
      ReplaceNothing(s, from, to, numToReplace);
      return s;
    }
    ghost var result := ReplaceResult(s, from, to, numToReplace);
    var fromCounter := Collect(s, from);
    CopiedStart(s, from, to, numToReplace);
    AheadStart(s, from);
    if |fromCounter| == 0 {
      AheadStep(fromCounter, 0, s, from, 0);
      CopiedEnd(result, "", s, from, to, numToReplace, 0);
      return s;
    }
    var n := if numToReplace < 0 || |fromCounter| < numToReplace then |fromCounter| else numToReplace;
    ns := "";
    var pos: nat, counter := 0, 0;
    for i := 0 to |fromCounter|
      invariant counter == i <= n && Ahead(fromCounter, i, s, from, pos)
      invariant Copied(result, ns, s, from, to, numToReplace - i, pos)
    {
      if counter == n {
        break;
      }
      var p := fromCounter[i];
      AheadStep(fromCounter, i, s, from, pos);
      CopiedStep(result, ns, s, from, to, numToReplace - i, pos, p);
      ns := ns + s[pos..p] + to;
      pos := p + |from|;
      counter := counter + 1;
    }
    AheadStep(fromCounter, counter, s, from, pos);
    CopiedEnd(result, ns, s, from, to, numToReplace - counter, pos);
    ns := ns + s[pos..];
  }

  lemma NonEmptyFront(part: string, parts: seq<string>)
    ensures NonEmpty([part] + parts) == (if part == "" then [] else [part]) + NonEmpty(parts)
  {
    assert ([part] + parts)[1..] == parts;
  }

  lemma KeptFront(part: string, parts: seq<string>, includeEmpty: bool)
    ensures Kept([part] + parts, includeEmpty) == (if includeEmpty || part != "" then [part] else []) + Kept(parts, includeEmpty)
    ensures Kept([part], includeEmpty) == if includeEmpty || part != "" then [part] else []
  {
    NonEmptyFront(part, parts);
    NonEmptyFront(part, []);
    assert [part] + [] == [part];
  }

  /** `parts` are the parts kept so far, for the text before `pos`. */
  ghost predicate Cut(result: seq<string>, parts: seq<string>, s: string, delim: string, includeEmpty: bool, pos: nat)
    requires delim != ""
  {
    pos <= |s| && result == parts + Kept(Parts(s[pos..], delim), includeEmpty)
  }

  lemma CutStart(s: string, delim: string, includeEmpty: bool)
    requires s != "" && delim != "" && s != delim
    ensures Cut(SplitResult(s, delim, includeEmpty), [], s, delim, includeEmpty, 0)
  {
    hide Parts;
    hide Kept;
    assert s[0..] == s;
  }

  /** What is not split. */
  lemma SplitNothing(s: string, delim: string, includeEmpty: bool)
    requires s == "" || delim == "" || s == delim
    ensures SplitResult(s, delim, includeEmpty) == if s == "" then [] else [s]
  {
  }

  lemma CutStep(result: seq<string>, parts: seq<string>, s: string, delim: string, includeEmpty: bool, pos: nat, p: nat)
    requires delim != "" && Cut(result, parts, s, delim, includeEmpty, pos)
    requires pos <= p && OccursAt(s, delim, p) && Clear(s, delim, pos, p)
    ensures Cut(result, if includeEmpty || p > pos then parts + [s[pos..p]] else parts, s, delim, includeEmpty, p + |delim|)
  {
    hide Parts;
    hide Kept;
    PartsAt(s, delim, pos, p);
    var below := Kept(Parts(s[p + |delim|..], delim), includeEmpty);
    KeptFront(s[pos..p], Parts(s[p + |delim|..], delim), includeEmpty);
    assert parts + ([s[pos..p]] + below) == parts + [s[pos..p]] + below;
    assert parts + ([] + below) == parts + below;
  }

  lemma CutEnd(result: seq<string>, parts: seq<string>, s: string, delim: string, includeEmpty: bool, pos: nat)
    requires delim != "" && Cut(result, parts, s, delim, includeEmpty, pos) && Clear(s, delim, pos, |s| + 1)
    ensures pos <= |s| && result == if includeEmpty || |s| > pos then parts + [s[pos..]] else parts
  {
    PartsEnd(s, delim, pos);
    KeptFront(s[pos..], [], includeEmpty);
  }

  /** Splits at every occurrence of the delimiter; empty parts are kept only on request. */
  method Split(s: string, delim: string, includeEmpty: bool) returns (parts: seq<string>)
    ensures parts == SplitResult(s, delim, includeEmpty)
  {
    hide *;
    if s == "" {
      SplitNothing(s, delim, includeEmpty);
      return [];
    }
    if delim == "" || s == delim {
      SplitNothing(s, delim, includeEmpty);
      return [s];
    }
    ghost var result := SplitResult(s, delim, includeEmpty);
    var delimCounter := Collect(s, delim);
    CutStart(s, delim, includeEmpty);
    AheadStart(s, delim);
    if |delimCounter| == 0 {
      AheadStep(delimCounter, 0, s, delim, 0);
      CutEnd(result, [], s, delim, includeEmpty, 0);
      return [s];
    }
    parts := [];
    var pos: nat := 0;
    for i := 0 to |delimCounter|
      invariant Ahead(delimCounter, i, s, delim, pos) && Cut(result, parts, s, delim, includeEmpty, pos)
    {
      var p := delimCounter[i];
      AheadStep(delimCounter, i, s, delim, pos);
      CutStep(result, parts, s, delim, includeEmpty, pos, p);
      var subStrLen := p - pos;
      if includeEmpty || subStrLen > 0 {
        parts := parts + [s[pos..p]];
      }
      pos := p + |delim|;
    }
    AheadStep(delimCounter, |delimCounter|, s, delim, pos);
    CutEnd(result, parts, s, delim, includeEmpty, pos);
    var subStrLen := |s| - pos;
    if includeEmpty || subStrLen > 0 {
      parts := parts + [s[pos..]];
    }
  }

  // --------------------------------------------------------------------- laws

  lemma OneMore(k: nat, d: int)
    ensures (k + 1) * d == k * d + d
  {
  }

  lemma {:induction false} ReplacedLength(s: string, from: string, to: string, n: int)
    requires from != ""
    ensures var k := if n < 0 || Count(s, from) < n then Count(s, from) else n;
            |Replaced(s, from, to, n)| == |s| + k * (|to| - |from|)
    decreases |s|
  {
    if n == 0 || s == "" {
    } else if from <= s {
      var rest := s[|from|..];
      ReplacedLength(rest, from, to, n - 1);
      OneMore(if n < 0 || Count(rest, from) < n - 1 then Count(rest, from) else n - 1, |to| - |from|);
    } else {
      ReplacedLength(s[1..], from, to, n);
    }
  }

  /** How often `sub` is looked for and found; an empty text is not looked for. */
  function Occurrences(s: string, sub: string): nat {
    if sub == "" then 0 else Count(s, sub)
  }

  /** The length law: each of min(n, occurrences) replacements changes the length by the same amount. */
  lemma ReplaceLength(s: string, from: string, to: string, n: int)
    ensures var k := if n < 0 || Occurrences(s, from) < n then Occurrences(s, from) else n;
            |ReplaceResult(s, from, to, n)| == |s| + k * (|to| - |from|)
  {
    if from != "" {
      ReplacedLength(s, from, to, n);
    }
  }

  lemma JoinGlue(c: string, parts: seq<string>, delim: string)
    requires parts != []
    ensures Join([c + parts[0]] + parts[1..], delim) == c + Join(parts, delim)
  {
    var glued := [c + parts[0]] + parts[1..];
    assert glued[1..] == parts[1..];
    if |parts| > 1 {
      assert c + parts[0] + delim + Join(parts[1..], delim) == c + (parts[0] + delim + Join(parts[1..], delim));
    }
  }

  /** Joining the parts with another text is replacing every delimiter by it. */
  lemma {:induction false} JoinParts(s: string, delim: string, to: string, n: int)
    requires delim != "" && n < 0
    ensures Replaced(s, delim, to, n) == Join(Parts(s, delim), to)
    decreases |s|
  {
    if s == "" {
    } else if delim <= s {
      var rest := s[|delim|..];
      JoinParts(rest, delim, to, n - 1);
      assert ([""] + Parts(rest, delim))[1..] == Parts(rest, delim);
      assert "" + to + Join(Parts(rest, delim), to) == to + Join(Parts(rest, delim), to);
    } else {
      JoinParts(s[1..], delim, to, n);
      JoinGlue([s[0]], Parts(s[1..], delim), to);
    }
  }

  /** The parts joined with `to` at the first `n` places, at all if `n` is negative, and with `from` at the others. */
  function JoinFirst(parts: seq<string>, from: string, to: string, n: int): string {
    if parts == [] then ""
    else if |parts| == 1 then parts[0]
    else parts[0] + (if n == 0 then from else to) + JoinFirst(parts[1..], from, to, if n == 0 then 0 else n - 1)
  }

  lemma JoinFirstGlue(c: string, parts: seq<string>, from: string, to: string, n: int)
    requires parts != []
    ensures JoinFirst([c + parts[0]] + parts[1..], from, to, n) == c + JoinFirst(parts, from, to, n)
  {
    var glued := [c + parts[0]] + parts[1..];
    assert glued[1..] == parts[1..];
    if |parts| > 1 {
      var glue, rest := if n == 0 then from else to, JoinFirst(parts[1..], from, to, if n == 0 then 0 else n - 1);
      assert c + parts[0] + glue + rest == c + (parts[0] + glue + rest);
    }
  }

  /** What is replaced are the first `n` occurrences from the left, and nothing between them. */
  lemma {:induction false} ReplaceFirst(s: string, from: string, to: string, n: int)
    requires from != ""
    ensures Replaced(s, from, to, n) == JoinFirst(Parts(s, from), from, to, n)
    decreases |s|
  {
    if s == "" {
    } else if from <= s {
      var rest := s[|from|..];
      assert ([""] + Parts(rest, from))[1..] == Parts(rest, from);
      ReplaceFirst(rest, from, to, if n == 0 then 0 else n - 1);
      var glue, below := if n == 0 then from else to, JoinFirst(Parts(rest, from), from, to, if n == 0 then 0 else n - 1);
      assert "" + glue + below == glue + below;
      assert n == 0 ==> Replaced(rest, from, to, 0) == rest && s == from + rest;
    } else {
      ReplaceFirst(s[1..], from, to, n);
      JoinFirstGlue([s[0]], Parts(s[1..], from), from, to, n);
      assert n == 0 ==> s == [s[0]] + s[1..];
    }
  }

  /** Joining a full split with its delimiter restores the string, whatever the two are. */
  lemma SplitJoin(s: string, delim: string)
    ensures Join(SplitResult(s, delim, true), delim) == s
  {
    if s != "" && delim != "" {
      JoinParts(s, delim, delim, -1);
      ReplacedSame(s, delim, -1);
    }
  }

  /** Dropping empty parts is filtering them out of the full split. */
  lemma SplitDropsEmpty(s: string, delim: string)
    ensures SplitResult(s, delim, false) == NonEmpty(SplitResult(s, delim, true))
  {
    NonEmptyFront(s, []);
  }

  /** Replacing all is joining the split with the new text, unless the whole string is the pattern. */
  lemma ReplaceIsJoin(s: string, from: string, to: string)
    ensures ReplaceResult(s, from, to, -1) == Join(SplitResult(s, from, true), to)
       <==> from == "" || s != from || from == to
  {
    if from != "" && s != "" {
      JoinParts(s, from, to, -1);
      if s == from {
        assert s[|from|..] == "" && to + "" == to;
      }
    }
  }

  lemma {:induction false} PartsClear(s: string, delim: string)
    requires delim != ""
    ensures forall part <- Parts(s, delim), at: nat :: !OccursAt(part, delim, at)
    decreases |s|
  {
    hide Parts;
    hide Places;
    hide OccursAt;
    assert s[0..] == s;
    PlacesStep(s, delim, 0);
    if Places(s, delim, 0) == [] {
      PartsEnd(s, delim, 0);
      ClearAll(s, delim);
    } else {
      var p := Places(s, delim, 0)[0];
      InBounds(s, delim, p);
      PartsAt(s, delim, 0, p);
      PartsClear(s[p + |delim|..], delim);
      ClearBefore(s, delim, p);
    }
  }

  lemma InBounds(s: string, sub: string, p: nat)
    ensures OccursAt(s, sub, p) ==> p + |sub| <= |s|
  {
  }

  lemma ClearAll(s: string, sub: string)
    requires Clear(s, sub, 0, |s| + 1)
    ensures forall at: nat :: !OccursAt(s, sub, at)
  {
    assert forall at: nat :: OccursAt(s, sub, at) ==> at < |s| + 1;
  }

  /** Text before the first occurrence has none. */
  lemma ClearBefore(s: string, sub: string, p: nat)
    requires sub != "" && p <= |s| && Clear(s, sub, 0, p)
    ensures forall at: nat :: !OccursAt(s[0..p], sub, at)
  {
    forall at: nat
      ensures !OccursAt(s[0..p], sub, at)
    {
      if at + |sub| <= p {
        assert s[0..p][at..at + |sub|] == s[at..at + |sub|];
        assert !OccursAt(s, sub, at);
      }
    }
  }

  /**
   No part of a split contains the delimiter, unless the whole string is the delimiter, or
   the delimiter is empty and there is a part.
   */
  lemma SplitClear(s: string, delim: string, includeEmpty: bool)
    ensures (forall part <- SplitResult(s, delim, includeEmpty), at: nat :: !OccursAt(part, delim, at))
            <==> s == "" || (delim != "" && s != delim)
  {
    if s != "" && (delim == "" || s == delim) {
      assert s in SplitResult(s, delim, includeEmpty) && OccursAt(s, delim, 0);
    } else if s != "" {
      PartsClear(s, delim);
      NonEmptyMembers(Parts(s, delim));
    }
  }

  lemma {:induction false} NonEmptyMembers(parts: seq<string>)
    ensures forall part <- NonEmpty(parts) :: part in parts
  {
    if parts != [] {
      NonEmptyMembers(parts[1..]);
    }
  }
}
