/** One-step equations of the branch builder and of registration, with everything else out of sight. */
module TrieSteps {
  import opened Wrappers
  import opened Pattern
  import opened Endpoints
  import opened Trie

  predicate Continues(s: string, seg: Segment)
    requires seg.end <= |s|
  {
    seg.typ != CatchAll && seg.end != |s|
  }

  ghost function Above(first: Tree, next: Option<Tree>): Option<Tree> {
    if next.None? then None else Some(AddKid(first, next.value))
  }

  ghost function WildFirst(head: char, pre: string, s: string, seg: Segment, leaf: Leaf, next: Option<Tree>): Option<Tree>
    requires seg.end <= |s|
  {
    var first := if seg.typ == Regexp then Tree(Regexp, head, seg.tail, seg.rexpat, Some(seg.rexpat), EMPTY, NONE)
                 else Tree(seg.typ, head, seg.tail, pre, None, EMPTY, NONE);
    if Continues(s, seg) then Above(first, next) else Some(first.(leaf := leaf))
  }

  ghost function TextFirst(head: char, s: string, seg: Segment, next: Option<Tree>): Option<Tree>
    requires seg.start <= |s|
  {
    Above(Tree(Static, head, NUL, s[..seg.start], None, EMPTY, NONE), next)
  }

  lemma WildStart(s: string, seg: Segment)
    requires NextSegment(s) == Some(seg) && seg.typ != Static
    ensures seg.start < seg.end <= |s| && (s[seg.start] == '{' || s[seg.start] == '*') && !Plain(s)
    ensures seg.start > 0 ==> s[0] != '{' && s[0] != '*'
  {
    hide CloseBrace;
    var ps, ws := IndexOf(s, '{'), IndexOf(s, '*');
    if seg.start > 0 {
      assert s[..seg.start][0] == s[0];
      assert ps >= 0 ==> s[..ps][0] == s[0];
      assert ws > 0 ==> s[..ws][0] == s[0];
    }
  }

  /** One unfolding of Branch for each way a pattern may begin. */
  lemma BranchText(s: string, seg: Segment, pre: string, leaf: Leaf)
    requires s != "" && NextSegment(s) == Some(seg) && seg.typ != Static && seg.start > 0
    ensures Branch(s, pre, leaf) == TextFirst(s[0], s, seg, Branch(s[seg.start..], "", leaf))
  {
    hide NextSegment;
  }

  lemma BranchWild(s: string, seg: Segment, pre: string, leaf: Leaf)
    requires s != "" && NextSegment(s) == Some(seg) && seg.typ != Static && seg.start == 0
    ensures Branch(s, pre, leaf)
         == WildFirst(s[0], pre, s, seg, leaf, if Continues(s, seg) then Branch(s[seg.end..], s[seg.end..], leaf) else None)
  {
    hide NextSegment;
  }

  /** The front segment's kind agrees with the first character of the search. */
  lemma FrontKey(s: string, seg: Segment)
    requires s != "" && Front(s) == Some(seg)
    ensures match seg.typ
            case Static => s[0] != '{' && s[0] != '*' && seg == STATIC_SEGMENT
            case CatchAll => s[0] == '*' && seg.tail == NUL
            case _ => s[0] == '{'
    ensures seg.typ != Static ==> 0 < seg.end <= |s|
  {
    hide CloseBrace;
    if s[0] == '{' {
      assert IndexOf(s, '{') == 0;
    } else if s[0] == '*' {
      assert IndexOf(s, '*') == 0;
    }
  }

  lemma CommonPositive(a: string, b: string)
    requires a != "" && b != "" && a[0] == b[0]
    ensures CommonPrefix(a, b) > 0
  {
  }

  // The equations of Insert, one for each way an iteration of insert_route ends.

  lemma InsertAtEnd(t: Tree, r: Route)
    ensures Insert(t, "", r) == Outcome(t.(leaf := NewLeaf(t.leaf, r)), Accepted(r.pattern))
  {
  }

  lemma InsertMalformed(t: Tree, s: string, r: Route)
    requires s != "" && Front(s).None?
    ensures Insert(t, s, r) == Outcome(t, false)
  {
  }

  lemma InsertNew(t: Tree, s: string, seg: Segment, r: Route)
    requires s != "" && Front(s) == Some(seg)
    requires KeyIndex(t.kids.Get(seg.typ), SegmentKey(s, seg)) == |t.kids.Get(seg.typ)|
    ensures Insert(t, s, r) == Attach(t, s, r)
  {
    hide Front;
    hide Attach;
    hide Accepted;
  }

  lemma InsertPast(t: Tree, s: string, seg: Segment, n: nat, i: nat, r: Route)
    requires s != "" && Front(s) == Some(seg) && n <= |s|
    requires i < |t.kids.Get(seg.typ)| && i == KeyIndex(t.kids.Get(seg.typ), SegmentKey(s, seg))
    requires if seg.typ == Static then n == CommonPrefix(s, t.kids.statics[i].prefix) == |t.kids.statics[i].prefix| else n == seg.end
    ensures var sub := Insert(t.kids.Get(seg.typ)[i], s[n..], r);
            Insert(t, s, r) == Outcome(SetKid(t, seg.typ, i, sub.tree), sub.ok)
  {
    hide Front;
    hide Attach;
    hide Accepted;
    hide SetKid;
  }

  lemma InsertAtSplit(t: Tree, s: string, n: nat, i: nat, r: Route)
    requires s != "" && Front(s) == Some(STATIC_SEGMENT)
    requires i < |t.kids.statics| && i == KeyIndex(t.kids.Get(Static), SegmentKey(s, STATIC_SEGMENT))
    requires n == CommonPrefix(s, t.kids.statics[i].prefix) && n < |t.kids.statics[i].prefix|
    ensures var out := SplitOutcome(Split(t.kids.statics[i], n), s, n, r);
            Insert(t, s, r) == Outcome(SetKid(t, Static, i, out.tree), out.ok)
  {
    hide Front;
    hide Attach;
    hide Accepted;
    hide SetKid;
    hide Split;
  }

  lemma PlainRest(s: string, n: nat)
    requires Plain(s) && n < |s|
    ensures Plain(s[n..]) && s[n..] != "" && s[n..][0] == s[n] && s[n] != '{' && s[n] != '*'
  {
    assert s[n] in s;
  }

  lemma BranchPlain(s: string, pre: string, leaf: Leaf)
    requires s != ""
    ensures Plain(s) ==> Branch(s, pre, leaf) == Some(Tree(Static, s[0], NUL, s, None, leaf, NONE))
    ensures Plain(s) <==> NextSegment(s).Some? && NextSegment(s).value.typ == Static
    ensures NextSegment(s).None? ==> Branch(s, pre, leaf).None?
  {
  }
}
