/**
 The radix trie as a value. A class instance (module Node) refines it; here are its
 shape, its invariant, its contents, and what one registration does to it.
 */
module Trie {
  import opened Wrappers
  import opened Pattern
  import opened Endpoints

  /** The four child groups of a node, one per node type. */
  datatype Groups<T> = Groups(statics: seq<T>, regexps: seq<T>, params: seq<T>, catchAlls: seq<T>) {
    function Get(typ: NodeType): seq<T> {
      match typ
      case Static => statics
      case Regexp => regexps
      case Param => params
      case CatchAll => catchAlls
    }

    function Put(typ: NodeType, kids: seq<T>): (r: Groups<T>)
      ensures r.Get(typ) == kids
      ensures forall other :: other != typ ==> r.Get(other) == Get(other)
    {
      match typ
      case Static => this.(statics := kids)
      case Regexp => this.(regexps := kids)
      case Param => this.(params := kids)
      case CatchAll => this.(catchAlls := kids)
    }
  }

  /** `head` is the source's `label`: the first character of the prefix. */
  datatype Tree = Tree(typ: NodeType, head: char, tail: char, prefix: string, rex: Option<string>,
                       leaf: Leaf, kids: Groups<Tree>)

  const NONE: Groups<Tree> := Groups([], [], [], [])

  /** A new router's trie. */
  const ROOT := Tree(Static, NUL, NUL, "", None, EMPTY, NONE)

  /** The token that tells an edge from its siblings. */
  function EdgeKey(k: Tree): Token {
    match k.typ
    case Static => Lit(k.head)
    case Regexp => Rex(k.prefix, k.tail)
    case Param => Par(k.tail)
    case CatchAll => Star
  }

  /** The tokens consumed by walking into `k`. */
  function EdgeTokens(k: Tree): seq<Token> {
    if k.typ == Static then Lits(k.prefix) else [EdgeKey(k)]
  }

  function TypeOf(tok: Token): NodeType {
    match tok
    case Lit(_) => Static
    case Par(_) => Param
    case Rex(_, _) => Regexp
    case Star => CatchAll
  }

  /** Position of the first child with the given key, or |ks|. */
  function KeyIndex(ks: seq<Tree>, tok: Token): (i: nat)
    ensures i <= |ks|
    ensures i < |ks| ==> EdgeKey(ks[i]) == tok
    ensures forall j :: 0 <= j < i ==> EdgeKey(ks[j]) != tok
  {
    if ks == [] then 0 else if EdgeKey(ks[0]) == tok then 0 else 1 + KeyIndex(ks[1..], tok)
  }

  // ------------------------------------------------------------- invariant

  ghost predicate Distinct(ks: seq<Tree>) {
    forall i, j :: 0 <= i < j < |ks| ==> EdgeKey(ks[i]) != EdgeKey(ks[j])
  }

  ghost predicate Ascending(ks: seq<Tree>) {
    forall i, j :: 0 <= i < j < |ks| ==> ks[i].head <= ks[j].head
  }

  /** If some child has the tail `/`, the last one has. */
  ghost predicate SlashLast(ks: seq<Tree>) {
    (exists i :: 0 <= i < |ks| && ks[i].tail == '/') ==> ks[|ks| - 1].tail == '/'
  }

  /** The fields of a node reached through an edge. */
  ghost predicate EdgeOk(k: Tree) {
    match k.typ
    case Static => k.prefix != "" && Plain(k.prefix) && k.head == k.prefix[0] && k.tail == NUL && k.rex.None?
    case Regexp => k.head == '{' && k.rex == Some(k.prefix)
    case Param => k.head == '{' && k.rex.None?
    case CatchAll => k.head == '*' && k.tail == NUL && k.rex.None? && k.kids == NONE
  }

  /** What follows a parameter begins with its tail. */
  ghost predicate TailOk(t: Tree) {
    t.typ in {Regexp, Param} ==> forall typ: NodeType, k: Tree :: k in t.kids.Get(typ) ==> k.head == t.tail
  }

  ghost predicate GroupOk(ks: seq<Tree>, typ: NodeType) {
    && Distinct(ks) && Ascending(ks)
    && (typ in {Regexp, Param} ==> SlashLast(ks))
    && forall k <- ks :: k.typ == typ && EdgeOk(k)
  }

  /** The trie invariant. */
  ghost predicate Good(t: Tree) {
    && TailOk(t)
    && (forall typ: NodeType :: GroupOk(t.kids.Get(typ), typ))
    && GoodGroup(t.kids.statics) && GoodGroup(t.kids.regexps)
    && GoodGroup(t.kids.params) && GoodGroup(t.kids.catchAlls)
  }

  ghost predicate GoodGroup(ks: seq<Tree>) {
    forall k <- ks :: Good(k)
  }

  // -------------------------------------------------------------- contents

  /** The leaf stored under a token sequence; EMPTY when there is no such node. */
  function Lookup(t: Tree, toks: seq<Token>): Leaf
    decreases t, 1
  {
    if toks == [] then t.leaf
    else
      var ks := t.kids.Get(TypeOf(toks[0]));
      var i := KeyIndex(ks, toks[0]);
      if i == |ks| then EMPTY else Via(ks[i], toks)
  }

  /** The leaf found by walking the edge into `k` first. */
  function Via(k: Tree, toks: seq<Token>): Leaf
    decreases k, 2
  {
    var edge := EdgeTokens(k);
    if edge <= toks then Lookup(k, toks[|edge|..]) else EMPTY
  }

  // -------------------------------------------------------- child ordering

  function InsertByLabel(ks: seq<Tree>, k: Tree): seq<Tree> {
    if ks == [] || ks[|ks| - 1].head <= k.head then ks + [k]
    else InsertByLabel(ks[..|ks| - 1], k) + [ks[|ks| - 1]]
  }

  function SortByLabel(ks: seq<Tree>): seq<Tree> {
    if ks == [] then [] else InsertByLabel(SortByLabel(ks[..|ks| - 1]), ks[|ks| - 1])
  }

  function SwapLast<T>(ks: seq<T>, j: nat): seq<T>
    requires j < |ks|
  {
    ks[j := ks[|ks| - 1]][|ks| - 1 := ks[j]]
  }

  /** One step of the tail sort: a `/`-tailed wild node is swapped with the last. */
  function TailStep(ks: seq<Tree>, j: nat): (r: seq<Tree>)
    requires j < |ks|
    ensures |r| == |ks|
  {
    if |ks| > 1 && ks[j].typ != Static && ks[j].tail == '/' then SwapLast(ks, j) else ks
  }

  /** The tail sort, from index `i` - 1 down. */
  function TailSort(ks: seq<Tree>, i: nat): seq<Tree>
    requires i <= |ks|
    decreases i
  {
    if i == 0 then ks else TailSort(TailStep(ks, i - 1), i - 1)
  }

  function Ordered(ks: seq<Tree>): seq<Tree> {
    TailSort(SortByLabel(ks), |SortByLabel(ks)|)
  }

  // ---------------------------------------------------------- registration

  function AddKid(t: Tree, k: Tree): Tree {
    t.(kids := t.kids.Put(k.typ, Ordered(t.kids.Get(k.typ) + [k])))
  }

  function SetKid(t: Tree, typ: NodeType, i: nat, k: Tree): Tree
    requires i < |t.kids.Get(typ)|
  {
    t.(kids := t.kids.Put(typ, t.kids.Get(typ)[i := k]))
  }

  /**
   The branch add_child builds for `s`, down to a node carrying `leaf`; None if `s` is
   malformed. `pre` is the prefix its first node was created with.
   */
  function Branch(s: string, pre: string, leaf: Leaf): Option<Tree>
    requires s != ""
    decreases |s|
  {
    match NextSegment(s)
    case None => None
    case Some(seg) =>
      if seg.typ == Static then Some(Tree(Static, s[0], NUL, s, None, leaf, NONE))
      else if seg.start == 0 then
        var first := if seg.typ == Regexp then Tree(Regexp, s[0], seg.tail, seg.rexpat, Some(seg.rexpat), EMPTY, NONE)
                     else Tree(seg.typ, s[0], seg.tail, pre, None, EMPTY, NONE);
        if seg.typ == CatchAll || seg.end == |s| then Some(first.(leaf := leaf))
        else
          var rest := s[seg.end..];
          var next := Branch(rest, rest, leaf);
          if next.None? then None else Some(AddKid(first, next.value))
      else
        var next := Branch(s[seg.start..], "", leaf);
        if next.None? then None
        else Some(AddKid(Tree(Static, s[0], NUL, s[..seg.start], None, EMPTY, NONE), next.value))
  }

  /** Length of the longest common prefix. */
  function CommonPrefix(a: string, b: string): (n: nat)
    ensures n <= |a| && n <= |b| && a[..n] == b[..n]
    ensures n < |a| && n < |b| ==> a[n] != b[n]
  {
    if a == "" || b == "" || a[0] != b[0] then 0
    else
      var n := CommonPrefix(a[1..], b[1..]);
      assert a[..n + 1] == [a[0]] + a[1..][..n] && b[..n + 1] == [b[0]] + b[1..][..n];
      n + 1
  }

  /** The trie and whether the call returned; on a throw the nodes added so far remain. */
  datatype Outcome = Outcome(tree: Tree, ok: bool)

  /** The leaf a registration leaves at its node: unchanged if set_endpoint throws. */
  ghost function NewLeaf(leaf: Leaf, r: Route): Leaf {
    if Accepted(r.pattern) then Register(leaf, r) else leaf
  }

  /** The segment at the front of the remaining search: absent unless it starts with a wild label. */
  function Front(s: string): Option<Segment>
    requires s != ""
  {
    if s[0] == '{' || s[0] == '*' then NextSegment(s) else Some(STATIC_SEGMENT)
  }

  function SegmentKey(s: string, seg: Segment): Token
    requires s != ""
  {
    if seg.typ == Static then Lit(s[0]) else TokenOf(seg)
  }

  /** A new static node for the shared part of `k`'s prefix, with `k` shortened below it. */
  function Split(k: Tree, n: nat): Tree
    requires n < |k.prefix|
  {
    AddKid(Tree(Static, k.prefix[0], NUL, k.prefix[..n], None, EMPTY, NONE),
           k.(head := k.prefix[n], prefix := k.prefix[n..]))
  }

  /** What insert_route does to a node whose remaining search is `s`. */
  ghost function Insert(t: Tree, s: string, r: Route): Outcome
    decreases t
  {
    if s == "" then Outcome(t.(leaf := NewLeaf(t.leaf, r)), Accepted(r.pattern))
    else
      match Front(s)
      case None => Outcome(t, false)
      case Some(seg) =>
        var ks := t.kids.Get(seg.typ);
        var i := KeyIndex(ks, SegmentKey(s, seg));
        if i == |ks| then Attach(t, s, r)
        else if seg.typ != Static then
          var sub := Insert(ks[i], s[seg.end..], r);
          Outcome(SetKid(t, seg.typ, i, sub.tree), sub.ok)
        else
          var n := CommonPrefix(s, ks[i].prefix);
          if n == |ks[i].prefix| then
            var sub := Insert(ks[i], s[n..], r);
            Outcome(SetKid(t, Static, i, sub.tree), sub.ok)
          else
            var sub := SplitOutcome(Split(ks[i], n), s, n, r);
            Outcome(SetKid(t, Static, i, sub.tree), sub.ok)
  }

  /** A new branch for `s` below `t`. */
  ghost function Attach(t: Tree, s: string, r: Route): Outcome
    requires s != ""
  {
    match Branch(s, s, NewLeaf(EMPTY, r))
    case None => Outcome(t, false)
    case Some(k) => Outcome(AddKid(t, k), Accepted(r.pattern))
  }

  /** Where a static node was split: the pattern ends there, or a new branch starts there. */
  ghost function SplitOutcome(m: Tree, s: string, n: nat, r: Route): Outcome
    requires n <= |s|
  {
    if n == |s| then Outcome(m.(leaf := NewLeaf(EMPTY, r)), Accepted(r.pattern)) else Attach(m, s[n..], r)
  }
}
