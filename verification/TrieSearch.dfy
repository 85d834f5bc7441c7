/**
 The search as a pure, ordered enumeration: every way of using up a path on the way to
 a node with endpoints, in the order in which find_route_helper tries them.
 */
module TrieSearch {
  import opened Wrappers
  import opened Pattern
  import opened Endpoints
  import opened Trie

  /** `std::regex_search`, uninterpreted: does the regexp text match somewhere in the string? */
  type Matcher = (string, string) -> bool

  /** A node reached with the whole path used up, the tokens on the way, and the captured values. */
  datatype Hit = Hit(route: seq<Token>, values: seq<string>, leaf: Leaf)

  /** Where a parameter with this tail stops: the first tail, or the end if the tail is `/`. */
  function Stop(path: string, tail: char): (r: Option<nat>)
    ensures r.Some? ==> r.value <= |path| && tail !in path[..r.value]
  {
    var p := IndexOf(path, tail);
    if p >= 0 then Some(p)
    else if tail == '/' then (assert path[..|path|] == path; Some(|path|))
    else None
  }

  /** May a parameter with this tail, or a regexp with this text and tail, take exactly `v` off the path? */
  predicate Takes(tok: Token, path: string, v: string, rx: Matcher): (b: bool)
    ensures b ==> |v| <= |path|
  {
    match tok
    case Par(tail) => Stop(path, tail).Some? && v == path[..Stop(path, tail).value] && '/' !in v
    case Rex(text, tail) => Stop(path, tail).Some? && v == path[..Stop(path, tail).value] && v != "" && rx(text, v)
    case _ => false
  }

  /** How much of a non-empty path the wild node `k` captures, if it accepts it. */
  function Capture(k: Tree, path: string, rx: Matcher): (r: Option<nat>)
    ensures r.Some? ==> r.value <= |path|
  {
    match Stop(path, k.tail)
    case None => None
    case Some(p) =>
      if k.typ == Regexp && p == 0 then None
      else if k.typ == Regexp && k.rex.Some? then (if rx(k.rex.value, path[..p]) then Some(p) else None)
      else if '/' in path[..p] then None
      else Some(p)
  }

  function Through(toks: seq<Token>, values: seq<string>, hits: seq<Hit>): (r: seq<Hit>)
    ensures |r| == |hits|
    ensures forall i :: 0 <= i < |hits| ==> r[i] == Hit(toks + hits[i].route, values + hits[i].values, hits[i].leaf)
  {
    seq(|hits|, i requires 0 <= i < |hits| => Hit(toks + hits[i].route, values + hits[i].values, hits[i].leaf))
  }

  /** All hits below `t`, in search order. */
  function Hits(t: Tree, path: string, rx: Matcher): seq<Hit>
    decreases t, 4, 0
  {
    StaticHits(t, path, rx) + WildHits(t, Regexp, path, rx) + WildHits(t, Param, path, rx) + CatchAllHits(t, path, rx)
  }

  /** All hits at or below `k`. */
  function Arrive(k: Tree, path: string, rx: Matcher): seq<Hit>
    decreases k, 5, 0
  {
    (if path == "" && k.leaf.endpoints != map[] then [Hit([], [], k.leaf)] else []) + Hits(k, path, rx)
  }

  function FirstChar(path: string): char {
    if path == "" then NUL else path[0]
  }

  function StaticHits(t: Tree, path: string, rx: Matcher): seq<Hit>
    decreases t, 3, 0
  {
    var ks := t.kids.statics;
    var i := KeyIndex(ks, Lit(FirstChar(path)));
    if i == |ks| || !(ks[i].prefix <= path) then []
    else Through(Lits(ks[i].prefix), [], Arrive(ks[i], path[|ks[i].prefix|..], rx))
  }

  /** The hits of a group of parameters: each in turn, then the last once more with an empty value. */
  function WildHits(t: Tree, typ: NodeType, path: string, rx: Matcher): seq<Hit>
    decreases t, 3, 0
  {
    var ks := t.kids.Get(typ);
    if ks == [] || path == "" then []
    else EachHits(t, typ, |ks|, path, rx) + FallbackHits(t, typ, path, rx)
  }

  function KidHits(t: Tree, typ: NodeType, i: nat, path: string, rx: Matcher): seq<Hit>
    requires i < |t.kids.Get(typ)|
    decreases t, 1, 0
  {
    var k := t.kids.Get(typ)[i];
    match Capture(k, path, rx)
    case None => []
    case Some(p) => Through([EdgeKey(k)], [path[..p]], Arrive(k, path[p..], rx))
  }

  /** The hits of the first `n` children of a group. */
  function EachHits(t: Tree, typ: NodeType, n: nat, path: string, rx: Matcher): seq<Hit>
    requires n <= |t.kids.Get(typ)|
    decreases t, 2, n
  {
    if n == 0 then [] else EachHits(t, typ, n - 1, path, rx) + KidHits(t, typ, n - 1, path, rx)
  }

  function FallbackHits(t: Tree, typ: NodeType, path: string, rx: Matcher): seq<Hit>
    requires t.kids.Get(typ) != []
    decreases t, 2, 0
  {
    var ks := t.kids.Get(typ);
    var k := ks[|ks| - 1];
    Through([EdgeKey(k)], [""], Hits(k, path, rx))
  }

  function CatchAllHits(t: Tree, path: string, rx: Matcher): seq<Hit>
    decreases t, 3, 0
  {
    var ks := t.kids.catchAlls;
    if ks == [] then [] else Through([Star], [path], Arrive(ks[0], "", rx))
  }

  /** The order in which the child groups are searched. */
  const TYPES: seq<NodeType> := [Static, Regexp, Param, CatchAll]

  function GroupHits(t: Tree, typ: NodeType, path: string, rx: Matcher): seq<Hit> {
    match typ
    case Static => StaticHits(t, path, rx)
    case CatchAll => CatchAllHits(t, path, rx)
    case _ => WildHits(t, typ, path, rx)
  }

  /** The hits of the first `n` groups. */
  function HitsUpTo(t: Tree, n: nat, path: string, rx: Matcher): seq<Hit>
    requires n <= 4
  {
    if n == 0 then [] else HitsUpTo(t, n - 1, path, rx) + GroupHits(t, TYPES[n - 1], path, rx)
  }

  lemma HitsUpToAll(t: Tree, path: string, rx: Matcher)
    ensures HitsUpTo(t, 4, path, rx) == Hits(t, path, rx)
  {
    assert HitsUpTo(t, 1, path, rx) == StaticHits(t, path, rx);
    assert HitsUpTo(t, 2, path, rx) == HitsUpTo(t, 1, path, rx) + WildHits(t, Regexp, path, rx);
    assert HitsUpTo(t, 3, path, rx) == HitsUpTo(t, 2, path, rx) + WildHits(t, Param, path, rx);
  }

  /** Position of the first hit that serves the method, or |hits|. */
  function FirstServing(hits: seq<Hit>, m: Method): (i: nat)
    ensures i <= |hits|
    ensures i < |hits| ==> Serves(hits[i].leaf.endpoints, m)
    ensures forall j :: 0 <= j < i ==> !Serves(hits[j].leaf.endpoints, m)
  {
    if hits == [] then 0
    else if Serves(hits[0].leaf.endpoints, m) then 0
    else 1 + FirstServing(hits[1..], m)
  }

  // -------------------------------------------------- what a match means

  /**
   The tokens derive the path with these values. With `lax`, a parameter or regexp may
   also take the empty string off a non-empty path, whatever its tail and text.
   */
  ghost predicate Derives(toks: seq<Token>, path: string, values: seq<string>, rx: Matcher, lax: bool)
    decreases |toks|
  {
    if toks == [] then path == "" && values == []
    else
      match toks[0]
      case Lit(c) => path != "" && path[0] == c && Derives(toks[1..], path[1..], values, rx, lax)
      case Star => |toks| == 1 && values == [path]
      case _ =>
        && path != "" && values != []
        && (Takes(toks[0], path, values[0], rx) || (lax && values[0] == ""))
        && |values[0]| <= |path|
        && Derives(toks[1..], path[|values[0]|..], values[1..], rx, lax)
  }

  /**
   The walk from `t` along these tokens uses up the path with these values. A parameter or
   regexp takes what it should; or, if it is the last of its group, the empty string off a
   path that is not empty.
   */
  ghost predicate Reaches(t: Tree, toks: seq<Token>, path: string, values: seq<string>, rx: Matcher)
    decreases t
  {
    if toks == [] then path == "" && values == []
    else
      var ks := t.kids.Get(TypeOf(toks[0]));
      var i := KeyIndex(ks, toks[0]);
      && i < |ks| && EdgeTokens(ks[i]) <= toks
      && var k, rest := ks[i], toks[|EdgeTokens(ks[i])|..];
         match toks[0]
         case Lit(_) => k.prefix <= path && Reaches(k, rest, path[|k.prefix|..], values, rx)
         case Star => values != [] && values[0] == path && Reaches(k, rest, "", values[1..], rx)
         case _ =>
           && path != "" && values != []
           && (|| (Takes(toks[0], path, values[0], rx) && Reaches(k, rest, path[|values[0]|..], values[1..], rx))
               || (values[0] == "" && i == |ks| - 1 && Reaches(k, rest, path, values[1..], rx)))
  }
}
