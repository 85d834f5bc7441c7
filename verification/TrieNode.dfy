/**
 The trie node that is updated in place. Every node carries, as ghost state, the tree it
 stands for and the node it hangs from; the methods work on the set `S` of all nodes of
 one trie and are proved against the functions of modules Trie and TrieSearch.
 */
module TrieNode {
  import opened Wrappers
  import opened Pattern
  import opened PatternParser
  import opened Endpoints
  import opened Context
  import opened Trie
  import opened TrieOrder
  import opened TrieSteps
  import opened TrieContents
  import opened TrieSearch
  import opened SearchReport
  import opened TrieLookup

  ghost function Models(ns: seq<Node>): (r: seq<Tree>)
    reads ns
    ensures |r| == |ns| && forall i :: 0 <= i < |ns| ==> r[i] == ns[i].model
  {
    seq(|ns|, i requires 0 <= i < |ns| reads ns => ns[i].model)
  }

  class Node {
    var typ: NodeType
    var head: char
    var tail: char
    var prefix: string
    var rex: Option<string>
    var endpoints: EndpointMap
    var subroutes: Option<nat>
    var children: Groups<Node>

    ghost var model: Tree
    ghost var parent: Node?

    constructor ()
      ensures typ == Static && head == NUL && tail == NUL && prefix == "" && rex == None
      ensures endpoints == map[] && subroutes == None && children == Groups([], [], [], [])
      ensures model == ROOT && parent == null
    {
      typ, head, tail, prefix, rex := Static, NUL, NUL, "", None;
      endpoints, subroutes, children := map[], None, Groups([], [], [], []);
      model, parent := ROOT, null;
    }

    /** A blank node that hangs from `parent` but is not among its children yet. */
    constructor Child(typ: NodeType, head: char, tail: char, prefix: string, ghost parent: Node?)
      ensures this.typ == typ && this.head == head && this.tail == tail && this.prefix == prefix && rex == None
      ensures endpoints == map[] && subroutes == None && children == Groups([], [], [], []) && this.parent == parent
    {
      this.typ, this.head, this.tail, this.prefix, rex := typ, head, tail, prefix, None;
      endpoints, subroutes, children := map[], None, Groups([], [], [], []);
      model, this.parent := ROOT, parent;
    }

    ghost predicate Hanging(ns: seq<Node>, S: set<Node>)
      reads S
    {
      forall i :: 0 <= i < |ns| ==> ns[i] in S && ns[i].parent == this
    }

    /** The children are nodes of this trie and hang from this node. */
    ghost predicate Linked(S: set<Node>)
      reads this, S
    {
      && Hanging(children.statics, S) && Hanging(children.regexps, S)
      && Hanging(children.params, S) && Hanging(children.catchAlls, S)
    }

    /** The tree that this node's fields and its children's models make up. */
    ghost function Snapshot(S: set<Node>): Tree
      requires Linked(S)
      reads this, S
    {
      Tree(typ, head, tail, prefix, rex, Leaf(endpoints, subroutes),
           Groups(Models(children.statics), Models(children.regexps),
                  Models(children.params), Models(children.catchAlls)))
    }

    ghost predicate LocalOk(S: set<Node>)
      reads this, S
    {
      Linked(S) && model == Snapshot(S)
    }

    /** The same endpoint for each of these methods. */
    method SetEach(methods: seq<Method>, ep: Endpoint)
      modifies this`endpoints
      ensures forall m :: m in endpoints <==> m in old(endpoints) || m in methods
      ensures forall m <- endpoints :: endpoints[m] == if m in methods then ep else old(endpoints)[m]
    {
      for i := 0 to |methods|
        invariant forall m :: m in endpoints <==> m in old(endpoints) || m in methods[..i]
        invariant forall m <- endpoints :: endpoints[m] == if m in methods[..i] then ep else old(endpoints)[m]
      {
        endpoints := endpoints[methods[i] := ep];
        assert methods[..i + 1] == methods[..i] + [methods[i]];
      }
      assert methods[..|methods|] == methods;
    }

    static lemma EverywhereIs(marked: EndpointMap, eps: EndpointMap, full: Endpoint)
      requires forall m :: m in eps <==> m in marked || m == ALL || m in METHODS
      requires forall m <- eps :: eps[m] == if m == ALL || m in METHODS then full else marked[m]
      ensures eps == marked + Everywhere(full)
    {
    }

    /** Registers the endpoint for the method's entries; throws, changing nothing, if the keys are refused. */
    method SetEndpoint(verb: Method, handler: Option<Handler>, pattern: string) returns (ok: bool)
      modifies this`endpoints
      ensures ok == Accepted(pattern)
      ensures endpoints == if ok then SetAll(old(endpoints), Route(verb, pattern, handler, None)) else old(endpoints)
    {
      hide Keys;
      hide Tokens;
      hide HasBits;
      hide Everywhere;
      var paramKeys := PatParamKeys(pattern);
      if paramKeys.None? {
        return false;
      }
      var full := Endpoint(handler, pattern, paramKeys.value);
      if HasBits(verb, UNKNOWN) {
        endpoints := endpoints[UNKNOWN := Value(endpoints, UNKNOWN).(handler := handler)];
      }
      ghost var marked := endpoints;
      if HasBits(verb, ALL) {
        endpoints := endpoints[ALL := full];
        SetEach(METHODS, full);
        EverywhereIs(marked, endpoints, full);
      } else {
        endpoints := endpoints[verb := full];
      }
      return true;
    }

    /** Label, tail and, for a regexp, its text tell the children of a group apart. */
    static lemma KeyTest(k: Tree, lead: char, tail: char, prefix: string, key: Token)
      requires EdgeOk(k)
      requires match k.typ
               case Static => key == Lit(lead) && tail == NUL
               case Regexp => key == Rex(prefix, tail) && lead == '{'
               case Param => key == Par(tail) && lead == '{'
               case CatchAll => key == Star && lead == '*' && tail == NUL
      ensures EdgeKey(k) == key <==> k.head == lead && k.tail == tail && (k.typ == Regexp ==> k.prefix == prefix)
    {
    }

    lemma KeyTests(ntyp: NodeType, lead: char, tail: char, prefix: string, S: set<Node>, key: Token)
      requires Linked(S) && GroupOk(Models(children.Get(ntyp)), ntyp)
      requires forall j :: 0 <= j < |children.Get(ntyp)| ==> children.Get(ntyp)[j] in S && children.Get(ntyp)[j].LocalOk(S)
      requires match ntyp
               case Static => key == Lit(lead) && tail == NUL
               case Regexp => key == Rex(prefix, tail) && lead == '{'
               case Param => key == Par(tail) && lead == '{'
               case CatchAll => key == Star && lead == '*' && tail == NUL
      ensures forall j :: 0 <= j < |children.Get(ntyp)| ==>
                var n := children.Get(ntyp)[j];
                EdgeKey(Models(children.Get(ntyp))[j]) == key
                <==> n.head == lead && n.tail == tail && (ntyp == Regexp ==> n.prefix == prefix)
    {
      var nds := children.Get(ntyp);
      var ks := Models(nds);
      forall j | 0 <= j < |nds|
        ensures EdgeKey(ks[j]) == key <==> nds[j].head == lead && nds[j].tail == tail && (ntyp == Regexp ==> nds[j].prefix == prefix)
      {
        assert ks[j] in ks && nds[j].LocalOk(S);
        KeyTest(ks[j], lead, tail, prefix, key);
      }
    }

    /** The first child of a group with this label and tail, and with this prefix if it is a regexp. */
    method GetEdge(ntyp: NodeType, lead: char, tail: char, prefix: string, ghost S: set<Node>, ghost key: Token)
      returns (edge: Node?)
      requires Linked(S) && GroupOk(Models(children.Get(ntyp)), ntyp)
      requires forall j :: 0 <= j < |children.Get(ntyp)| ==> children.Get(ntyp)[j] in S && children.Get(ntyp)[j].LocalOk(S)
      requires match ntyp
               case Static => key == Lit(lead) && tail == NUL
               case Regexp => key == Rex(prefix, tail) && lead == '{'
               case Param => key == Par(tail) && lead == '{'
               case CatchAll => key == Star && lead == '*' && tail == NUL
      ensures var i := KeyIndex(Models(children.Get(ntyp)), key);
              if edge == null then i == |children.Get(ntyp)| else i < |children.Get(ntyp)| && edge == children.Get(ntyp)[i]
    {
      hide EdgeKey;
      hide GroupOk;
      hide Node.LocalOk;
      hide Linked;
      var nds := children.Get(ntyp);
      ghost var ks := Models(nds);
      KeyTests(ntyp, lead, tail, prefix, S, key);
      for j := 0 to |nds|
        invariant forall l :: 0 <= l < j ==> EdgeKey(ks[l]) != key
      {
        if nds[j].head == lead && nds[j].tail == tail {
          if !(ntyp == Regexp && nds[j].prefix != prefix) {
            return nds[j];
          }
        }
      }
      return null;
    }

    /** Puts `child` where the first child with this label and tail was; throws, changing nothing, if there is none. */
    method ReplaceChild(lead: char, tail: char, child: Node) returns (ok: bool)
      modifies this`children, child`head, child`tail
      ensures var group := old(children.Get(child.typ));
              var i := old(FirstPlace(children.Get(child.typ), lead, tail));
              && ok == (i < |group|)
              && children == (if ok then old(children).Put(child.typ, group[i := child]) else old(children))
              && (if ok then child.head == lead && child.tail == tail else unchanged(child))
    {
      var nds := children.Get(child.typ);
      for j := 0 to |nds|
        invariant unchanged(this) && unchanged(child)
        invariant FirstPlace(nds, lead, tail) >= j
      {
        if nds[j].head == lead && nds[j].tail == tail {
          children := children.Put(child.typ, nds[j := child]);
          child.head := lead;
          child.tail := tail;
          return true;
        }
      }
      return false;
    }

    /** A new node: nothing hangs from it and nothing is registered at it. */
    ghost predicate Blank()
      reads this
    {
      endpoints == map[] && subroutes == None && children == Groups([], [], [], []) && rex == None
    }

    /** A group with `child` added, in order. */
    method SortedWith(child: Node, group: seq<Node>) returns (nodes: seq<Node>)
      requires Shown(child) && forall i :: 0 <= i < |group| ==> Shown(group[i])
      ensures Models(nodes) == Ordered(Models(group) + [child.model])
      ensures forall i :: 0 <= i < |nodes| ==> nodes[i] == child || nodes[i] in group
    {
      hide Ordered;
      hide NonNull;
      hide Shown;
      NonNullAll(group + [child]);
      assert forall n <- group + [child] :: n == child || n in group;
      assert Models(group + [child]) == Models(group) + [child.model];
      nodes := NodesSort(group + [child]);
      forall i | 0 <= i < |nodes|
        ensures nodes[i] == child || nodes[i] in group
      {
        assert nodes[i] in nodes;
      }
    }

    /** Only `child`, of the loose nodes, hangs from this node, and it is not among its children yet. */
    ghost predicate OnlyLoose(child: Node, X: set<Node>)
      reads this, X
    {
      && (forall x <- X :: x.parent == this ==> x == child)
      && child !in children.statics && child !in children.regexps
      && child !in children.params && child !in children.catchAlls
    }

    lemma GroupShown(child: Node, S: set<Node>, X: set<Node>)
      requires Linked(S) && AllOk(S, X) && OnlyLoose(child, X)
      ensures forall i :: 0 <= i < |children.Get(child.typ)| ==> Shown(children.Get(child.typ)[i])
    {
      var group := children.Get(child.typ);
      assert Hanging(group, S);
      forall i | 0 <= i < |group|
        ensures Shown(group[i])
      {
        assert group[i].LocalOk(S);
      }
    }

    /** The loose nodes of `X` other than this one are as they were. */
    twostate predicate OthersKept(S: set<Node>, X: set<Node>)
      reads S
    {
      forall x: Node {:trigger x.Snapshot(S)} {:trigger x.Linked(S)} ::
        x in X && x in S && x != this && old(x.Linked(S)) ==> x.Linked(S) && x.Snapshot(S) == old(x.Snapshot(S))
    }

    /** `child` stands for `k` from now on; it is not among the children yet. */
    ghost method Appear(child: Node, k: Tree, S: set<Node>, X: set<Node>)
      requires {this, child} <= X && X <= S && this != child && Linked(S) && child.parent == this
      requires AllOk(S, X) && OnlyLoose(child, X)
      modifies child`model
      ensures child.model == k && Linked(S) && AllOk(S, X) && Snapshot(S) == old(Snapshot(S)) && OthersKept(S, X)
      ensures OnlyLoose(child, X)
    {
      child.model := k;
      AllKept(Scope(S, X), S);
      ShapesKept(Scope(S, X - {this}), S);
      ModelsKept(children.statics);
      ModelsKept(children.regexps);
      ModelsKept(children.params);
      ModelsKept(children.catchAlls);
    }

    /** Puts these nodes, which hang from this node, in place of a group. */
    method Regroup(typ: NodeType, nodes: seq<Node>, ghost S: set<Node>, ghost X: set<Node>)
      requires this in X && X <= S && Linked(S) && AllOk(S, X) && Hanging(nodes, S)
      modifies this`children
      ensures Linked(S) && AllOk(S, X) && OthersKept(S, X)
      ensures Snapshot(S) == old(Snapshot(S)).(kids := old(Snapshot(S)).kids.Put(typ, Models(nodes)))
    {
      children := children.Put(typ, nodes);
      AllKept(Scope(S, X), S);
      ShapesKept(Scope(S, X - {this}), S);
      ModelsKept(old(children).statics);
      ModelsKept(old(children).regexps);
      ModelsKept(old(children).params);
      ModelsKept(old(children).catchAlls);
    }

    /** Appends `child`, which stands for `k` from now on, to its group and sorts the group. */
    method Hang(child: Node, ghost k: Tree, ghost S: set<Node>, ghost X: set<Node>)
      requires {this, child} <= X && X <= S && this != child
      requires Linked(S) && child.Linked(S) && child.parent == this
      requires AllOk(S, X) && OnlyLoose(child, X)
      requires k.typ == child.typ && k.head == child.head && k.tail == child.tail && k.prefix == child.prefix
      modifies this`children, child`model
      ensures child.model == k && Linked(S) && AllOk(S, X) && OthersKept(S, X)
      ensures Snapshot(S) == AddKid(old(Snapshot(S)), k)
    {
      hide Ordered;
      hide Shown;
      hide AllOk;
      hide LocalOk;
      hide Linked;
      hide Snapshot;
      hide OnlyLoose;
      hide Hanging;
      hide Models;
      Appear(child, k, S, X);
      GroupShown(child, S, X);
      ShownIf(child);
      GroupModels(child.typ, S);
      var group := children.Get(child.typ);
      var nodes := SortedWith(child, group);
      NodesHang(child, nodes, S);
      Regroup(child.typ, nodes, S, X);
    }

    lemma GroupModels(typ: NodeType, S: set<Node>)
      requires Linked(S)
      ensures Snapshot(S).kids.Get(typ) == Models(children.Get(typ))
    {
    }

    lemma NodesHang(child: Node, nodes: seq<Node>, S: set<Node>)
      requires Linked(S) && child in S && child.parent == this
      requires forall i :: 0 <= i < |nodes| ==> nodes[i] == child || nodes[i] in children.Get(child.typ)
      ensures Hanging(nodes, S)
    {
    }

    /** The model of `hn` already has the leaf that is about to be stored at it. */
    ghost predicate Promised(leaf: Leaf, S: set<Node>)
      reads this, S
    {
      this in S && Linked(S) && model == Snapshot(S).(leaf := leaf)
    }

    /** No loose node hangs from this one. */
    ghost predicate Tip(X: set<Node>)
      reads X
    {
      forall x <- X :: x.parent != this
    }

    /** Adds the branch `next` for `rest`, whose first node is the blank `nn`, to this node, which has no children yet. */
    method {:induction false} Extend(nn: Node, rest: string, ghost leaf: Leaf, ghost next: Option<Tree>,
                                     ghost S: set<Node>, ghost X: set<Node>)
      returns (hn: Node?, ghost S': set<Node>)
      requires rest != "" && this in X && X <= S && AllOk(S, X) && Tip(X)
      requires children == Groups([], [], [], []) && endpoints == map[] && subroutes == None
      requires nn !in S && nn.Blank() && nn.parent == this && nn != this && nn.Tip(X)
      requires nn.head == rest[0]
      requires rest[0] != '{' && rest[0] != '*' ==> nn.tail == NUL && nn.typ == Static && nn.prefix == rest
      requires next == Branch(rest, nn.prefix, leaf)
      modifies this`children, nn
      ensures S <= S' && fresh(S' - S - {nn})
      ensures hn == null <==> next == None
      ensures hn == null ==> children == old(children) && AllOk(S, X)
      ensures hn != null ==>
                && (hn == nn || fresh(hn)) && hn.Promised(leaf, S') && Linked(S') && AllOk(S', X + {hn})
                && (hn.parent == this || hn.parent !in S)
                && hn.endpoints == map[] && hn.subroutes == None
                && Snapshot(S') == AddKid(Tree(typ, head, tail, prefix, rex, EMPTY, NONE), next.value)
      decreases |rest|, 3
    {
      hide NextSegment;
      BranchPlain(rest, nn.prefix, leaf);
      hide Branch;
      ghost var S1 := S + {nn};
      AllKept(Scope(S, X), S1);
      hn, S' := AddChild(nn, rest, leaf, next, S1, X + {nn});
      if hn == null {
        AllKept(Scope(S, X), S);
      }
    }

    /** What this blank node has become, with a branch for the rest below it, if `hn` is not null. */
    twostate predicate Grew(new hn: Node?, new S': set<Node>, leaf: Leaf, grown: Option<Tree>, S: set<Node>, X: set<Node>)
      reads this, S', if hn == null then {} else {hn}
    {
      && parent == old(parent) && model == old(model) && S <= S'
      && (hn == null <==> grown == None)
      && (hn == null ==> AllOk(S, X))
      && (hn != null ==>
            && hn in S' && (hn == this || hn !in S) && Linked(S') && AllOk(S', X + {hn})
            && (hn != this ==> hn.Promised(leaf, S') && (hn.parent == this || hn.parent !in S))
            && hn.endpoints == map[] && hn.subroutes == None
            && grown == Some(if hn == this then Snapshot(S').(leaf := leaf) else Snapshot(S')))
    }

    /** Sets the fields of a loose blank node. */
    method Become(typ: NodeType, tail: char, prefix: string, rex: Option<string>, ghost S: set<Node>, ghost X: set<Node>)
      requires this in X && X <= S && AllOk(S, X) && Blank()
      modifies this`typ, this`tail, this`prefix, this`rex
      ensures this.typ == typ && this.tail == tail && this.prefix == prefix && this.rex == rex && AllOk(S, X)
      ensures Linked(S) && Snapshot(S) == Tree(typ, head, tail, prefix, rex, EMPTY, NONE)
    {
      this.typ, this.tail, this.prefix, this.rex := typ, tail, prefix, rex;
      AllKept(Scope(S, X), S);
    }

    /** A parameter, regexp or catch-all first. */
    method {:induction false} GrowWild(s: string, seg: Segment, ghost leaf: Leaf, ghost next: Option<Tree>,
                                       ghost S: set<Node>, ghost X: set<Node>)
      returns (hn: Node?, ghost S': set<Node>)
      requires this in X && X <= S && AllOk(S, X) && Blank() && Tip(X)
      requires seg.typ != Static && 0 < seg.end <= |s|
      requires Continues(s, seg) ==> next == Branch(s[seg.end..], s[seg.end..], leaf)
      modifies this
      ensures fresh(S' - S)
      ensures Grew(hn, S', leaf, WildFirst(old(head), old(prefix), s, seg, leaf, next), S, X)
      decreases |s|, 0
    {
      hide Branch;
      hide AddKid;
      hide Linked;
      hide Snapshot;
      hn, S' := this, S;
      if seg.typ == Regexp {
        Become(seg.typ, seg.tail, seg.rexpat, Some(seg.rexpat), S, X);
      } else {
        Become(seg.typ, seg.tail, prefix, rex, S, X);
      }
      if Continues(s, seg) {
        var nn := new Node.Child(Static, s[seg.end], NUL, s[seg.end..], this);
        hn, S' := Extend(nn, s[seg.end..], leaf, next, S, X);
      }
    }

    /** Literal text first, then a wild segment. */
    method {:induction false} GrowText(s: string, seg: Segment, ghost leaf: Leaf, ghost next: Option<Tree>,
                                       ghost S: set<Node>, ghost X: set<Node>)
      returns (hn: Node?, ghost S': set<Node>)
      requires this in X && X <= S && AllOk(S, X) && Blank() && Tip(X)
      requires 0 < seg.start < |s| && tail == NUL && (s[seg.start] == '{' || s[seg.start] == '*')
      requires next == Branch(s[seg.start..], "", leaf)
      modifies this
      ensures fresh(S' - S)
      ensures Grew(hn, S', leaf, TextFirst(old(head), s, seg, next), S, X)
      decreases |s|, 0
    {
      hide Branch;
      hide AddKid;
      hide Plain;
      hide Linked;
      hide Snapshot;
      Become(Static, tail, s[..seg.start], None, S, X);
      var nn := new Node.Child(seg.typ, s[seg.start], seg.tail, "", this);
      hn, S' := Extend(nn, s[seg.start..], leaf, next, S, X);
    }

    /** Makes this blank node the first of the branch for `s`, which starts or continues with the wild segment `seg`. */
    method {:induction false} GrowBranch(s: string, seg: Segment, ghost leaf: Leaf, ghost S: set<Node>, ghost X: set<Node>)
      returns (hn: Node?, ghost S': set<Node>)
      requires this in X && X <= S && AllOk(S, X) && Blank() && Tip(X)
      requires s != "" && NextSegment(s) == Some(seg) && seg.typ != Static
      requires head == s[0] && (s[0] != '{' && s[0] != '*' ==> tail == NUL)
      modifies this
      ensures fresh(S' - S) && Grew(hn, S', leaf, Branch(s, old(prefix), leaf), S, X)
      decreases |s|, 1
    {
      hide Branch;
      hide NextSegment;
      WildStart(s, seg);
      if seg.start == 0 {
        BranchWild(s, seg, prefix, leaf);
        ghost var next := if Continues(s, seg) then Branch(s[seg.end..], s[seg.end..], leaf) else None;
        hn, S' := GrowWild(s, seg, leaf, next, S, X);
      } else {
        BranchText(s, seg, prefix, leaf);
        hn, S' := GrowText(s, seg, leaf, Branch(s[seg.start..], "", leaf), S, X);
      }
    }

    /**
     Hangs `child` and the branch for the rest of `s` below this node, and returns the
     branch's last node; null, with this node unchanged, if `s` is malformed. The nodes of
     `X` need not stand for their models.
     */
    method {:induction false} AddChild(child: Node, s: string, ghost leaf: Leaf, ghost grown: Option<Tree>,
                                       ghost S: set<Node>, ghost X: set<Node>)
      returns (hn: Node?, ghost S': set<Node>)
      requires s != "" && {this, child} <= X && X <= S && child != this
      requires Linked(S) && child.Linked(S) && child.parent == this && child.Tip(X)
      requires AllOk(S, X) && OnlyLoose(child, X)
      requires Plain(s) || child.Blank()
      requires child.head == s[0] && (s[0] != '{' && s[0] != '*' ==> child.tail == NUL && child.typ == Static)
      requires grown == if Plain(s) then Some(child.Snapshot(S).(leaf := leaf)) else Branch(s, child.prefix, leaf)
      modifies this`children, child
      ensures S <= S' && fresh(S' - S)
      ensures hn == null <==> grown == None
      ensures hn == null ==> children == old(children) && AllOk(S, X)
      ensures hn != null ==>
                && child.model == grown.value && child.parent == this && Linked(S')
                && (hn == child || (fresh(hn) && (hn.parent == child || hn.parent !in S))) && hn.Promised(leaf, S')
                && Leaf(hn.endpoints, hn.subroutes) == old(Leaf(child.endpoints, child.subroutes))
                && AllOk(S', X - {child} + {hn})
                && Snapshot(S') == AddKid(old(Snapshot(S)), grown.value)
      decreases |s|, 2
    {
      hide Branch;
      hide NextSegment;
      hide Plain;
      hide Ordered;
      hide Hanging;
      hide Snapshot;
      BranchPlain(s, child.prefix, leaf);
      var result := PatNextSegment(s);
      if result.None? {
        return null, S;
      }
      var seg := result.value;
      hn, S' := child, S;
      if seg.typ != Static {
        hn, S' := child.GrowBranch(s, seg, leaf, S, X);
        if hn == null {
          return null, S;
        }
      }
      StillLinked(S, S');
      HangBranch(child, hn, leaf, grown.value, S', X);
    }

    /** Hangs `child`, above or equal to the branch's last node `hn`, whose model is promised a leaf. */
    method HangBranch(child: Node, hn: Node, ghost leaf: Leaf, ghost k: Tree, ghost S: set<Node>, ghost X: set<Node>)
      requires {this, child} <= X && X + {hn} <= S && this != child && this != hn
      requires Linked(S) && child.Linked(S) && child.parent == this
      requires AllOk(S, X + {hn}) && OnlyLoose(child, X + {hn})
      requires if hn == child then k == child.Snapshot(S).(leaf := leaf) else k == child.Snapshot(S) && hn.Promised(leaf, S)
      modifies this`children, child`model
      ensures child.model == k && Linked(S) && AllOk(S, X - {child} + {hn}) && hn.Promised(leaf, S)
      ensures Snapshot(S) == AddKid(old(Snapshot(S)), k)
    {
      Hang(child, k, S, X + {hn});
      assert child.Linked(S) && hn.Linked(S);
    }

    twostate lemma StillLinked(S: set<Node>, new S': set<Node>)
      requires old(Linked(S)) && S <= S'
      requires forall c <- S :: Hung(c)
      requires Same(this)
      ensures Linked(S') && Snapshot(S') == old(Snapshot(S))
    {
      ModelsKept(children.statics);
      ModelsKept(children.regexps);
      ModelsKept(children.params);
      ModelsKept(children.catchAlls);
    }

    /**
     Moves the promise from this node to its child `c`: this node's model already has the
     new tree `k` in place of the child's, and from now on `c` stands for `k`.
     */
    ghost method Descend(typ: NodeType, i: nat, c: Node, k: Tree, S: set<Node>)
      requires this in S && AllOk(S, {this}) && Linked(S) && Good(Snapshot(S)) && parent != this
      requires i < |children.Get(typ)| && c == children.Get(typ)[i]
      requires model == SetKid(Snapshot(S), typ, i, k)
      modifies c`model
      ensures c in S && c.parent == this && c.parent != c && AllOk(S, {c})
      ensures c.Linked(S) && c.Snapshot(S) == old(c.model) && c.model == k && c.typ == typ
    {
      hide Good;
      hide SetKid;
      hide EdgeOk;
      hide Snapshot;
      hide Linked;
      hide Models;
      ChildAt(typ, i, S);
      OnlyPlace(typ, i, S);
      c.model := k;
      AllKept(Scope(S, {this, c}), S);
      ShapesKept(Scope(S, {c}), S);
      ChildReplaced(Spot(this, S), typ, i);
      assert LocalOk(S);
    }

    /** A child is in one place only. */
    lemma OnlyPlace(typ: NodeType, i: nat, S: set<Node>)
      requires this in S && AllOk(S, {this}) && Linked(S) && Good(Snapshot(S)) && parent != this
      requires i < |children.Get(typ)|
      ensures forall other: NodeType, j :: 0 <= j < |children.Get(other)| && (other != typ || j != i) ==>
                                             children.Get(other)[j] != children.Get(typ)[i]
      ensures typ == Static ==>
                var c := children.statics[i];
                && (forall j :: 0 <= j < |children.statics| && j != i ==> children.statics[j] != c)
                && (forall j :: 0 <= j < |children.regexps| ==> children.regexps[j] != c)
                && (forall j :: 0 <= j < |children.params| ==> children.params[j] != c)
                && (forall j :: 0 <= j < |children.catchAlls| ==> children.catchAlls[j] != c)
    {
      var before := Snapshot(S);
      ChildAt(typ, i, S);
      forall other: NodeType, j | 0 <= j < |children.Get(other)| && (other != typ || j != i)
        ensures children.Get(other)[j] != children.Get(typ)[i]
      {
        ChildAt(other, j, S);
        assert Distinct(before.kids.Get(typ)) by { assert GroupOk(before.kids.Get(typ), typ); }
      }
      if typ == Static {
        assert children.Get(Static) == children.statics && children.Get(Regexp) == children.regexps;
        assert children.Get(Param) == children.params && children.Get(CatchAll) == children.catchAlls;
      }
    }

    /** What is known of a child. */
    lemma ChildAt(typ: NodeType, i: nat, S: set<Node>)
      requires this in S && AllOk(S, {this}) && Linked(S) && Good(Snapshot(S)) && parent != this
      requires i < |children.Get(typ)|
      ensures var c := children.Get(typ)[i];
              && c in S && c.parent == this && c != this && c.LocalOk(S) && c.typ == typ
              && c.model == Snapshot(S).kids.Get(typ)[i] && EdgeOk(c.model) && Good(c.model)
              && c.prefix == c.model.prefix && c.model.typ == typ
    {
      assert Hanging(children.Get(typ), S);
      var c := children.Get(typ)[i];
      KidGood(Snapshot(S), typ, i);
      assert c.LocalOk(S);
    }

    /** One child's model has changed: one place of the tree has. */
    lemma OneModelChanged(typ: NodeType, i: nat, c: Node, before: Tree, S: set<Node>)
      requires Linked(S) && i < |children.Get(typ)| && c == children.Get(typ)[i]
      requires SameEdge(Snapshot(S), before) && Snapshot(S).leaf == before.leaf
      requires forall other: NodeType :: |before.kids.Get(other)| == |children.Get(other)|
      requires forall other: NodeType, j :: 0 <= j < |children.Get(other)| && (other != typ || j != i) ==>
                                              children.Get(other)[j].model == before.kids.Get(other)[j]
      ensures Snapshot(S) == SetKid(before, typ, i, c.model)
    {
      var after, want := Snapshot(S), SetKid(before, typ, i, c.model);
      forall other: NodeType
        ensures after.kids.Get(other) == want.kids.Get(other)
      {
      }
      assert after.kids.Get(Static) == want.kids.Get(Static) && after.kids.Get(Regexp) == want.kids.Get(Regexp);
      assert after.kids.Get(Param) == want.kids.Get(Param) && after.kids.Get(CatchAll) == want.kids.Get(CatchAll);
    }

    /** The registered leaf, once its endpoints are stored; `subroutes` may still be promised. */
    ghost predicate Stored(route: Route, S: set<Node>)
      reads this, S
    {
      Promised(Leaf(endpoints, if route.subroutes.Some? then route.subroutes else subroutes), S)
    }

    /** Stores the endpoints that this node's model has been promised. */
    method Store(verb: Method, handler: Option<Handler>, pattern: string, ghost promise: Option<nat>, ghost S: set<Node>)
      returns (ok: bool)
      requires AllOk(S, {this})
      requires Promised(NewLeaf(Leaf(endpoints, subroutes), Route(verb, pattern, handler, promise)), S)
      modifies this`endpoints
      ensures ok == Accepted(pattern)
      ensures ok ==> AllOk(S, {this}) && Stored(Route(verb, pattern, handler, promise), S)
      ensures !ok ==> AllOk(S, {})
    {
      ok := SetEndpoint(verb, handler, pattern);
      AllKept(Scope(S, {this}), S);
      assert Linked(S) && Models(children.statics) == old(Models(children.statics)) by {
        ModelsKept(children.statics);
      }
      ModelsKept(children.regexps);
      ModelsKept(children.params);
      ModelsKept(children.catchAlls);
      assert !ok ==> LocalOk(S);
    }

    /** The registration's last step: a new branch for what is left of the pattern. */
    method AttachNew(search: string, tail: char, verb: Method, handler: Option<Handler>, pattern: string,
                     ghost promise: Option<nat>, ghost S: set<Node>)
      returns (r: Node?, ghost S': set<Node>)
      requires search != "" && AllOk(S, {this}) && this in S && Linked(S) && parent != this
      requires search[0] != '{' && search[0] != '*' ==> tail == NUL
      requires model == Attach(Snapshot(S), search, Route(verb, pattern, handler, promise)).tree
      modifies this`children
      ensures S <= S' && fresh(S' - S)
      ensures r != null <==> Attach(old(Snapshot(S)), search, Route(verb, pattern, handler, promise)).ok
      ensures r == null ==> AllOk(S', {})
      ensures r != null ==> AllOk(S', {r}) && r.Stored(Route(verb, pattern, handler, promise), S')
    {
      ghost var route := Route(verb, pattern, handler, promise);
      ghost var leaf := NewLeaf(EMPTY, route);
      ghost var t := Snapshot(S);
      var child := new Node.Child(Static, search[0], tail, search, this);
      ghost var S1 := S + {child};
      AllKept(Scope(S, {this}), S1);
      StillLinked(S, S1);
      BranchPlain(search, search, leaf);
      hide Branch;
      hide NextSegment;
      ghost var grown := Branch(search, search, leaf);
      var hn: Node?;
      hn, S' := AddChild(child, search, leaf, grown, S1, {this, child});
      if hn == null {
        return null, S;
      }
      var ok := hn.Store(verb, handler, pattern, promise, S');
      return if ok then hn else null, S';
    }

    /** Gives this static node the rest of its text, and hangs it from `above`. */
    method Shorten(lead: char, rest: string, ghost tk: Tree, ghost above: Node, ghost S: set<Node>, ghost X: set<Node>)
      requires this in S && X <= S && AllOk(S, X) && this !in X && model == tk && tk.typ == Static
      requires parent in X && above in X && parent != this
      modifies this`head, this`prefix, this`parent, this`model
      ensures parent == above && model == tk.(head := lead, prefix := rest) && AllOk(S, X)
      ensures head == lead && prefix == rest
    {
      assert LocalOk(S);
      head, prefix := lead, rest;
      parent := above;
      model := tk.(head := lead, prefix := rest);
      AllKept(Scope(S, X + {this}), S);
      ModelsKept(children.statics);
      ModelsKept(children.regexps);
      ModelsKept(children.params);
      ModelsKept(children.catchAlls);
      assert LocalOk(S);
    }

    /** Puts `child` in the place of the static child `k`, which goes out of the trie for the moment, with the text `rest`. */
    method Displace(k: Node, child: Node, first: char, lead: char, rest: string, ghost i: nat, ghost tk: Tree, ghost S: set<Node>)
      requires this in S && AllOk(S, {this}) && Linked(S) && Good(Snapshot(S)) && parent != this
      requires i < |children.statics| && k == children.statics[i] && tk == k.model
      requires child !in S && child.Blank() && child.typ == Static && child.parent == this
      requires k.prefix != "" && first == k.prefix[0]
      requires model == SetKid(Snapshot(S), Static, i, child.model)
      modifies this`children, child`head, child`tail, k`head, k`prefix, k`parent, k`model
      ensures child.head == first && child.tail == NUL
      ensures k.parent == child && k.model == tk.(head := lead, prefix := rest) && k.head == lead && k.prefix == rest
      ensures AllOk(S + {child}, {child})
    {
      hide Good;
      hide SetKid;
      hide EdgeOk;
      hide Snapshot;
      hide Linked;
      hide Models;
      ghost var S' := S + {child};
      ChildAt(Static, i, S);
      OnlyPlace(Static, i, S);
      FirstStatic(first, i, S);
      FirstPlaceIs(children.statics, first, NUL, i);
      var ok := ReplaceChild(first, NUL, child);
      AllKept(Scope(S, {this}), S');
      k.Shorten(lead, rest, tk, child, S', {this, child});
      ChildSwapped(Spot(this, S), child, i);
      assert LocalOk(S');
    }

    lemma FirstStatic(lead: char, i: nat, S: set<Node>)
      requires this in S && AllOk(S, {this}) && Linked(S) && Good(Snapshot(S)) && parent != this
      requires i < |children.statics| && children.statics[i].prefix != "" && lead == children.statics[i].prefix[0]
      ensures children.statics[i].head == lead && children.statics[i].tail == NUL
      ensures forall j :: 0 <= j < i ==> children.statics[j].head != lead
    {
      ChildAt(Static, i, S);
      assert Distinct(Snapshot(S).kids.Get(Static)) by { assert GroupOk(Snapshot(S).kids.Get(Static), Static); }
      forall j | 0 <= j < i
        ensures children.statics[j].head != lead
      {
        ChildAt(Static, j, S);
      }
    }

    /**
     Splits the static child `k` after `common` characters: `child` takes its place, with the
     shortened `k` below it. `child` is left standing for a model that the caller completes.
     */
    method SplitEdge(k: Node, child: Node, common: nat, ghost i: nat, ghost tk: Tree, ghost S: set<Node>)
      returns (ghost S': set<Node>)
      requires this in S && AllOk(S, {this}) && Linked(S) && Good(Snapshot(S)) && parent != this
      requires i < |children.statics| && k == children.statics[i] && tk == k.model
      requires 0 < common < |tk.prefix| && k.prefix == tk.prefix
      requires child !in S && child.Blank() && child.typ == Static && child.parent == this && child.prefix == tk.prefix[..common]
      requires model == SetKid(Snapshot(S), Static, i, child.model)
      modifies this`children, child`head, child`tail, child`children, k
      ensures S + {child} <= S' && fresh(S' - S - {child})
      ensures AllOk(S', {child}) && child.Linked(S') && child.Snapshot(S') == Split(tk, common)
    {
      hide Good;
      hide Split;
      hide AddKid;
      hide SetKid;
      hide Branch;
      hide Plain;
      ChildAt(Static, i, S);
      assert k.LocalOk(S);
      var first, lead, rest := k.prefix[0], k.prefix[common], k.prefix[common..];
      SplitParts(tk, common, first, lead, rest);
      Displace(k, child, first, lead, rest, i, tk, S);
      ghost var S1 := S + {child};
      assert k.LocalOk(S1);
      var hn: Node?;
      hn, S' := child.AddChild(k, rest, tk.leaf, Some(k.model), S1, {child, k});
    }

    /** The two nodes that a static node is split into. */
    static lemma SplitParts(tk: Tree, common: nat, first: char, lead: char, rest: string)
      requires EdgeOk(tk) && tk.typ == Static && common < |tk.prefix|
      requires first == tk.prefix[0] && lead == tk.prefix[common] && rest == tk.prefix[common..]
      ensures Plain(rest) && rest != "" && rest[0] == lead && lead != '{' && lead != '*' && tk.tail == NUL
      ensures Split(tk, common) == AddKid(Tree(Static, first, NUL, tk.prefix[..common], None, EMPTY, NONE),
                                          tk.(head := lead, prefix := rest))
    {
      PlainRest(tk.prefix, common);
    }

    /** The registration's last step where a static edge shares only part of its text with the pattern. */
    method SplitAndStore(k: Node, search: string, common: nat, verb: Method, handler: Option<Handler>, pattern: string,
                         ghost promise: Option<nat>, ghost i: nat, ghost tk: Tree, ghost S: set<Node>)
      returns (r: Node?, ghost S': set<Node>)
      requires this in S && AllOk(S, {this}) && Linked(S) && Good(Snapshot(S)) && parent != this
      requires i < |children.statics| && k == children.statics[i] && tk == k.model && k.prefix == tk.prefix
      requires 0 < common < |tk.prefix| && common <= |search|
      requires var out := SplitOutcome(Split(tk, common), search, common, Route(verb, pattern, handler, promise));
               model == SetKid(Snapshot(S), Static, i, out.tree)
      modifies this`children, k
      ensures S <= S' && fresh(S' - S)
      ensures r != null <==> SplitOutcome(Split(tk, common), search, common, Route(verb, pattern, handler, promise)).ok
      ensures r == null ==> AllOk(S', {})
      ensures r != null ==> AllOk(S', {r}) && r.Stored(Route(verb, pattern, handler, promise), S')
    {
      hide Good;
      hide Split;
      hide Attach;
      hide SetKid;
      ghost var route := Route(verb, pattern, handler, promise);
      ghost var m := Split(tk, common);
      var child := new Node.Child(Static, NUL, NUL, k.prefix[..common], this);
      child.model := SplitOutcome(m, search, common, route).tree;
      S' := SplitEdge(k, child, common, i, tk, S);
      var rest := search[common..];
      if rest == "" {
        var ok := child.Store(verb, handler, pattern, promise, S');
        return if ok then child else null, S';
      }
      ghost var S1 := S';
      r, S' := child.AttachNew(rest, NUL, verb, handler, pattern, promise, S1);
    }

    /** The edge to attach to: the front segment of the search, and the child it leads to, if there is one. */
    method FrontEdge(search: string, ghost S: set<Node>) returns (front: Option<Segment>, edge: Node?, ghost i: nat)
      requires this in S && AllOk(S, {this}) && Linked(S) && Good(Snapshot(S)) && parent != this && search != ""
      ensures front == Front(search)
      ensures front.Some? ==>
                var seg := front.value;
                var group := children.Get(seg.typ);
                && (seg.typ == Static ==> search[0] != '{' && search[0] != '*' && seg == STATIC_SEGMENT)
                && (seg.typ != Static ==> 0 < seg.end <= |search|)
                && (search[0] != '{' && search[0] != '*' ==> seg.tail == NUL)
                && i == KeyIndex(Snapshot(S).kids.Get(seg.typ), SegmentKey(search, seg)) && i <= |group|
                && |Snapshot(S).kids.Get(seg.typ)| == |group|
                && (edge == null <==> i == |group|)
                && (edge != null ==> edge in S && edge.parent == this && edge == group[i] && edge.typ == seg.typ && edge.prefix == edge.model.prefix
                                     && edge.model == Snapshot(S).kids.Get(seg.typ)[i] && Good(edge.model)
                                     && (seg.typ == Static ==> edge.prefix != "" && edge.prefix[0] == search[0]))
    {
      hide Good;
      hide NextSegment;
      hide KeyIndex;
      hide GroupOk;
      hide AllOk;
      hide IndexOf;
      hide Front;
      hide SegmentKey;
      hide EdgeOk;
      hide EdgeKey;
      hide LocalOk;
      hide Snapshot;
      hide Linked;
      hide Models;
      var seg := STATIC_SEGMENT;
      if search[0] == '{' || search[0] == '*' {
        var result := PatNextSegment(search);
        FrontIs(search);
        if result.None? {
          return None, null, 0;
        }
        seg := result.value;
      }
      FrontIs(search);
      FrontKey(search, seg);
      FrontEdgeKey(search, seg);
      var prefix := if seg.typ == Regexp then seg.rexpat else "";
      EdgeReady(seg.typ, S);
      i := KeyIndex(Snapshot(S).kids.Get(seg.typ), SegmentKey(search, seg));
      edge := GetEdge(seg.typ, search[0], seg.tail, prefix, S, SegmentKey(search, seg));
      if edge != null {
        ChildAt(seg.typ, i, S);
        StaticText(edge.model, search[0]);
      }
      front := Some(seg);
    }

    static lemma FrontIs(search: string)
      requires search != ""
      ensures Front(search) == if search[0] == '{' || search[0] == '*' then NextSegment(search) else Some(STATIC_SEGMENT)
    {
      hide NextSegment;
    }

    /** The key that the front segment looks for, as get_edge looks for it. */
    static lemma FrontEdgeKey(search: string, seg: Segment)
      requires search != "" && Front(search) == Some(seg)
      ensures var key := SegmentKey(search, seg);
              match seg.typ
              case Static => key == Lit(search[0]) && seg.tail == NUL
              case Regexp => key == Rex(seg.rexpat, seg.tail) && search[0] == '{'
              case Param => key == Par(seg.tail) && search[0] == '{'
              case CatchAll => key == Star && search[0] == '*' && seg.tail == NUL
    {
      FrontKey(search, seg);
      hide NextSegment;
    }

    static lemma StaticText(k: Tree, c: char)
      requires EdgeOk(k)
      ensures k.typ == Static && EdgeKey(k) == Lit(c) ==> k.prefix != "" && k.prefix[0] == c
    {
    }

    /** The root is promised a new tree. */
    ghost method Promise(k: Tree, S: set<Node>)
      requires this in S && AllOk(S, {}) && parent == null
      modifies this`model
      ensures model == k && AllOk(S, {this}) && Linked(S) && Snapshot(S) == old(model)
    {
      assert LocalOk(S);
      model := k;
      AllKept(Scope(S, {this}), S);
      ShapesKept(Scope(S, {this}), S);
    }

    lemma Whole(S: set<Node>)
      requires AllOk(S, {this}) && Linked(S) && model == Snapshot(S)
      ensures AllOk(S, {})
    {
    }

    lemma StoredHere(route: Route, S: set<Node>)
      requires Stored(route, S)
      ensures this in S
    {
    }

    /** Nothing is left to be stored at this node. */
    lemma Complete(route: Route, S: set<Node>)
      requires AllOk(S, {this}) && Stored(route, S) && (route.subroutes.Some? ==> subroutes == route.subroutes)
      ensures AllOk(S, {})
    {
      Whole(S);
    }

    /** What mount does last: it records the mounted router. */
    method SetSubroutes(router: nat, ghost route: Route, ghost S: set<Node>)
      requires AllOk(S, {this}) && Stored(route, S) && route.subroutes == Some(router)
      modifies this`subroutes
      ensures AllOk(S, {})
    {
      subroutes := Some(router);
      AllKept(Scope(S, {this}), S);
      ModelsKept(children.statics);
      ModelsKept(children.regexps);
      ModelsKept(children.params);
      ModelsKept(children.catchAlls);
      Complete(route, S);
    }

    lemma StoreReady(t: Tree, r: Route, S: set<Node>)
      requires this in S && Linked(S) && t == Snapshot(S)
      requires model == t.(leaf := NewLeaf(t.leaf, r))
      ensures Promised(NewLeaf(Leaf(endpoints, subroutes), r), S)
    {
    }

    /**
     Registers a handler for a pattern. Null is a throw, after which nothing registered has
     changed. The returned node is the pattern's own; `promise` is the router that the
     caller is about to record on it.
     */
    method InsertRoute(verb: Method, pattern: string, handler: Option<Handler>, ghost promise: Option<nat>, ghost S: set<Node>)
      returns (r: Node?, ghost S': set<Node>)
      requires this in S && AllOk(S, {}) && Good(model) && parent == null && typ == Static
      modifies S
      ensures S <= S' && fresh(S' - S)
      ensures parent == null && typ == Static
      ensures var out := Insert(old(model), pattern, Route(verb, pattern, handler, promise));
              model == out.tree && (r != null <==> out.ok)
      ensures r == null ==> AllOk(S', {})
      ensures r != null ==> AllOk(S', {r}) && r.Stored(Route(verb, pattern, handler, promise), S')
    {
      hide Good;
      hide Insert;
      hide Front;
      hide Split;
      hide SetKid;
      hide Attach;
      hide KeyIndex;
      hide CommonPrefix;
      hide SplitOutcome;
      hide NewLeaf;
      hide Stored;
      hide SegmentKey;
      hide AllOk;
      hide Linked;
      hide Snapshot;
      hide Promised;
      ghost var route := Route(verb, pattern, handler, promise);
      var n, search := this, pattern;
      ghost var t, out := model, Insert(model, pattern, route);
      Promise(out.tree, S);
      while true
        invariant n in S && n.Linked(S) && t == n.Snapshot(S) && Good(t) && AllOk(S, {n})
        invariant n.parent != n && n.model == Insert(t, search, route).tree && Insert(t, search, route).ok == out.ok
        invariant model == out.tree && parent == null && typ == Static
        decreases |search|
      {
        if search == "" {
          InsertAtEnd(t, route);
          n.StoreReady(t, route, S);
          var ok := n.Store(verb, handler, pattern, promise, S);
          return if ok then n else null, S;
        }
        var front, edge, i := n.FrontEdge(search, S);
        if front.None? {
          InsertMalformed(t, search, route);
          n.Whole(S);
          return null, S;
        }
        var parent, seg := n, front.value;
        if edge == null {
          InsertNew(t, search, seg, route);
          r, S' := parent.AttachNew(search, seg.tail, verb, handler, pattern, promise, S);
          return;
        }
        n := edge;
        ghost var tk := n.model;
        if n.typ != Static {
          InsertPast(t, search, seg, seg.end, i, route);
          parent.Descend(seg.typ, i, n, Insert(tk, search[seg.end..], route).tree, S);
          t, search := tk, search[seg.end..];
          continue;
        }
        var common := LongestPrefix(search, n.prefix);
        CommonPositive(search, n.prefix);
        if common == |n.prefix| {
          InsertPast(t, search, seg, common, i, route);
          parent.Descend(Static, i, n, Insert(tk, search[common..], route).tree, S);
          t, search := tk, search[common..];
          continue;
        }
        InsertAtSplit(t, search, common, i, route);
        r, S' := parent.SplitAndStore(n, search, common, verb, handler, pattern, promise, i, tk, S);
        return;
      }
    }

    lemma EdgeReady(typ: NodeType, S: set<Node>)
      requires this in S && AllOk(S, {this}) && Linked(S) && Good(Snapshot(S)) && parent != this
      ensures Snapshot(S).kids.Get(typ) == Models(children.Get(typ)) && GroupOk(Models(children.Get(typ)), typ)
      ensures forall j :: 0 <= j < |children.Get(typ)| ==> children.Get(typ)[j] in S && children.Get(typ)[j].LocalOk(S)
    {
      assert Snapshot(S).kids.Get(typ) == Models(children.Get(typ));
      forall j | 0 <= j < |children.Get(typ)|
        ensures children.Get(typ)[j] in S && children.Get(typ)[j].LocalOk(S)
      {
        ChildAt(typ, j, S);
      }
    }

    // -------------------------------------------------------------- search

    predicate IsLeaf()
      reads this
    {
      endpoints != map[]
    }

    /** What the search knows of a child. */
    lemma ChildFields(typ: NodeType, i: nat, S: set<Node>)
      requires this in S && AllOk(S, {}) && Good(model) && i < |children.Get(typ)|
      ensures |model.kids.Get(typ)| == |children.Get(typ)|
      ensures var c := children.Get(typ)[i];
              && c in S && c.model == model.kids.Get(typ)[i] && Good(c.model) && EdgeOk(c.model)
              && c.typ == typ && c.head == c.model.head && c.tail == c.model.tail && c.prefix == c.model.prefix
              && c.rex == c.model.rex && c.endpoints == c.model.leaf.endpoints && c.model.typ == typ
    {
      assert LocalOk(S) && Hanging(children.Get(typ), S);
      KidGood(model, typ, i);
      assert children.Get(typ)[i].LocalOk(S);
    }

    /** Has the search found a handler here, or below? */
    method {:induction false} Visit(rctx: RoutingContext, verb: Method, rest: string, rx: Matcher, ghost S: set<Node>)
      returns (fin: Node?)
      requires this in S && AllOk(S, {}) && Good(model)
      modifies rctx`routeParams, rctx`methodNotAllowed
      ensures fin != null ==> fin in S
      ensures Reports(Arrive(model, rest, rx), verb, old(MarksOf(rctx)), LeafOf(fin), MarksOf(rctx))
      decreases model, 4
    {
      hide Reports;
      assert LocalOk(S);
      ghost var before := MarksOf(rctx);
      if rest == "" && IsLeaf() {
        if verb in endpoints && endpoints[verb].handler.Some? {
          ArrivesHere(model, rx, verb, before);
          rctx.routeParams := rctx.routeParams.(keys := rctx.routeParams.keys + endpoints[verb].paramKeys);
          return this;
        }
        rctx.methodNotAllowed := true;
      }
      fin := FindRouteHelper(rctx, verb, rest, rx, S);
      ArrivesBelow(model, rest, rx, verb, before, LeafOf(fin), MarksOf(rctx));
    }

    /** A static group: at most one child continues the path. */
    method {:induction false} SearchStatic(rctx: RoutingContext, verb: Method, path: string, rx: Matcher, ghost S: set<Node>)
      returns (fin: Node?)
      requires this in S && AllOk(S, {}) && Good(model) && children.statics != []
      modifies rctx`routeParams, rctx`methodNotAllowed
      ensures fin != null ==> fin in S
      ensures Reports(StaticHits(model, path, rx), verb, old(MarksOf(rctx)), LeafOf(fin), MarksOf(rctx))
      decreases model, 0
    {
      hide Reports;
      ghost var before := MarksOf(rctx);
      StaticReady(S);
      var xn, i := NodesFindEdge(FirstChar(path), children.statics);
      StaticFound(FirstChar(path), i, S);
      if xn != null {
        ChildFields(Static, i, S);
      }
      if xn == null || !(xn.prefix <= path) {
        ReportsNothing(verb, before);
        return null;
      }
      var xsearch := path[|xn.prefix|..];
      fin := xn.Visit(rctx, verb, xsearch, rx, S);
      NoValues(before, Arrive(xn.model, xsearch, rx), Lits(xn.prefix), verb, LeafOf(fin), MarksOf(rctx));
    }

    lemma StaticReady(S: set<Node>)
      requires this in S && AllOk(S, {}) && Good(model)
      ensures forall a, b :: 0 <= a < b < |children.statics| ==> children.statics[a].head < children.statics[b].head
    {
      assert LocalOk(S) && Hanging(children.statics, S);
      assert model.kids.Get(Static) == Models(children.statics);
      assert GroupOk(model.kids.Get(Static), Static);
      forall i | 0 <= i < |children.statics|
        ensures Shown(children.statics[i])
      {
        assert children.statics[i].LocalOk(S);
      }
      StaticLabels(children.statics);
    }

    lemma StaticFound(c: char, i: nat, S: set<Node>)
      requires this in S && AllOk(S, {}) && Good(model)
      requires i <= |children.statics| && (i < |children.statics| ==> children.statics[i].head == c)
      requires i == |children.statics| ==> forall a :: 0 <= a < |children.statics| ==> children.statics[a].head != c
      ensures |model.kids.statics| == |children.statics| && i == KeyIndex(model.kids.statics, Lit(c))
    {
      StaticReady(S);
      assert LocalOk(S);
      forall j | 0 <= j < |children.statics|
        ensures EdgeKey(model.kids.statics[j]) == Lit(children.statics[j].head)
      {
        ChildFields(Static, j, S);
      }
      var k := KeyIndex(model.kids.statics, Lit(c));
      assert k < |children.statics| ==> children.statics[k].head == c;
    }

    /** A group of parameters or regexps: each in turn, then the last one with an empty value. */
    method {:induction false} SearchWild(typ: NodeType, rctx: RoutingContext, verb: Method, path: string, rx: Matcher, ghost S: set<Node>)
      returns (fin: Node?)
      requires this in S && AllOk(S, {}) && Good(model) && typ in {Regexp, Param} && children.Get(typ) != []
      modifies rctx`routeParams, rctx`methodNotAllowed
      ensures fin != null ==> fin in S
      ensures Reports(WildHits(model, typ, path, rx), verb, old(MarksOf(rctx)), LeafOf(fin), MarksOf(rctx))
      decreases model, 1
    {
      hide Reports;
      hide KidHits;
      hide Hits;
      hide Good;
      var nds := children.Get(typ);
      ghost var before := MarksOf(rctx);
      ChildFields(typ, 0, S);
      if path == "" {
        ReportsNothing(verb, before);
        return null;
      }
      ReportsNothing(verb, before);
      for j := 0 to |nds|
        invariant Reports(EachHits(model, typ, j, path, rx), verb, before, None, MarksOf(rctx))
      {
        ghost var middle := MarksOf(rctx);
        fin := SearchKid(typ, j, rctx, verb, path, rx, S);
        ReportsNext(EachHits(model, typ, j, path, rx), KidHits(model, typ, j, path, rx), verb, before, middle, LeafOf(fin), MarksOf(rctx));
        if fin != null {
          EachFound(model, typ, j + 1, |nds|, path, rx, verb, before, LeafOf(fin), MarksOf(rctx));
          ReportsFound(EachHits(model, typ, |nds|, path, rx), FallbackHits(model, typ, path, rx), verb, before, LeafOf(fin), MarksOf(rctx));
          return;
        }
      }
      ghost var middle := MarksOf(rctx);
      fin := SearchFallback(typ, rctx, verb, path, rx, S);
      ReportsNext(EachHits(model, typ, |nds|, path, rx), FallbackHits(model, typ, path, rx), verb, before, middle, LeafOf(fin), MarksOf(rctx));
    }

    /** One turn of the loop over a group: capture, look there, and forget the capture if nothing is found. */
    method {:induction false} SearchKid(typ: NodeType, j: nat, rctx: RoutingContext, verb: Method, path: string, rx: Matcher, ghost S: set<Node>)
      returns (fin: Node?)
      requires this in S && AllOk(S, {}) && Good(model) && typ in {Regexp, Param}
      requires j < |children.Get(typ)| && j < |model.kids.Get(typ)| && path != ""
      modifies rctx`routeParams, rctx`methodNotAllowed
      ensures fin != null ==> fin in S
      ensures Reports(KidHits(model, typ, j, path, rx), verb, old(MarksOf(rctx)), LeafOf(fin), MarksOf(rctx))
      decreases model, 0
    {
      hide Reports;
      hide Arrive;
      hide Good;
      ghost var before := MarksOf(rctx);
      ChildFields(typ, j, S);
      var xn := children.Get(typ)[j];
      fin := null;
      ReportsNothing(verb, before);
      var p := IndexOf(path, xn.tail);
      if p < 0 {
        if xn.tail != '/' {
          return;
        }
        p := |path|;
      } else if typ == Regexp && p == 0 {
        return;
      }
      if typ == Regexp && xn.rex.Some? {
        if !rx(xn.rex.value, path[..p]) {
          return;
        }
      } else if '/' in path[..p] {
        return;
      }
      assert Capture(xn.model, path, rx) == Some(p);
      var prevlen := |rctx.routeParams.values|;
      rctx.routeParams := rctx.routeParams.Push(path[..p]);
      assert before.params.keys + [] == before.params.keys;
      fin := xn.Visit(rctx, verb, path[p..], rx, S);
      ReportsThrough([EdgeKey(xn.model)], [path[..p]], Arrive(xn.model, path[p..], rx), verb, before, LeafOf(fin), MarksOf(rctx));
      if fin == null {
        ReportsRestored(Arrive(xn.model, path[p..], rx), verb, Marks(before.params.Plus(RouteParams([], [path[..p]])), before.hint), MarksOf(rctx));
        rctx.routeParams := rctx.routeParams.(values := rctx.routeParams.values[..prevlen]);
      }
    }

    /** The last node of the group once more, with an empty value and the whole path still to go. */
    method {:induction false} SearchFallback(typ: NodeType, rctx: RoutingContext, verb: Method, path: string, rx: Matcher, ghost S: set<Node>)
      returns (fin: Node?)
      requires this in S && AllOk(S, {}) && Good(model) && typ in {Regexp, Param} && children.Get(typ) != []
      requires model.kids.Get(typ) != []
      modifies rctx`routeParams, rctx`methodNotAllowed
      ensures fin != null ==> fin in S
      ensures Reports(FallbackHits(model, typ, path, rx), verb, old(MarksOf(rctx)), LeafOf(fin), MarksOf(rctx))
      decreases model, 0
    {
      hide Reports;
      hide Hits;
      hide Good;
      ghost var before := MarksOf(rctx);
      var xn := children.Get(typ)[|children.Get(typ)| - 1];
      ChildFields(typ, |children.Get(typ)| - 1, S);
      rctx.routeParams := rctx.routeParams.Push("");
      assert before.params.keys + [] == before.params.keys;
      fin := xn.FindRouteHelper(rctx, verb, path, rx, S);
      ReportsThrough([EdgeKey(xn.model)], [""], Hits(xn.model, path, rx), verb, before, LeafOf(fin), MarksOf(rctx));
      if fin == null {
        ReportsRestored(Hits(xn.model, path, rx), verb, Marks(before.params.Plus(RouteParams([], [""])), before.hint), MarksOf(rctx));
        Pop(rctx);
      }
    }

    /** A catch-all takes all of the path, even an empty one. */
    method {:induction false} SearchCatchAll(rctx: RoutingContext, verb: Method, path: string, rx: Matcher, ghost S: set<Node>)
      returns (fin: Node?)
      requires this in S && AllOk(S, {}) && Good(model) && children.catchAlls != []
      modifies rctx`routeParams, rctx`methodNotAllowed
      ensures fin != null ==> fin in S
      ensures Reports(CatchAllHits(model, path, rx), verb, old(MarksOf(rctx)), LeafOf(fin), MarksOf(rctx))
      decreases model, 0
    {
      hide Reports;
      hide Arrive;
      hide Good;
      ghost var before := MarksOf(rctx);
      var xn := children.catchAlls[0];
      ChildFields(CatchAll, 0, S);
      rctx.routeParams := rctx.routeParams.Push(path);
      assert before.params.keys + [] == before.params.keys;
      fin := xn.Visit(rctx, verb, "", rx, S);
      ReportsThrough([Star], [path], Arrive(xn.model, "", rx), verb, before, LeafOf(fin), MarksOf(rctx));
      if fin == null {
        ReportsRestored(Arrive(xn.model, "", rx), verb, Marks(before.params.Plus(RouteParams([], [path])), before.hint), MarksOf(rctx));
        Pop(rctx);
      }
    }

    /**
     Searches below this node for a handler of the method for `path`. It returns the first
     hit in search order, and reports on it; see SearchReport.Reports.
     */
    method {:induction false} FindRouteHelper(rctx: RoutingContext, verb: Method, path: string, rx: Matcher, ghost S: set<Node>)
      returns (fin: Node?)
      requires this in S && AllOk(S, {}) && Good(model)
      modifies rctx`routeParams, rctx`methodNotAllowed
      ensures fin != null ==> fin in S
      ensures Reports(Hits(model, path, rx), verb, old(MarksOf(rctx)), LeafOf(fin), MarksOf(rctx))
      decreases model, 3
    {
      hide Reports;
      hide Hits;
      hide Good;
      hide StaticHits;
      hide CatchAllHits;
      fin := null;
      ghost var before := MarksOf(rctx);
      ReportsNothing(verb, before);
      HitsUpToAll(model, path, rx);
      for i := 0 to 4
        invariant fin == null && Reports(HitsUpTo(model, i, path, rx), verb, before, None, MarksOf(rctx))
      {
        var ntyp := TYPES[i];
        ghost var middle := MarksOf(rctx);
        if children.Get(ntyp) == [] {
          EmptyGroup(ntyp, path, rx, S);
          ReportsNothing(verb, middle);
        } else {
          match ntyp {
            case Static => fin := SearchStatic(rctx, verb, path, rx, S);
            case CatchAll => fin := SearchCatchAll(rctx, verb, path, rx, S);
            case _ => fin := SearchWild(ntyp, rctx, verb, path, rx, S);
          }
        }
        ReportsNext(HitsUpTo(model, i, path, rx), GroupHits(model, ntyp, path, rx), verb, before, middle, LeafOf(fin), MarksOf(rctx));
        if fin != null {
          GroupsFound(model, i + 1, 4, path, rx, verb, before, LeafOf(fin), MarksOf(rctx));
          return;
        }
      }
    }

    /**
     Searches from the root, with fresh route parameters. What is found is recorded in the
     context: its parameters on top of the URL parameters, and its pattern if not empty.
     */
    method FindRoute(rctx: RoutingContext, verb: Method, path: string, rx: Matcher, ghost S: set<Node>)
      returns (node: Node?, handler: Option<Handler>)
      requires this in S && AllOk(S, {}) && Good(model)
      modifies rctx`routePattern, rctx`routeParams, rctx`urlParams, rctx`routePatterns, rctx`methodNotAllowed
      ensures node != null ==> node in S
      ensures Reports(Hits(model, path, rx), verb, Marks(NO_PARAMS, old(rctx.methodNotAllowed)), LeafOf(node), MarksOf(rctx))
      ensures node == null ==>
                && handler == None && rctx.routePattern == ""
                && rctx.urlParams == old(rctx.urlParams) && rctx.routePatterns == old(rctx.routePatterns)
      ensures node != null ==>
                && Serves(node.model.leaf.endpoints, verb) && handler == node.model.leaf.endpoints[verb].handler
                && rctx.urlParams == old(rctx.urlParams).Plus(rctx.routeParams)
                && rctx.routePattern == node.model.leaf.endpoints[verb].pattern
                && rctx.routePatterns == old(rctx.routePatterns)
                                         + (if rctx.routePattern == "" then [] else [rctx.routePattern])
    {
      hide Reports;
      hide Hits;
      hide Good;
      rctx.routePattern := "";
      rctx.routeParams := NO_PARAMS;
      node := FindRouteHelper(rctx, verb, path, rx, S);
      if node == null {
        return null, None;
      }
      ReportsServes(Hits(model, path, rx), verb, Marks(NO_PARAMS, old(rctx.methodNotAllowed)), LeafOf(node), MarksOf(rctx));
      node.OwnEndpoints(S);
      hide AllOk;
      rctx.urlParams := rctx.urlParams.Plus(rctx.routeParams);
      var eps := node.endpoints[verb];
      if eps.pattern != "" {
        rctx.routePattern := eps.pattern;
        rctx.routePatterns := rctx.routePatterns + [rctx.routePattern];
      }
      handler := eps.handler;
    }

    lemma OwnEndpoints(S: set<Node>)
      requires this in S && AllOk(S, {})
      ensures endpoints == model.leaf.endpoints
    {
      assert LocalOk(S);
    }

    lemma OwnLeaf(S: set<Node>)
      requires this in S && AllOk(S, {})
      ensures Leaf(endpoints, subroutes) == model.leaf
    {
      assert LocalOk(S);
    }

    lemma EmptyGroup(typ: NodeType, path: string, rx: Matcher, S: set<Node>)
      requires this in S && AllOk(S, {}) && children.Get(typ) == []
      ensures GroupHits(model, typ, path, rx) == []
    {
      EmptyModels(typ, S);
    }

    // --------------------------------------------------- looking up a pattern

    /** The child of a non-empty group that a label leads to, by binary search; the first catch-all, whatever the label. */
    method FindEdge(ntyp: NodeType, lead: char, ghost S: set<Node>) returns (edge: Node?, ghost i: nat)
      requires this in S && AllOk(S, {}) && Good(model) && children.Get(ntyp) != []
      ensures |model.kids.Get(ntyp)| == |children.Get(ntyp)|
      ensures match EdgeByLabel(model.kids.Get(ntyp), ntyp, lead)
              case None => edge == null
              case Some(k) => i == k && edge == children.Get(ntyp)[i]
    {
      hide Good;
      var nds := children.Get(ntyp);
      ChildFields(ntyp, 0, S);
      if ntyp == CatchAll {
        return nds[0], 0;
      }
      if ntyp == Static {
        StaticReady(S);
        edge, i := NodesFindEdge(lead, nds);
        StaticFound(lead, i, S);
        return;
      }
      forall j | 0 <= j < |nds|
        ensures nds[j].head == '{'
      {
        ChildFields(ntyp, j, S);
      }
      var num, idx := |nds|, 0;
      var lo, hi := 0, num - 1;
      while lo <= hi
        invariant 0 <= lo && -1 <= hi < num && 0 <= idx < num
        invariant lead == '{' ==> if lo == 0 then hi == num - 1 else lo == num && idx == (num - 1) / 2
        invariant lead == '{' ==> lo == 0 || lo == num
        decreases hi - lo
      {
        idx := lo + (hi - lo) / 2;
        if lead > nds[idx].head {
          lo := idx + 1;
        } else if lead < nds[idx].head {
          hi := idx - 1;
        } else {
          lo := num;
        }
      }
      if nds[idx].head != lead {
        return null, 0;
      }
      return nds[idx], idx;
    }

    /** Is there a node for this pattern? */
    method {:induction false} FindPattern(pattern: string, ghost S: set<Node>) returns (found: bool)
      requires this in S && AllOk(S, {}) && Good(model) && pattern != ""
      ensures found == TrieLookup.FindPattern(model, pattern)
      decreases model
    {
      hide Good;
      hide EdgeOk;
      hide AllOk;
      hide CommonPrefix;
      hide IndexOf;
      hide EdgeByLabel;
      for g := 0 to 4
        invariant TrieLookup.FindPattern(model, pattern) == FindPatternFrom(model, g, pattern)
      {
        var nds := children.Get(TYPES[g]);
        if nds == [] {
          EmptyModels(TYPES[g], S);
          continue;
        }
        var n, i := FindEdge(TYPES[g], pattern[0], S);
        if n == null {
          continue;
        }
        ChildFields(TYPES[g], i, S);
        var idx := 0;
        match n.typ {
          case Static =>
            idx := LongestPrefix(pattern, n.prefix);
            if idx < |n.prefix| {
              continue;
            }
          case CatchAll =>
            idx := LongestPrefix(pattern, "*");
          case _ =>
            idx := IndexOf(pattern, '}') + 1;
        }
        var xpattern := pattern[idx..];
        if xpattern == "" {
          return true;
        }
        found := n.FindPattern(xpattern, S);
        return;
      }
      return false;
    }

    lemma EmptyModels(typ: NodeType, S: set<Node>)
      requires this in S && AllOk(S, {}) && children.Get(typ) == []
      ensures model.kids.Get(typ) == []
    {
      assert LocalOk(S);
    }
  }

  /** Drops the last captured value. */
  method Pop(rctx: RoutingContext)
    modifies rctx`routeParams
    ensures rctx.routeParams.keys == old(rctx.routeParams.keys)
    ensures old(rctx.routeParams.values) != [] ==>
              rctx.routeParams.values == old(rctx.routeParams.values)[..|old(rctx.routeParams.values)| - 1]
  {
    var values := rctx.routeParams.values;
    if values != [] {
      rctx.routeParams := rctx.routeParams.(values := values[..|values| - 1]);
    }
  }

  ghost function MarksOf(rctx: RoutingContext): Marks
    reads rctx
  {
    Marks(rctx.routeParams, rctx.methodNotAllowed)
  }

  ghost function LeafOf(n: Node?): Option<Leaf>
    reads n
  {
    if n == null then None else Some(n.model.leaf)
  }

  /** A search through a static edge, which captures nothing. */
  lemma NoValues(before: Marks, hits: seq<Hit>, toks: seq<Token>, m: Method, found: Option<Leaf>, after: Marks)
    requires Reports(hits, m, before, found, after)
    ensures Reports(Through(toks, [], hits), m, before, found, after)
  {
    hide FirstServing;
    assert before.params.Plus(RouteParams([], [])) == before.params by {
      assert before.params.keys + [] == before.params.keys && before.params.values + [] == before.params.values;
    }
    ReportsThrough(toks, [], hits, m, before, found, after);
  }

  /** Every node of the trie except those in `X` stands for its model. */
  ghost predicate AllOk(S: set<Node>, X: set<Node>)
    reads S
  {
    forall n: Node {:trigger n.LocalOk(S)} :: n in S && n !in X ==> n.LocalOk(S)
  }

  twostate predicate Same(x: Node)
    reads x
  {
    && x.typ == old(x.typ) && x.head == old(x.head) && x.tail == old(x.tail) && x.prefix == old(x.prefix)
    && x.rex == old(x.rex) && x.endpoints == old(x.endpoints) && x.subroutes == old(x.subroutes)
    && x.children == old(x.children)
  }

  twostate predicate Hung(c: Node)
    reads c
  {
    c.parent == old(c.parent) && c.model == old(c.model)
  }

  twostate lemma ModelsKept(ns: seq<Node>)
    requires forall i :: 0 <= i < |ns| ==> ns[i].model == old(ns[i].model)
    ensures Models(ns) == old(Models(ns))
  {
  }

  /** Position of the first node with this label and tail, or |nodes|. */
  ghost function FirstPlace(nodes: seq<Node>, lead: char, tail: char): (i: nat)
    reads nodes
    ensures i <= |nodes|
    ensures i < |nodes| ==> nodes[i].head == lead && nodes[i].tail == tail
    ensures forall j :: 0 <= j < i ==> nodes[j].head != lead || nodes[j].tail != tail
  {
    if nodes == [] then 0
    else if nodes[0].head == lead && nodes[0].tail == tail then 0
    else 1 + FirstPlace(nodes[1..], lead, tail)
  }

  lemma FirstPlaceIs(nodes: seq<Node>, lead: char, tail: char, i: nat)
    requires i < |nodes| && nodes[i].head == lead && nodes[i].tail == tail
    requires forall j :: 0 <= j < i ==> nodes[j].head != lead
    ensures FirstPlace(nodes, lead, tail) == i
  {
  }

  method LongestPrefix(k1: string, k2: string) returns (n: nat)
    ensures n == CommonPrefix(k1, k2)
  {
    var max := if |k2| < |k1| then |k2| else |k1|;
    n := 0;
    while n < max && k1[n] == k2[n]
      invariant n <= max && k1[..n] == k2[..n]
    {
      n := n + 1;
    }
    CommonPrefixIs(k1, k2, n);
  }

  lemma {:induction false} CommonPrefixIs(a: string, b: string, n: nat)
    requires n <= |a| && n <= |b| && a[..n] == b[..n]
    requires n < |a| && n < |b| ==> a[n] != b[n]
    ensures CommonPrefix(a, b) == n
  {
  }

  /** Binary search for a label in a static group. */
  method NodesFindEdge(lead: char, nodes: seq<Node>) returns (r: Node?, ghost i: nat)
    requires nodes != []
    requires forall a, b :: 0 <= a < b < |nodes| ==> nodes[a].head < nodes[b].head
    ensures i <= |nodes| && (i < |nodes| ==> r == nodes[i] && nodes[i].head == lead)
    ensures i == |nodes| ==> r == null && forall a :: 0 <= a < |nodes| ==> nodes[a].head != lead
  {
    var num, idx := |nodes|, 0;
    var lo, hi := 0, num - 1;
    while lo <= hi
      invariant 0 <= lo && -1 <= hi < num && 0 <= idx < num
      invariant (lo == num && nodes[idx].head == lead)
                || (forall a :: 0 <= a < num && nodes[a].head == lead ==> lo <= a <= hi)
      decreases hi - lo
    {
      idx := lo + (hi - lo) / 2;
      if lead > nodes[idx].head {
        lo := idx + 1;
      } else if lead < nodes[idx].head {
        hi := idx - 1;
      } else {
        lo := num;
      }
    }
    if nodes[idx].head != lead {
      return null, num;
    }
    return nodes[idx], idx;
  }

  /** The nodes of a trie, and some of them. */
  datatype Scope = Scope(nodes: set<Node>, some: set<Node>)

  /** Nodes whose own fields have not changed, and whose children hang and stand as before, make up the same trees. */
  twostate lemma ShapesKept(scope: Scope, new S': set<Node>)
    requires scope.some <= scope.nodes <= S'
    requires forall x <- scope.some :: Same(x)
    requires forall c <- scope.nodes :: old(c.parent) != null && old(c.parent) in scope.some ==> Hung(c)
    ensures forall x: Node {:trigger x.Snapshot(S')} {:trigger x.Linked(S')} ::
              x in scope.some && old(x.Linked(scope.nodes)) ==>
                x.Linked(S') && x.Snapshot(S') == old(x.Snapshot(scope.nodes))
  {
    forall x <- scope.some | old(x.Linked(scope.nodes))
      ensures x.Linked(S') && x.Snapshot(S') == old(x.Snapshot(scope.nodes))
    {
      ModelsKept(x.children.statics);
      ModelsKept(x.children.regexps);
      ModelsKept(x.children.params);
      ModelsKept(x.children.catchAlls);
    }
  }

  /** Changes confined to loose nodes and to the models of nodes hanging from them. */
  twostate lemma AllKept(scope: Scope, new S': set<Node>)
    requires old(AllOk(scope.nodes, scope.some)) && scope.nodes <= S'
    requires forall x <- scope.nodes :: x !in scope.some ==> Same(x) && x.model == old(x.model)
    requires forall c <- scope.nodes ::
               old(c.parent) != null && old(c.parent) in scope.nodes && old(c.parent) !in scope.some ==> Hung(c)
    ensures forall x: Node {:trigger x.LocalOk(S')} :: x in scope.nodes && x !in scope.some ==> x.LocalOk(S')
  {
    ShapesKept(Scope(scope.nodes, scope.nodes - scope.some), S');
    forall x <- scope.nodes | x !in scope.some
      ensures x.LocalOk(S')
    {
      assert old(x.LocalOk(scope.nodes));
      assert x in scope.nodes - scope.some;
    }
  }

  /** A node and the nodes of its trie. */
  datatype Spot = Spot(node: Node, nodes: set<Node>)

  /** Only the model of one child has changed. */
  twostate lemma ChildReplaced(spot: Spot, new typ: NodeType, new i: nat)
    requires spot.node in spot.nodes && old(spot.node.Linked(spot.nodes)) && Same(spot.node) && i < |spot.node.children.Get(typ)|
    requires forall x <- spot.nodes ::
               x.parent == old(x.parent) && (x != spot.node.children.Get(typ)[i] ==> x.model == old(x.model))
    requires forall other: NodeType, j ::
               0 <= j < |spot.node.children.Get(other)| && (other != typ || j != i) ==>
                 spot.node.children.Get(other)[j] != spot.node.children.Get(typ)[i]
    ensures spot.node.Linked(spot.nodes)
    ensures spot.node.Snapshot(spot.nodes)
         == SetKid(old(spot.node.Snapshot(spot.nodes)), typ, i, spot.node.children.Get(typ)[i].model)
  {
    var n, S := spot.node, spot.nodes;
    var before := old(n.Snapshot(S));
    forall other: NodeType
      ensures before.kids.Get(other) == old(Models(n.children.Get(other))) && n.Hanging(n.children.Get(other), S)
    {
    }
    n.OneModelChanged(typ, i, n.children.Get(typ)[i], before, S);
  }

  /** Another node has taken the place of a static child. */
  twostate lemma ChildSwapped(spot: Spot, new child: Node, new i: nat)
    requires spot.node in spot.nodes && old(spot.node.Linked(spot.nodes)) && i < |old(spot.node.children.statics)|
    requires var n := spot.node;
             && n.typ == old(n.typ) && n.head == old(n.head) && n.tail == old(n.tail) && n.prefix == old(n.prefix)
             && n.rex == old(n.rex) && n.endpoints == old(n.endpoints) && n.subroutes == old(n.subroutes)
             && n.children == old(n.children).Put(Static, old(n.children.statics)[i := child])
             && child.parent == n
    requires forall x <- spot.nodes :: x != old(spot.node.children.statics[i]) ==> x.parent == old(x.parent) && x.model == old(x.model)
    requires var n := spot.node; var k := old(n.children.statics[i]);
             && (forall j :: 0 <= j < |old(n.children.statics)| && j != i ==> old(n.children.statics[j]) != k)
             && (forall j :: 0 <= j < |n.children.regexps| ==> n.children.regexps[j] != k)
             && (forall j :: 0 <= j < |n.children.params| ==> n.children.params[j] != k)
             && (forall j :: 0 <= j < |n.children.catchAlls| ==> n.children.catchAlls[j] != k)
    ensures var S' := spot.nodes + {child};
            && spot.node.Linked(S')
            && spot.node.Snapshot(S') == SetKid(old(spot.node.Snapshot(spot.nodes)), Static, i, child.model)
  {
    var n, S' := spot.node, spot.nodes + {child};
    var before := old(n.Snapshot(spot.nodes));
    assert n.Linked(S');
    assert Models(n.children.statics) == before.kids.statics[i := child.model];
    assert Models(n.children.regexps) == before.kids.regexps;
    assert Models(n.children.params) == before.kids.params;
    assert Models(n.children.catchAlls) == before.kids.catchAlls;
  }

  ghost predicate Shown(n: Node)
    reads n
  {
    n.model.typ == n.typ && n.model.head == n.head && n.model.tail == n.tail
  }

  lemma ShownIf(n: Node)
    requires n.model.typ == n.typ && n.model.head == n.head && n.model.tail == n.tail
    ensures Shown(n)
  {
  }

  /** The nodes of a vector that are not null. */
  function NonNull(nodes: seq<Node?>): (r: seq<Node>)
    ensures forall n <- r :: n in nodes
    ensures forall n <- nodes :: n != null ==> n in r
  {
    if nodes == [] then []
    else
      var n := nodes[|nodes| - 1];
      NonNull(nodes[..|nodes| - 1]) + if n == null then [] else [n]
  }

  lemma {:induction false} NonNullAll(nodes: seq<Node>)
    ensures NonNull(nodes) == nodes
  {
    if nodes != [] {
      NonNullAll(nodes[..|nodes| - 1]);
      assert nodes == nodes[..|nodes| - 1] + [nodes[|nodes| - 1]];
    }
  }

  lemma {:induction false} InsertPlace(ks: seq<Tree>, k: Tree, j: nat)
    requires j <= |ks| && forall l :: j <= l < |ks| ==> ks[l].head > k.head
    requires j > 0 ==> ks[j - 1].head <= k.head
    ensures InsertByLabel(ks, k) == ks[..j] + [k] + ks[j..]
  {
    if j < |ks| {
      var front := ks[..|ks| - 1];
      InsertPlace(front, k, j);
      assert front[..j] == ks[..j];
      assert front[j..] + [ks[|ks| - 1]] == ks[j..];
    } else {
      assert ks[..j] == ks && ks[j..] == [];
    }
  }

  lemma ModelsInsert(ns: seq<Node>, x: Node, j: nat)
    requires j <= |ns|
    ensures Models(ns[..j] + [x] + ns[j..]) == Models(ns)[..j] + [x.model] + Models(ns)[j..]
    ensures multiset(ns[..j] + [x] + ns[j..]) == multiset(ns) + multiset{x}
    ensures forall n :: n in ns[..j] + [x] + ns[j..] <==> n in ns || n == x
  {
    assert ns == ns[..j] + ns[j..];
  }

  /** One step of the insertion sort. */
  method InsertNode(sorted: seq<Node>, x: Node) returns (out: seq<Node>)
    requires Shown(x) && forall n <- sorted :: Shown(n)
    ensures Models(out) == InsertByLabel(Models(sorted), x.model)
    ensures multiset(out) == multiset(sorted) + multiset{x}
    ensures forall n :: n in out <==> n in sorted || n == x
  {
    var j := |sorted|;
    while j > 0 && sorted[j - 1].head > x.head
      invariant 0 <= j <= |sorted|
      invariant forall l :: j <= l < |sorted| ==> sorted[l].head > x.head
    {
      j := j - 1;
    }
    out := sorted[..j] + [x] + sorted[j..];
    ghost var ks := Models(sorted);
    forall l | 0 <= l < |sorted|
      ensures ks[l].head == sorted[l].head
    {
      assert Shown(sorted[l]);
    }
    InsertPlace(ks, x.model, j);
    ModelsInsert(sorted, x, j);
  }

  lemma SortStep(nodes: seq<Node>, i: nat)
    requires i < |nodes|
    ensures SortByLabel(Models(nodes[..i + 1])) == InsertByLabel(SortByLabel(Models(nodes[..i])), nodes[i].model)
    ensures multiset(nodes[..i + 1]) == multiset(nodes[..i]) + multiset{nodes[i]}
    ensures forall n :: n in nodes[..i + 1] <==> n in nodes[..i] || n == nodes[i]
  {
    hide InsertByLabel;
    assert nodes[..i + 1] == nodes[..i] + [nodes[i]];
    assert Models(nodes[..i + 1])[..i] == Models(nodes[..i]);
  }

  lemma SortNone()
    ensures Models([]) == SortByLabel(Models([]))
  {
  }

  /** `std::sort` by label, here an insertion sort. */
  method SortNodes(nodes: seq<Node>) returns (out: seq<Node>)
    requires forall n <- nodes :: Shown(n)
    ensures Models(out) == SortByLabel(Models(nodes)) && multiset(out) == multiset(nodes)
    ensures forall n :: n in out <==> n in nodes
  {
    hide InsertByLabel;
    hide SortByLabel;
    hide Models;
    hide Shown;
    out := [];
    SortNone();
    assert nodes[..0] == [];
    for i := 0 to |nodes|
      invariant Models(out) == SortByLabel(Models(nodes[..i])) && multiset(out) == multiset(nodes[..i])
      invariant forall n :: n in out <==> n in nodes[..i]
    {
      SortStep(nodes, i);
      assert forall n <- nodes[..i] :: n in nodes;
      out := InsertNode(out, nodes[i]);
    }
    assert nodes[..|nodes|] == nodes;
  }

  lemma SwapLastMembers(a: seq<Node>, j: nat)
    requires j < |a|
    ensures multiset(SwapLast(a, j)) == multiset(a)
    ensures forall n :: n in SwapLast(a, j) <==> n in a
    ensures Models(SwapLast(a, j)) == SwapLast(Models(a), j)
  {
    SwapLastPermutes(a, j);
    assert forall n :: n in SwapLast(a, j) <==> n in multiset(SwapLast(a, j));
    assert forall n :: n in a <==> n in multiset(a);
  }

  /** The tail sort: a reverse walk that swaps `/`-tailed wild nodes with the last node. */
  method SwapTails(nodes: seq<Node>) returns (out: seq<Node>)
    requires forall n <- nodes :: Shown(n)
    ensures Models(out) == TailSort(Models(nodes), |nodes|) && multiset(out) == multiset(nodes)
    ensures forall n :: n in out <==> n in nodes
  {
    hide Models;
    hide Shown;
    hide TailSort;
    hide SwapLast;
    out := nodes;
    var j := |out|;
    while j > 0
      invariant 0 <= j <= |out| == |nodes|
      invariant TailSort(Models(out), j) == TailSort(Models(nodes), |nodes|) && multiset(out) == multiset(nodes)
      invariant forall n :: n in out <==> n in nodes
    {
      j := j - 1;
      assert out[j] in nodes;
      SwapStep(out, j);
      if |out| > 1 && out[j].typ != Static && out[j].tail == '/' {
        out := SwapLast(out, j);
      }
    }
    TailSortNone(Models(out));
  }

  lemma TailSortNone(ks: seq<Tree>)
    ensures TailSort(ks, 0) == ks
  {
  }

  lemma SwapStep(out: seq<Node>, j: nat)
    requires j < |out| && Shown(out[j])
    ensures var next := if |out| > 1 && out[j].typ != Static && out[j].tail == '/' then SwapLast(out, j) else out;
            && |next| == |out| && multiset(next) == multiset(out) && (forall n :: n in next <==> n in out)
            && TailSort(Models(next), j) == TailSort(Models(out), j + 1)
  {
    SwapLastMembers(out, j);
  }

  /** Drops null entries, sorts by label, and puts a `/`-tailed wild node last. */
  method NodesSort(nodes: seq<Node?>) returns (out: seq<Node>)
    requires forall n <- NonNull(nodes) :: Shown(n)
    ensures Models(out) == Ordered(Models(NonNull(nodes))) && multiset(out) == multiset(NonNull(nodes))
    ensures forall n :: n in out <==> n in NonNull(nodes)
  {
    out := SortNodes(NonNull(nodes));
    SortByLabelSorted(Models(NonNull(nodes)));
    out := SwapTails(out);
  }

  /** On a sorted group the labels are strictly ascending, and tell the children apart. */
  lemma StaticLabels(nodes: seq<Node>)
    requires GroupOk(Models(nodes), Static) && forall n <- nodes :: Shown(n)
    ensures forall a, b :: 0 <= a < b < |nodes| ==> nodes[a].head < nodes[b].head
    ensures forall i :: 0 <= i < |nodes| ==> EdgeKey(Models(nodes)[i]) == Lit(nodes[i].head)
  {
    var ks := Models(nodes);
    forall i | 0 <= i < |ks|
      ensures EdgeKey(ks[i]) == Lit(nodes[i].head) && ks[i].head == nodes[i].head
    {
      assert ks[i] in ks && Shown(nodes[i]);
    }
  }
}
