/** What a search reports about an enumeration of hits, and how reports compose. */
module SearchReport {
  import opened Wrappers
  import opened Pattern
  import opened Endpoints
  import opened Context
  import opened Trie
  import opened TrieSearch

  /** The part of the routing context that a search touches. */
  datatype Marks = Marks(params: RouteParams, hint: bool)

  /**
   The search finds the first hit that serves the method: it returns that hit's leaf, has
   appended the hit's values and its endpoint's keys, and has set the method hint if and
   only if an earlier hit did not serve the method. With no such hit it has changed nothing
   but the hint, which is set if and only if there was a hit at all.
   */
  ghost predicate Reports(hits: seq<Hit>, m: Method, before: Marks, found: Option<Leaf>, after: Marks) {
    var i := FirstServing(hits, m);
    && after.hint == (before.hint || i > 0)
    && if i == |hits| then found == None && after.params == before.params
       else
         && found == Some(hits[i].leaf)
         && after.params == before.params.Plus(RouteParams(hits[i].leaf.endpoints[m].paramKeys, hits[i].values))
  }

  lemma {:induction false} FirstServingIs(hits: seq<Hit>, m: Method, i: nat)
    requires i <= |hits| && (i < |hits| ==> Serves(hits[i].leaf.endpoints, m))
    requires forall j :: 0 <= j < i ==> !Serves(hits[j].leaf.endpoints, m)
    ensures FirstServing(hits, m) == i
  {
  }

  lemma FirstServingConcat(a: seq<Hit>, b: seq<Hit>, m: Method)
    ensures FirstServing(a + b, m)
         == if FirstServing(a, m) < |a| then FirstServing(a, m) else |a| + FirstServing(b, m)
  {
    hide FirstServing;
    var i := if FirstServing(a, m) < |a| then FirstServing(a, m) else |a| + FirstServing(b, m);
    forall j | 0 <= j < i
      ensures !Serves((a + b)[j].leaf.endpoints, m)
    {
      assert (a + b)[j] == if j < |a| then a[j] else b[j - |a|];
    }
    FirstServingIs(a + b, m, i);
  }

  lemma FirstServingThrough(toks: seq<Token>, values: seq<string>, hits: seq<Hit>, m: Method)
    ensures FirstServing(Through(toks, values, hits), m) == FirstServing(hits, m)
  {
    hide FirstServing;
    FirstServingIs(Through(toks, values, hits), m, FirstServing(hits, m));
  }

  /** A search that stops with its first find needs to look no further. */
  lemma ReportsFound(a: seq<Hit>, b: seq<Hit>, m: Method, before: Marks, found: Option<Leaf>, after: Marks)
    requires Reports(a, m, before, found, after) && found.Some?
    ensures Reports(a + b, m, before, found, after)
  {
    hide FirstServing;
    FirstServingConcat(a, b, m);
  }

  /** Two searches in turn, the second after the first has failed. */
  lemma ReportsNext(a: seq<Hit>, b: seq<Hit>, m: Method, before: Marks, middle: Marks, found: Option<Leaf>, after: Marks)
    requires Reports(a, m, before, None, middle) && Reports(b, m, middle, found, after)
    ensures Reports(a + b, m, before, found, after)
  {
    hide FirstServing;
    FirstServingConcat(a, b, m);
  }

  /** Values pushed before a search that succeeds stay; they are dropped after one that fails. */
  lemma ReportsThrough(toks: seq<Token>, values: seq<string>, hits: seq<Hit>, m: Method,
                       before: Marks, found: Option<Leaf>, after: Marks)
    requires Reports(hits, m, Marks(before.params.Plus(RouteParams([], values)), before.hint), found, after)
    ensures found.Some? ==> Reports(Through(toks, values, hits), m, before, found, after)
    ensures found.None? ==> Reports(Through(toks, values, hits), m, before, None, Marks(before.params, after.hint))
  {
    hide FirstServing;
    FirstServingThrough(toks, values, hits, m);
    var i := FirstServing(hits, m);
    if i < |hits| {
      var keys := hits[i].leaf.endpoints[m].paramKeys;
      assert before.params.keys + [] + keys == before.params.keys + keys;
      assert before.params.values + values + hits[i].values == before.params.values + (values + hits[i].values);
    }
  }

  /** What is found among the first `j` children is what is found in the whole group. */
  lemma {:induction false} EachFound(t: Tree, typ: NodeType, j: nat, n: nat, path: string, rx: Matcher, m: Method,
                                     before: Marks, found: Option<Leaf>, after: Marks)
    requires j <= n <= |t.kids.Get(typ)| && found.Some?
    requires Reports(EachHits(t, typ, j, path, rx), m, before, found, after)
    ensures Reports(EachHits(t, typ, n, path, rx), m, before, found, after)
    decreases n
  {
    hide Reports;
    if j < n {
      EachFound(t, typ, j, n - 1, path, rx, m, before, found, after);
      ReportsFound(EachHits(t, typ, n - 1, path, rx), KidHits(t, typ, n - 1, path, rx), m, before, found, after);
    }
  }

  /** What is found in the first `j` groups is what is found at all. */
  lemma {:induction false} GroupsFound(t: Tree, j: nat, n: nat, path: string, rx: Matcher, m: Method,
                                       before: Marks, found: Option<Leaf>, after: Marks)
    requires j <= n <= 4 && found.Some?
    requires Reports(HitsUpTo(t, j, path, rx), m, before, found, after)
    ensures Reports(HitsUpTo(t, n, path, rx), m, before, found, after)
    decreases n
  {
    hide Reports;
    if j < n {
      GroupsFound(t, j, n - 1, path, rx, m, before, found, after);
      ReportsFound(HitsUpTo(t, n - 1, path, rx), GroupHits(t, TYPES[n - 1], path, rx), m, before, found, after);
    }
  }

  /** A failed search leaves the parameters alone. */
  lemma ReportsRestored(hits: seq<Hit>, m: Method, before: Marks, after: Marks)
    requires Reports(hits, m, before, None, after)
    ensures after.params == before.params
  {
  }

  lemma ReportsServes(hits: seq<Hit>, m: Method, before: Marks, found: Option<Leaf>, after: Marks)
    requires Reports(hits, m, before, found, after) && found.Some?
    ensures Serves(found.value.endpoints, m)
  {
  }

  lemma ReportsNothing(m: Method, before: Marks)
    ensures Reports([], m, before, None, before)
  {
  }

  /** Arriving at a node that serves the method. */
  lemma ArrivesHere(k: Tree, rx: Matcher, m: Method, before: Marks)
    requires Serves(k.leaf.endpoints, m)
    ensures Reports(Arrive(k, "", rx), m, before, Some(k.leaf),
                    Marks(before.params.(keys := before.params.keys + k.leaf.endpoints[m].paramKeys), before.hint))
  {
    hide Hits;
    assert before.params.values + [] == before.params.values;
    FirstServingIs(Arrive(k, "", rx), m, 0);
  }

  /** Arriving at a node that does not: the search goes on below, with the hint set if the node has endpoints. */
  lemma ArrivesBelow(k: Tree, rest: string, rx: Matcher, m: Method, before: Marks, found: Option<Leaf>, after: Marks)
    requires !(rest == "" && Serves(k.leaf.endpoints, m))
    requires Reports(Hits(k, rest, rx), m,
                     Marks(before.params, before.hint || (rest == "" && k.leaf.endpoints != map[])), found, after)
    ensures Reports(Arrive(k, rest, rx), m, before, found, after)
  {
    hide Hits;
    if rest == "" && k.leaf.endpoints != map[] {
      var here := [Hit([], [], k.leaf)];
      var middle := Marks(before.params, true);
      FirstServingIs(here, m, 1);
      ReportsNext(here, Hits(k, rest, rx), m, before, middle, found, after);
    } else {
      assert [] + Hits(k, rest, rx) == Hits(k, rest, rx);
    }
  }
}
