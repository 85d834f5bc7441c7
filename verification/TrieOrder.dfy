/** Child ordering: nodes_sort permutes, sorts and puts a `/`-tailed node last. */
module TrieOrder {
  import opened Pattern
  import opened Trie

  lemma {:induction false} InsertByLabelPermutes(ks: seq<Tree>, k: Tree)
    ensures multiset(InsertByLabel(ks, k)) == multiset(ks) + multiset{k}
    ensures |InsertByLabel(ks, k)| == |ks| + 1
  {
    if ks != [] && ks[|ks| - 1].head > k.head {
      InsertByLabelPermutes(ks[..|ks| - 1], k);
      assert ks == ks[..|ks| - 1] + [ks[|ks| - 1]];
    }
  }

  lemma InsertByLabelMembers(ks: seq<Tree>, k: Tree)
    ensures forall x :: x in InsertByLabel(ks, k) <==> x in ks || x == k
  {
    InsertByLabelPermutes(ks, k);
    hide InsertByLabel;
    forall x
      ensures x in InsertByLabel(ks, k) <==> x in ks || x == k
    {
      assert x in InsertByLabel(ks, k) <==> x in multiset(InsertByLabel(ks, k));
      assert x in ks <==> x in multiset(ks);
    }
  }

  lemma {:induction false} InsertByLabelSorted(ks: seq<Tree>, k: Tree)
    requires Ascending(ks)
    ensures Ascending(InsertByLabel(ks, k))
  {
    var n := |ks|;
    if ks != [] && ks[n - 1].head > k.head {
      var front := InsertByLabel(ks[..n - 1], k);
      InsertByLabelSorted(ks[..n - 1], k);
      InsertByLabelMembers(ks[..n - 1], k);
      AscendingAppend(front, ks[n - 1]);
    } else {
      AscendingAppend(ks, k);
    }
  }

  lemma AscendingAppend(ks: seq<Tree>, k: Tree)
    requires Ascending(ks) && forall x <- ks :: x.head <= k.head
    ensures Ascending(ks + [k])
  {
    forall i, j | 0 <= i < j < |ks + [k]|
      ensures (ks + [k])[i].head <= (ks + [k])[j].head
    {
      assert (ks + [k])[i] == ks[i] && ks[i] in ks;
    }
  }

  lemma {:induction false} SortByLabelSorted(ks: seq<Tree>)
    ensures Ascending(SortByLabel(ks))
    ensures multiset(SortByLabel(ks)) == multiset(ks) && |SortByLabel(ks)| == |ks|
  {
    if ks != [] {
      var n := |ks|;
      SortByLabelSorted(ks[..n - 1]);
      InsertByLabelSorted(SortByLabel(ks[..n - 1]), ks[n - 1]);
      InsertByLabelPermutes(SortByLabel(ks[..n - 1]), ks[n - 1]);
      hide InsertByLabel;
      assert ks == ks[..n - 1] + [ks[n - 1]];
    }
  }

  lemma SwapLastPermutes<T>(ks: seq<T>, j: nat)
    requires j < |ks|
    ensures multiset(SwapLast(ks, j)) == multiset(ks) && |SwapLast(ks, j)| == |ks|
  {
  }

  lemma {:induction false} TailSortPermutes(ks: seq<Tree>, i: nat)
    requires i <= |ks|
    ensures multiset(TailSort(ks, i)) == multiset(ks) && |TailSort(ks, i)| == |ks|
    decreases i
  {
    if i > 0 {
      SwapLastPermutes(ks, i - 1);
      hide SwapLast;
      TailSortPermutes(TailStep(ks, i - 1), i - 1);
    }
  }

  lemma {:induction false} TailSortStatic(ks: seq<Tree>, i: nat)
    requires i <= |ks| && forall j :: 0 <= j < |ks| ==> ks[j].typ == Static
    ensures TailSort(ks, i) == ks
    decreases i
  {
    if i > 0 {
      TailSortStatic(ks, i - 1);
    }
  }

  /** A `/`-tailed node among the first `i`, or in last place, ends up in last place. */
  lemma {:induction false} TailSortSlash(ks: seq<Tree>, i: nat, j: nat)
    requires i <= |ks| && forall j :: 0 <= j < |ks| ==> ks[j].typ != Static
    requires j < |ks| && ks[j].tail == '/' && (j < i || j == |ks| - 1)
    ensures |TailSort(ks, i)| == |ks| && TailSort(ks, i)[|ks| - 1].tail == '/'
    decreases i
  {
    if i > 0 {
      if |ks| > 1 && ks[i - 1].tail == '/' {
        TailSortSlash(SwapLast(ks, i - 1), i - 1, |ks| - 1);
      } else {
        TailSortSlash(ks, i - 1, j);
      }
    }
  }

  lemma SamePlaces(ks: seq<Tree>, out: seq<Tree>)
    requires multiset(ks) == multiset(out)
    ensures forall k :: k in ks <==> k in out
  {
    forall k
      ensures k in ks <==> k in out
    {
      assert k in ks <==> k in multiset(ks);
      assert k in out <==> k in multiset(out);
    }
  }

  /** nodes_sort permutes the group. */
  lemma OrderedPermutes(ks: seq<Tree>)
    ensures multiset(Ordered(ks)) == multiset(ks) && |Ordered(ks)| == |ks|
    ensures forall k :: k in Ordered(ks) <==> k in ks
  {
    var sorted := SortByLabel(ks);
    SortByLabelSorted(ks);
    TailSortPermutes(sorted, |sorted|);
    SamePlaces(ks, Ordered(ks));
  }

  /** A static group comes out ascending by label. */
  lemma OrderedStatic(ks: seq<Tree>)
    requires forall k <- ks :: k.typ == Static
    ensures Ascending(Ordered(ks))
  {
    var sorted := SortByLabel(ks);
    SortByLabelSorted(ks);
    SamePlaces(ks, sorted);
    forall j | 0 <= j < |sorted|
      ensures sorted[j].typ == Static
    {
      assert sorted[j] in ks;
    }
    TailSortStatic(sorted, |sorted|);
  }

  /** A `/`-tailed node of the ordered group is somewhere in the sorted group. */
  lemma SlashInSorted(ks: seq<Tree>, i: nat) returns (j: nat)
    requires i < |Ordered(ks)| && Ordered(ks)[i].tail == '/'
    ensures j < |SortByLabel(ks)| && SortByLabel(ks)[j].tail == '/'
  {
    hide Ordered;
    hide SortByLabel;
    OrderedPermutes(ks);
    SortByLabelSorted(ks);
    SamePlaces(ks, SortByLabel(ks));
    assert Ordered(ks)[i] in Ordered(ks);
    j :| 0 <= j < |SortByLabel(ks)| && SortByLabel(ks)[j] == Ordered(ks)[i];
  }

  lemma SortedWild(ks: seq<Tree>)
    requires forall k <- ks :: k.typ != Static
    ensures |SortByLabel(ks)| == |ks| && forall j :: 0 <= j < |ks| ==> SortByLabel(ks)[j].typ != Static
  {
    hide SortByLabel;
    SortByLabelSorted(ks);
    SamePlaces(ks, SortByLabel(ks));
    assert forall j :: 0 <= j < |ks| ==> SortByLabel(ks)[j] in SortByLabel(ks);
  }

  /** A group of wild nodes that has a `/`-tailed node ends in one. */
  lemma OrderedWild(ks: seq<Tree>)
    requires forall k <- ks :: k.typ != Static
    ensures SlashLast(Ordered(ks))
  {
    hide SortByLabel;
    hide TailSort;
    hide SwapLast;
    hide TailStep;
    var out := Ordered(ks);
    if i :| 0 <= i < |out| && out[i].tail == '/' {
      var j := SlashInSorted(ks, i);
      SortedWild(ks);
      TailSortSlash(SortByLabel(ks), |ks|, j);
    }
  }

  /** With at most one `/`-tailed node in a wild group, the tail sort swaps that one with the last and moves no other. */
  lemma {:induction false} TailSortOne(ks: seq<Tree>, i: nat, j: nat)
    requires i <= |ks| && j < |ks| && forall l :: 0 <= l < |ks| ==> ks[l].typ != Static && (ks[l].tail == '/' ==> l == j)
    ensures TailSort(ks, i) == if j < i && ks[j].tail == '/' then SwapLast(ks, j) else ks
    decreases i
  {
    if i > 0 {
      var next := TailStep(ks, i - 1);
      if i - 1 == j && ks[j].tail == '/' {
        assert next == SwapLast(ks, j);
        TailSortOne(next, i - 1, |ks| - 1);
      } else {
        TailSortOne(next, i - 1, j);
      }
    }
  }

  lemma {:induction false} InsertByLabelDistinct(ks: seq<Tree>, k: Tree)
    requires Distinct(ks) && forall x <- ks :: EdgeKey(x) != EdgeKey(k)
    ensures Distinct(InsertByLabel(ks, k))
  {
    hide EdgeKey;
    var n := |ks|;
    if ks != [] && ks[n - 1].head > k.head {
      InsertByLabelDistinct(ks[..n - 1], k);
      InsertByLabelMembers(ks[..n - 1], k);
      forall x | x in ks[..n - 1]
        ensures EdgeKey(x) != EdgeKey(ks[n - 1])
      {
        var i :| 0 <= i < n - 1 && ks[..n - 1][i] == x;
        assert ks[i] == x;
      }
      assert ks[n - 1] in ks;
      DistinctAppend(InsertByLabel(ks[..n - 1], k), ks[n - 1]);
    } else {
      DistinctAppend(ks, k);
    }
  }

  lemma DistinctAppend(ks: seq<Tree>, k: Tree)
    requires Distinct(ks) && forall x <- ks :: EdgeKey(x) != EdgeKey(k)
    ensures Distinct(ks + [k])
  {
    hide EdgeKey;
    forall i, j | 0 <= i < j < |ks + [k]|
      ensures EdgeKey((ks + [k])[i]) != EdgeKey((ks + [k])[j])
    {
      assert (ks + [k])[i] == ks[i] && ks[i] in ks;
    }
  }

  lemma {:induction false} SortByLabelDistinct(ks: seq<Tree>)
    requires Distinct(ks)
    ensures Distinct(SortByLabel(ks))
  {
    if ks != [] {
      var n := |ks|;
      SortByLabelDistinct(ks[..n - 1]);
      SortByLabelSorted(ks[..n - 1]);
      SamePlaces(ks[..n - 1], SortByLabel(ks[..n - 1]));
      hide EdgeKey;
      InsertByLabelDistinct(SortByLabel(ks[..n - 1]), ks[n - 1]);
    }
  }

  lemma {:induction false} TailSortDistinct(ks: seq<Tree>, i: nat)
    requires i <= |ks| && Distinct(ks)
    ensures Distinct(TailSort(ks, i))
    decreases i
  {
    if i > 0 {
      TailSortDistinct(TailStep(ks, i - 1), i - 1);
    }
  }

  lemma OrderedDistinct(ks: seq<Tree>)
    requires Distinct(ks)
    ensures Distinct(Ordered(ks))
  {
    SortByLabelDistinct(ks);
    TailSortDistinct(SortByLabel(ks), |SortByLabel(ks)|);
  }

  /** In two groups with the same members and distinct keys, a key leads to the same child. */
  lemma SameChild(ks: seq<Tree>, out: seq<Tree>, tok: Token)
    requires Distinct(ks) && Distinct(out) && forall k :: k in out <==> k in ks
    ensures var i, j := KeyIndex(ks, tok), KeyIndex(out, tok);
            (i < |ks| <==> j < |out|) && (i < |ks| ==> ks[i] == out[j])
  {
    var i, j := KeyIndex(ks, tok), KeyIndex(out, tok);
    if i < |ks| {
      assert ks[i] in out;
      var j' :| 0 <= j' < |out| && out[j'] == ks[i];
      assert j' == j;
    }
    if j < |out| {
      assert out[j] in ks;
    }
  }
}
