/** The draw order `commit` builds: the command indices sorted by alpha
    function. */
module CommandOrder {
  import opened Types
  import opened DrawTables

  /** `ord` lists each of the indices 0..n-1 exactly once. */
  ghost predicate IsPermutation(ord: seq<nat>, n: nat)
  {
    && |ord| == n
    && (forall p :: 0 <= p < |ord| ==> ord[p] < n)
    && (forall p, q :: 0 <= p < q < |ord| ==> ord[p] != ord[q])
    && (forall k :: 0 <= k < n ==> k in ord)
  }

  /** No command is drawn before one with a smaller alpha function. */
  ghost predicate RankSorted(ord: seq<nat>, cmds: seq<DrawCmd>)
  {
    forall p, q :: 0 <= p < q < |ord| && ord[p] < |cmds| && ord[q] < |cmds| ==>
      Rank(cmds[ord[p]].alpha) <= Rank(cmds[ord[q]].alpha)
  }

  /** The values a list holds. */
  ghost function Elems(s: seq<nat>): (e: set<nat>)
    ensures forall x :: x in e <==> x in s
  {
    if s == [] then {} else Elems(s[..|s| - 1]) + {s[|s| - 1]}
  }

  /** A list without repeats has as many distinct elements as entries. */
  lemma {:induction false} DistinctCount(s: seq<nat>)
    requires forall p, q :: 0 <= p < q < |s| ==> s[p] != s[q]
    ensures |Elems(s)| == |s|
  {
    if s != [] {
      var init := s[..|s| - 1];
      DistinctCount(init);
      assert s[|s| - 1] !in init;
    }
  }

  /** The indices below `n`. */
  ghost function Below(n: nat): (e: set<nat>)
    ensures |e| == n
    ensures forall x: nat :: x in e <==> x < n
  {
    if n == 0 then {} else Below(n - 1) + {n - 1}
  }

  /** `ord` holds, without repeats and in alpha order, exactly the
      indices of the commands ranking below `r` and those of rank `r`
      below index `k`. */
  ghost predicate Collected(ord: seq<nat>, cmds: seq<DrawCmd>, r: nat, k: nat)
  {
    && (forall p :: 0 <= p < |ord| ==>
          ord[p] < |cmds| && (Rank(cmds[ord[p]].alpha) < r || (Rank(cmds[ord[p]].alpha) == r && ord[p] < k)))
    && (forall j :: 0 <= j < |cmds| && (Rank(cmds[j].alpha) < r || (Rank(cmds[j].alpha) == r && j < k)) ==> j in ord)
    && (forall p, q :: 0 <= p < q < |ord| ==> ord[p] != ord[q])
    && RankSorted(ord, cmds)
  }

  /** Appending command `k`, of rank `r`, collects it. */
  lemma CollectTake(ord: seq<nat>, cmds: seq<DrawCmd>, r: nat, k: nat)
    requires Collected(ord, cmds, r, k) && k < |cmds| && Rank(cmds[k].alpha) == r
    ensures Collected(ord + [k], cmds, r, k + 1)
  {
    var ord' := ord + [k];
    forall p | 0 <= p < |ord| ensures ord'[p] != k && Rank(cmds[ord'[p]].alpha) <= r {
      assert ord'[p] == ord[p];
    }
    forall j | 0 <= j < |cmds| && (Rank(cmds[j].alpha) < r || (Rank(cmds[j].alpha) == r && j < k + 1))
      ensures j in ord'
    {
      if j != k {
        assert j in ord;
      }
    }
  }

  /** Passing over command `k` of another rank keeps the collection. */
  lemma CollectSkip(ord: seq<nat>, cmds: seq<DrawCmd>, r: nat, k: nat)
    requires Collected(ord, cmds, r, k) && k < |cmds| && Rank(cmds[k].alpha) != r
    ensures Collected(ord, cmds, r, k + 1)
  {
  }

  /** Having passed every command of rank `r` is having collected every
      command ranking below `r + 1`. */
  lemma CollectNext(ord: seq<nat>, cmds: seq<DrawCmd>, r: nat)
    requires Collected(ord, cmds, r, |cmds|)
    ensures Collected(ord, cmds, r + 1, 0)
  {
  }

  /** One pass of the sort: append, in index order, the commands of rank `r`. */
  method AppendRank(cmds: seq<DrawCmd>, r: nat, ord0: seq<nat>) returns (ord: seq<nat>)
    requires Collected(ord0, cmds, r, 0)
    ensures Collected(ord, cmds, r + 1, 0)
  {
    ord := ord0;
    var k := 0;
    while k < |cmds|
      invariant 0 <= k <= |cmds|
      invariant Collected(ord, cmds, r, k)
    {
      if Rank(cmds[k].alpha) == r {
        CollectTake(ord, cmds, r, k);
        ord := ord + [k];
      } else {
        CollectSkip(ord, cmds, r, k);
      }
      k := k + 1;
    }
    CollectNext(ord, cmds, r);
  }

  /** The sort of `commit`: a permutation of the command indices in
      non-decreasing alpha order. */
  method AlphaOrder(cmds: seq<DrawCmd>) returns (ord: seq<nat>)
    ensures IsPermutation(ord, |cmds|)
    ensures RankSorted(ord, cmds)
  {
    ord := [];
    var r := 0;
    while r < 8
      invariant 0 <= r <= 8
      invariant Collected(ord, cmds, r, 0)
    {
      ord := AppendRank(cmds, r, ord);
      r := r + 1;
    }
    assert Elems(ord) == Below(|cmds|);
    DistinctCount(ord);
  }

  /** In a sorted order every Solid command comes before every other one. */
  lemma SolidFirst(ord: seq<nat>, cmds: seq<DrawCmd>, p: nat, q: nat)
    requires RankSorted(ord, cmds)
    requires p < |ord| && q < |ord| && ord[p] < |cmds| && ord[q] < |cmds|
    requires cmds[ord[q]].alpha == Solid && cmds[ord[p]].alpha != Solid
    ensures q < p
  {
  }
}
