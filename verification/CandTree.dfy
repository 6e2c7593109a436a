/** Costs of subtrees, and the candidate table: cluster candidates and their check. */
module CandTree {
  import opened Symbol
  import opened TreeSpec
  import opened ElimTree
  import opened Simu

  // ----- cost of a subtree -----

  ghost function NodeCost(cost: seq<real>, r: int): real
    requires -1 <= r < |cost|
  {
    if r == -1 then 0.0 else cost[r]
  }

  ghost predicate Priced(fath: Tree, cost: seq<real>) {
    |cost| == |fath| && forall i :: 0 <= i < |cost| ==> cost[i] >= 0.0
  }

  /** Cost of node `r` and all its descendants. */
  ghost function SubCost(fath: Tree, cost: seq<real>, r: int): (v: real)
    requires Priced(fath, cost) && -1 <= r < |fath|
    ensures v >= NodeCost(cost, r) >= 0.0
    decreases Rank(|fath|, r), 1, 0
  {
    NodeCost(cost, r) + SonsCost(fath, cost, r, |AllSons(fath, r)|)
  }

  /** Cost of the subtrees of the first `i` sons of `r`. */
  ghost function SonsCost(fath: Tree, cost: seq<real>, r: int, i: int): (v: real)
    requires Priced(fath, cost) && -1 <= r < |fath| && 0 <= i <= |AllSons(fath, r)|
    ensures v >= 0.0
    decreases Rank(|fath|, r), 0, i
  {
    if i == 0 then 0.0 else
    SonOf(fath, r, i - 1);
    SonsCost(fath, cost, r, i - 1) + SubCost(fath, cost, AllSons(fath, r)[i - 1])
  }

  lemma SubCostSplit(fath: Tree, cost: seq<real>, r: int)
    requires Priced(fath, cost) && -1 <= r < |fath|
    ensures SubCost(fath, cost, r) == NodeCost(cost, r) + SonsCost(fath, cost, r, |AllSons(fath, r)|)
  {
  }

  /** Cost of the nodes below `m` that are under `r`. */
  ghost function UnderSum(fath: Tree, cost: seq<real>, r: int, m: int): real
    requires |cost| == |fath| && 0 <= m <= |fath|
  {
    if m == 0 then 0.0 else
    UnderSum(fath, cost, r, m - 1) + (if Under(fath, m - 1, r) then cost[m - 1] else 0.0)
  }

  /** Cost of the nodes below `m` that are under one of the first `i` sons of `r`. */
  ghost function VisitSum(fath: Tree, cost: seq<real>, r: int, i: int, m: int): real
    requires |cost| == |fath| && 0 <= m <= |fath| && 0 <= i <= |AllSons(fath, r)|
  {
    if m == 0 then 0.0 else
    VisitSum(fath, cost, r, i, m - 1) + (if UnderSons(fath, m - 1, r, i) then cost[m - 1] else 0.0)
  }

  lemma {:induction false} VisitSumNext(fath: Tree, cost: seq<real>, r: int, i: int, m: int)
    requires |cost| == |fath| && 0 <= m <= |fath| && -1 <= r < |fath| && 0 <= i < |AllSons(fath, r)|
    ensures VisitSum(fath, cost, r, i + 1, m)
         == VisitSum(fath, cost, r, i, m) + UnderSum(fath, cost, AllSons(fath, r)[i], m)
  {
    hide AllSons, UnderSons, Under;
    if m > 0 {
      VisitSumNext(fath, cost, r, i, m - 1);
      SonVisited(fath, r, i, m - 1);
    }
  }

  lemma {:induction false} VisitSumNone(fath: Tree, cost: seq<real>, r: int, m: int)
    requires |cost| == |fath| && 0 <= m <= |fath|
    ensures VisitSum(fath, cost, r, 0, m) == 0.0
  {
    if m > 0 {
      VisitSumNone(fath, cost, r, m - 1);
    }
  }

  lemma {:induction false} UnderSumSplit(fath: Tree, cost: seq<real>, r: int, m: int)
    requires |cost| == |fath| && 0 <= m <= |fath| && -1 <= r < |fath|
    ensures UnderSum(fath, cost, r, m)
         == VisitSum(fath, cost, r, |AllSons(fath, r)|, m) + (if 0 <= r < m then cost[r] else 0.0)
  {
    hide AllSons, UnderSons, Under;
    if m > 0 {
      UnderSumSplit(fath, cost, r, m - 1);
      SonsVisited(fath, r, m - 1);
      RootNotVisited(fath, r, |AllSons(fath, r)|);
    }
  }

  lemma RootNotVisited(fath: Tree, r: int, i: int)
    requires -1 <= r < |fath| && 0 <= i <= |AllSons(fath, r)|
    ensures !UnderSons(fath, r, r, i)
  {
    if UnderSons(fath, r, r, i) {
      var a :| 0 <= a < i && Under(fath, r, AllSons(fath, r)[a]);
      SonOf(fath, r, a);
      UnderRank(fath, r, AllSons(fath, r)[a]);
    }
  }

  /** The cost of a subtree counts every node under its root exactly once. */
  lemma {:induction false} SubCostCountsUnder(fath: Tree, cost: seq<real>, r: int)
    requires Priced(fath, cost) && -1 <= r < |fath|
    ensures SubCost(fath, cost, r) == UnderSum(fath, cost, r, |fath|)
    decreases Rank(|fath|, r), 1, 0
  {
    SonsCostCountsUnder(fath, cost, r, |AllSons(fath, r)|);
    UnderSumSplit(fath, cost, r, |fath|);
  }

  lemma {:induction false} SonsCostCountsUnder(fath: Tree, cost: seq<real>, r: int, i: int)
    requires Priced(fath, cost) && -1 <= r < |fath| && 0 <= i <= |AllSons(fath, r)|
    ensures SonsCost(fath, cost, r, i) == VisitSum(fath, cost, r, i, |fath|)
    decreases Rank(|fath|, r), 0, i
  {
    hide AllSons, UnderSons, Under, UnderSum, VisitSum;
    if i == 0 {
      VisitSumNone(fath, cost, r, |fath|);
    } else {
      SonOf(fath, r, i - 1);
      SonsCostCountsUnder(fath, cost, r, i - 1);
      SubCostCountsUnder(fath, cost, AllSons(fath, r)[i - 1]);
      VisitSumNext(fath, cost, r, i - 1, |fath|);
    }
  }

  lemma {:induction false} RootSumIsTotal(fath: Tree, cost: seq<real>, m: int)
    requires |cost| == |fath| && 0 <= m <= |fath|
    ensures UnderSum(fath, cost, -1, m) == SumReal(cost, 0, m)
  {
    if m > 0 {
      RootSumIsTotal(fath, cost, m - 1);
      AllUnderRoot(fath, m - 1);
    }
  }

  /** The cost of the root is the cost of the whole factorization. */
  lemma RootCostIsTotal(fath: Tree, cost: seq<real>)
    requires Priced(fath, cost)
    ensures SubCost(fath, cost, -1) == SumReal(cost, 0, |cost|)
  {
    SubCostCountsUnder(fath, cost, -1);
    RootSumIsTotal(fath, cost, |fath|);
  }

  // ----- filling the costs in -----

  /** The stored costs of node `k - 1` are right. */
  ghost predicate CostAt(t: EliminTree, fath: Tree, cost: seq<real>, k: int)
    requires Priced(fath, cost) && t.Sized() && |fath| == t.nodenbr && 0 <= k <= t.nodenbr
    reads t.nodetab
  {
    t.nodetab[k].ndecost == NodeCost(cost, k - 1) && t.nodetab[k].subcost == SubCost(fath, cost, k - 1)
  }

  ghost predicate Costed(t: EliminTree, fath: Tree, cost: seq<real>)
    reads t.nodetab
  {
    && t.Sized() && |fath| == t.nodenbr && Priced(fath, cost)
    && forall k :: 0 <= k <= t.nodenbr ==> CostAt(t, fath, cost, k)
  }

  /** Node `k` after the pass over the subtree of `r`: costs set, the rest kept. */
  ghost function WithCost(fath: Tree, cost: seq<real>, k: int, nd: Node): Node
    requires Priced(fath, cost) && 0 <= k <= |fath|
  {
    nd.(ndecost := NodeCost(cost, k - 1), subcost := SubCost(fath, cost, k - 1))
  }

  /** Costs of every node under `rootnum`, and depth of every node strictly under it. */
  method SubTreeBuild(rootnum: int, candtab: array<Cand>, t: EliminTree, cblkcost: seq<real>, ghost fath: Tree)
      returns (subcost: real)
    requires t.Holds(fath) && Priced(fath, cblkcost) && candtab.Length == t.nodenbr + 1 && -1 <= rootnum < t.nodenbr
    requires candtab[rootnum + 1].treelevel == -Level(fath, rootnum)
    modifies t.nodetab, candtab
    ensures t.Holds(fath) && subcost == SubCost(fath, cblkcost, rootnum)
    ensures forall k :: 0 <= k <= t.nodenbr ==> (t.nodetab[k] ==
      if Under(fath, k - 1, rootnum) then WithCost(fath, cblkcost, k, old(t.nodetab[k])) else old(t.nodetab[k]))
    ensures forall k :: 0 <= k <= t.nodenbr ==> (candtab[k] ==
      if Under(fath, k - 1, rootnum) then old(candtab[k]).(treelevel := -Level(fath, k - 1)) else old(candtab[k]))
    decreases Rank(t.nodenbr, rootnum)
  {
    hide AllSons, Sons, Before, UnderSons, SonListed;
    var cost := if rootnum == -1 then 0.0 else cblkcost[rootnum];
    t.nodetab[rootnum + 1] := t.nodetab[rootnum + 1].(ndecost := cost, subcost := cost);
    var sonsnbr := t.nodetab[rootnum + 1].sonsnbr;
    VisitNone(fath, rootnum);
    for i := 0 to sonsnbr
      invariant t.Holds(fath)
      invariant forall k :: 0 <= k <= t.nodenbr && k != rootnum + 1 ==> (t.nodetab[k] ==
        if UnderSons(fath, k - 1, rootnum, i) then WithCost(fath, cblkcost, k, old(t.nodetab[k]))
            else old(t.nodetab[k]))
      invariant t.nodetab[rootnum + 1]
             == old(t.nodetab[rootnum + 1]).(ndecost := cost, subcost := cost + SonsCost(fath, cblkcost, rootnum, i))
      invariant forall k :: 0 <= k <= t.nodenbr ==> (candtab[k] ==
        if k - 1 == rootnum || UnderSons(fath, k - 1, rootnum, i)
        then old(candtab[k]).(treelevel := -Level(fath, k - 1)) else old(candtab[k]))
    {
      var son := t.SonI(fath, rootnum, i);
      VisitSon(fath, rootnum, i);
      candtab[son + 1] := candtab[son + 1].(treelevel := candtab[rootnum + 1].treelevel - 1);
      var c := SubTreeBuild(son, candtab, t, cblkcost, fath);
      t.nodetab[rootnum + 1] := t.nodetab[rootnum + 1].(subcost := t.nodetab[rootnum + 1].subcost + c);
    }
    VisitDone(fath, rootnum);
    subcost := t.nodetab[rootnum + 1].subcost;
  }

  // ----- candidates along the blocks -----

  /** The candidates of block `j`'s column block are candidates of the one it faces. */
  ghost predicate BlokNested(s: SymbolMatrix, c: seq<Cand>, j: int)
    requires s.Valid() && |c| == s.CblkNbr() + 1 && 0 <= j < |s.bloktab|
  {
    assert s.BlokPlaced(j);
    var inner, outer := c[s.bloktab[j].lcblknm + 1], c[s.bloktab[j].fcblknm + 1];
    outer.fcandnum <= inner.fcandnum && inner.lcandnum <= outer.lcandnum
  }

  /** The check of the candidates: 1 exactly when they nest along every block. */
  method CandCheck(candtab: array<Cand>, s: Symb) returns (ok: int)
    requires candtab.Length == s.CblkNbr() + 1
    ensures ok == 0 || ok == 1
    ensures ok == 1 <==> forall j :: 0 <= j < |s.bloktab| ==> BlokNested(s, candtab[..], j)
  {
    for i := 0 to s.CblkNbr()
      invariant s.cblktab[i].bloknum <= |s.bloktab|
      invariant forall j :: 0 <= j < s.cblktab[i].bloknum ==> BlokNested(s, candtab[..], j)
    {
      assert s.Bounded(i);
      for j := s.cblktab[i].bloknum to s.cblktab[i + 1].bloknum
        invariant forall b :: 0 <= b < j ==> BlokNested(s, candtab[..], b)
      {
        assert s.BlokPlaced(j) && s.First(i) <= j < s.End(i);
        var facecblknum := s.bloktab[j].fcblknm;
        if candtab[i + 1].fcandnum < candtab[facecblknum + 1].fcandnum ||
           candtab[i + 1].lcandnum > candtab[facecblknum + 1].lcandnum {
          assert !BlokNested(s, candtab[..], j);
          return 0;
        }
      }
    }
    return 1;
  }

  /** Clusters of the first and last candidate cores. */
  method SetClusterCand(candtab: array<Cand>, core2clust: seq<int>)
    requires candtab.Length > 0
    requires forall k :: 0 <= k < candtab.Length ==>
      0 <= candtab[k].fcandnum < |core2clust| && 0 <= candtab[k].lcandnum < |core2clust|
    modifies candtab
    ensures forall k :: 0 <= k < candtab.Length ==> candtab[k] == old(candtab[k]).(
      fccandnum := core2clust[old(candtab[k]).fcandnum], lccandnum := core2clust[old(candtab[k]).lcandnum])
  {
    candtab[0] := candtab[0].(fccandnum := core2clust[candtab[0].fcandnum],
                              lccandnum := core2clust[candtab[0].lcandnum]);
    for i := 0 to candtab.Length - 1
      invariant forall k :: 0 <= k <= i ==> candtab[k] == old(candtab[k]).(
        fccandnum := core2clust[old(candtab[k]).fcandnum], lccandnum := core2clust[old(candtab[k]).lcandnum])
      invariant forall k :: i < k < candtab.Length ==> candtab[k] == old(candtab[k])
    {
      candtab[i + 1] := candtab[i + 1].(
        fccandnum := core2clust[candtab[i + 1].fcandnum], lccandnum := core2clust[candtab[i + 1].lcandnum]);
    }
  }
}
