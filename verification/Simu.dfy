/** The data of the scheduling simulation: candidates, costs, counters, heaps
    and clocks, what must hold of them at every step, and why each step keeps it. */
module Simu {
  import opened Symbol
  import opened PQueue

  /** Candidate cores of a column block, and the clusters of its first and last core. */
  datatype Cand = Cand(treelevel: int, fcandnum: int, lcandnum: int, fccandnum: int, lccandnum: int)

  /** `ftgtcost[i]` is the send and add cost of fan-in `i`; `intmax` the initial
      earliest date of the search; `asserts` tells whether asserts are compiled in. */
  datatype Ctrl = Ctrl(candtab: seq<Cand>, core2clust: seq<int>, blokcost: seq<real>,
                       ftgtcost: seq<real>, intmax: real, asserts: bool)

  // ----- sums over ranges -----

  ghost function SumInt(a: seq<int>, lo: int, hi: int): int
    requires 0 <= lo <= hi <= |a|
    decreases hi - lo
  {
    if lo == hi then 0 else SumInt(a, lo, hi - 1) + a[hi - 1]
  }

  ghost function SumReal(a: seq<real>, lo: int, hi: int): real
    requires 0 <= lo <= hi <= |a|
    decreases hi - lo
  {
    if lo == hi then 0.0 else SumReal(a, lo, hi - 1) + a[hi - 1]
  }

  lemma {:induction false} SumUpdate(a: seq<int>, lo: int, hi: int, i: int, v: int)
    requires 0 <= lo <= hi <= |a| && 0 <= i < |a|
    ensures SumInt(a[i := v], lo, hi) == SumInt(a, lo, hi) + (if lo <= i < hi then v - a[i] else 0)
    decreases hi - lo
  {
    if lo < hi {
      SumUpdate(a, lo, hi - 1, i, v);
    }
  }

  lemma {:induction false} SumAtLeast(a: seq<int>, lo: int, hi: int, i: int)
    requires 0 <= lo <= hi <= |a| && forall x :: lo <= x < hi ==> a[x] >= 0
    ensures SumInt(a, lo, hi) >= 0
    ensures lo <= i < hi ==> a[i] <= SumInt(a, lo, hi)
    decreases hi - lo
  {
    if lo < hi {
      SumAtLeast(a, lo, hi - 1, i);
    }
  }

  lemma {:induction false} RealSumAtLeast(a: seq<real>, lo: int, hi: int, i: int)
    requires 0 <= lo <= hi <= |a| && forall x :: lo <= x < hi ==> a[x] >= 0.0
    ensures SumReal(a, lo, hi) >= 0.0
    ensures lo <= i < hi ==> a[i] <= SumReal(a, lo, hi)
    decreases hi - lo
  {
    if lo < hi {
      RealSumAtLeast(a, lo, hi - 1, i);
    }
  }

  // ----- fan-in slots -----

  ghost predicate CandOK(c: Ctrl, i: int)
    requires 0 <= i < |c.candtab|
  {
    var cand := c.candtab[i];
    && 0 <= cand.fcandnum <= cand.lcandnum < |c.core2clust|
    && cand.fccandnum == c.core2clust[cand.fcandnum]
    && cand.lccandnum == c.core2clust[cand.lcandnum]
  }

  /** The candidates of block `j`'s column block are candidates of the one it faces. */
  ghost predicate Nested(s: SymbolMatrix, c: Ctrl, j: int)
    requires s.Valid() && |c.candtab| == s.CblkNbr() && 0 <= j < |s.bloktab|
  {
    assert s.BlokPlaced(j);
    var inner := c.candtab[s.bloktab[j].lcblknm];
    var outer := c.candtab[s.bloktab[j].fcblknm];
    outer.fcandnum <= inner.fcandnum && inner.lcandnum <= outer.lcandnum
  }

  /** Clusters own consecutive cores, every column block has candidates, and they
      nest along the blocks. */
  ghost predicate CandsOK(s: SymbolMatrix, c: Ctrl) {
    && s.Valid()
    && |c.candtab| == s.CblkNbr()
    && (forall i :: 0 <= i < s.CblkNbr() ==> CandOK(c, i))
    && (forall p, q :: 0 <= p <= q < |c.core2clust| ==> 0 <= c.core2clust[p] <= c.core2clust[q])
    && (forall j :: 0 <= j < |s.bloktab| ==> Nested(s, c, j))
  }

  /** What the simulation is handed: candidates and non-negative costs. */
  ghost predicate CtrlOK(s: SymbolMatrix, c: Ctrl) {
    && CandsOK(s, c)
    && |c.blokcost| == |s.bloktab|
    && (forall j :: 0 <= j < |c.blokcost| ==> c.blokcost[j] >= 0.0)
    && |c.ftgtcost| == FtgtBase(s, c, |s.bloktab|)
    && (forall j :: 0 <= j < |c.ftgtcost| ==> c.ftgtcost[j] >= 0.0)
  }

  predicate SingleCluster(c: Ctrl, t: int)
    requires 0 <= t < |c.candtab|
  {
    c.candtab[t].fccandnum == c.candtab[t].lccandnum
  }

  predicate IsCand(c: Ctrl, t: int, p: int)
    requires 0 <= t < |c.candtab|
  {
    c.candtab[t].fcandnum <= p <= c.candtab[t].lcandnum
  }

  /** Number of fan-ins kept for block `b`: one per candidate cluster. */
  function CandNbr(s: SymbolMatrix, c: Ctrl, b: int): int
    requires 0 <= b < |s.bloktab| && 0 <= s.bloktab[b].lcblknm < |c.candtab|
  {
    c.candtab[s.bloktab[b].lcblknm].lccandnum - c.candtab[s.bloktab[b].lcblknm].fccandnum + 1
  }

  ghost predicate HasCands(s: SymbolMatrix, c: Ctrl, b: int)
    requires 0 <= b < |s.bloktab|
  {
    0 <= s.bloktab[b].lcblknm < |c.candtab| && CandNbr(s, c, b) >= 1
  }

  ghost predicate AllHaveCands(s: SymbolMatrix, c: Ctrl) {
    forall b :: 0 <= b < |s.bloktab| ==> HasCands(s, c, b)
  }

  /** First fan-in index of block `b`. */
  ghost function FtgtBase(s: SymbolMatrix, c: Ctrl, b: int): int
    requires 0 <= b <= |s.bloktab|
  {
    if b == 0 then 0
    else FtgtBase(s, c, b - 1) + (if 0 <= s.bloktab[b - 1].lcblknm < |c.candtab| then CandNbr(s, c, b - 1) else 0)
  }

  lemma CtrlGivesCands(s: SymbolMatrix, c: Ctrl)
    requires CandsOK(s, c)
    ensures AllHaveCands(s, c)
  {
    forall b | 0 <= b < |s.bloktab|
      ensures HasCands(s, c, b)
    {
      assert s.BlokPlaced(b);
      assert CandOK(c, s.bloktab[b].lcblknm);
    }
  }

  lemma {:induction false} FtgtBaseMonotone(s: SymbolMatrix, c: Ctrl, a: int, b: int)
    requires AllHaveCands(s, c) && 0 <= a <= b <= |s.bloktab|
    ensures 0 <= FtgtBase(s, c, a) <= FtgtBase(s, c, b)
    ensures a < b ==> FtgtBase(s, c, a) < FtgtBase(s, c, a + 1) <= FtgtBase(s, c, b)
    decreases b
  {
    if 0 < b {
      assert HasCands(s, c, b - 1);
      FtgtBaseMonotone(s, c, if a < b then a else b - 1, b - 1);
    }
  }

  /** Fan-in index of cluster `clust` for block `b`. */
  ghost function Clust2Index(s: SymbolMatrix, c: Ctrl, b: int, clust: int): int
    requires 0 <= b < |s.bloktab| && 0 <= s.bloktab[b].lcblknm < |c.candtab|
  {
    clust + FtgtBase(s, c, b) - c.candtab[s.bloktab[b].lcblknm].fccandnum
  }

  ghost function Index2Clust(s: SymbolMatrix, c: Ctrl, r: int, b: int): int
    requires 0 <= b < |s.bloktab| && 0 <= s.bloktab[b].lcblknm < |c.candtab|
  {
    r - FtgtBase(s, c, b) + c.candtab[s.bloktab[b].lcblknm].fccandnum
  }

  ghost predicate ClustIsCand(s: SymbolMatrix, c: Ctrl, b: int, clust: int)
    requires 0 <= b < |s.bloktab| && 0 <= s.bloktab[b].lcblknm < |c.candtab|
  {
    c.candtab[s.bloktab[b].lcblknm].fccandnum <= clust <= c.candtab[s.bloktab[b].lcblknm].lccandnum
  }

  /** The ranges of the blocks tile the fan-ins: an index is in the range of one
      block and names one of its candidate clusters, and both maps are inverse. */
  lemma {:induction false} FaninIndexSound(s: SymbolMatrix, c: Ctrl, n: int, r: int) returns (b: int)
    requires AllHaveCands(s, c) && 0 <= n <= |s.bloktab| && 0 <= r < FtgtBase(s, c, n)
    ensures 0 <= b < n && 0 <= s.bloktab[b].lcblknm < |c.candtab|
    ensures FtgtBase(s, c, b) <= r < FtgtBase(s, c, b + 1)
    ensures ClustIsCand(s, c, b, Index2Clust(s, c, r, b))
    ensures Clust2Index(s, c, b, Index2Clust(s, c, r, b)) == r
    ensures forall x :: 0 <= x < |s.bloktab| && FtgtBase(s, c, x) <= r < FtgtBase(s, c, x + 1) ==> x == b
    decreases n
  {
    assert HasCands(s, c, n - 1);
    if r < FtgtBase(s, c, n - 1) {
      b := FaninIndexSound(s, c, n - 1, r);
    } else {
      b := n - 1;
      forall x | 0 <= x < |s.bloktab| && FtgtBase(s, c, x) <= r < FtgtBase(s, c, x + 1)
        ensures x == b
      {
        if x < b {
          FtgtBaseMonotone(s, c, x, b);
        } else if b < x {
          FtgtBaseMonotone(s, c, b, x);
        }
      }
    }
  }

  lemma Clust2IndexInRange(s: SymbolMatrix, c: Ctrl, b: int, clust: int)
    requires AllHaveCands(s, c) && 0 <= b < |s.bloktab| && HasCands(s, c, b)
    requires ClustIsCand(s, c, b, clust)
    ensures 0 <= FtgtBase(s, c, b) <= Clust2Index(s, c, b, clust) < FtgtBase(s, c, b + 1) <= FtgtBase(s, c, |s.bloktab|)
    ensures Index2Clust(s, c, Clust2Index(s, c, b, clust), b) == clust
  {
    FtgtBaseMonotone(s, c, b + 1, |s.bloktab|);
    FtgtBaseMonotone(s, c, b, |s.bloktab|);
  }

  /** The index used for a contribution falls in the range of the receiving block. */
  lemma ContributionIndexSound(s: SymbolMatrix, c: Ctrl, j: int, k: int, p: int)
    requires CtrlOK(s, c) && s.FillClosed() && s.Pair(j, k) && s.BlokPlaced(j) && IsCand(c, s.bloktab[j].lcblknm, p)
    ensures s.BlokPlaced(j) && 0 <= p < |c.core2clust|
    ensures 0 <= s.Face(j, k) < |s.bloktab| && s.bloktab[s.Face(j, k)].lcblknm == s.bloktab[j].fcblknm
    ensures var b := s.Face(j, k); var r := Clust2Index(s, c, b, c.core2clust[p]);
            && FtgtBase(s, c, b) <= r < FtgtBase(s, c, b + 1)
            && ClustIsCand(s, c, b, c.core2clust[p])
  {
    FaceReceives(s, j, k);
    var b := s.Face(j, k);
    assert s.BlokPlaced(b);
    assert CandOK(c, s.bloktab[j].lcblknm) && CandOK(c, s.bloktab[b].lcblknm);
    assert Nested(s, c, j);
    CtrlGivesCands(s, c);
    assert HasCands(s, c, b);
    Clust2IndexInRange(s, c, b, c.core2clust[p]);
  }
}
