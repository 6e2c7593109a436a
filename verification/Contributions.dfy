/** Contribution counters of the simulation: how many updates each block and
    column block still expects from the column blocks that are not mapped yet. */
module Contributions {
  import opened Symbol
  import opened Simu

  /** Updates still to come for block `b` from position (`j`, `k`) to the end of
      the double loop over the blocks below `hi`. */
  ghost function Rest(s: SymbolMatrix, j: int, k: int, hi: int, b: int): (r: int)
    requires 0 <= j <= hi && j <= k <= hi
    ensures r >= 0
    decreases hi - j, hi - k
  {
    if j == hi then 0
    else if k == hi then Rest(s, j + 1, j + 1, hi, b)
    else (if s.Face(j, k) == b then 1 else 0) + Rest(s, j, k + 1, hi, b)
  }

  /** All updates that column block `i` makes to block `b`. */
  ghost function Updates(s: SymbolMatrix, i: int, b: int): int
    requires s.Bounded(i)
  {
    Rest(s, s.First(i) + 1, s.First(i) + 1, s.End(i), b)
  }

  /** Updates that the unmapped column blocks below `n` owe to block `b`. */
  ghost function Owed(s: SymbolMatrix, own: seq<int>, b: int, n: int): (r: int)
    requires s.AllBounded() && |own| == s.CblkNbr() && 0 <= n <= |own|
    ensures r >= 0
  {
    if n == 0 then 0 else Owed(s, own, b, n - 1) + (if own[n - 1] < 0 then Updates(s, n - 1, b) else 0)
  }

  /** Some off-diagonal block of column block `u` faces column block `v`. */
  ghost predicate Contributes(s: SymbolMatrix, u: int, v: int)
    requires s.Valid() && 0 <= u < s.CblkNbr()
  {
    exists j :: s.First(u) < j < s.End(u) && s.bloktab[j].fcblknm == v
  }

  /** Counter `v` of block `b` is what is still owed to it: by the unmapped column
      blocks, and by the one being computed, stopped at (`j`, `k`) of its double loop. */
  ghost predicate StillOwed(s: SymbolMatrix, own: seq<int>, j: int, k: int, hi: int, b: int, v: int)
    requires s.AllBounded() && |own| == s.CblkNbr()
    requires 0 <= j <= hi && j <= k <= hi
  {
    v == Owed(s, own, b, |own|) + Rest(s, j, k, hi, b)
  }

  ghost predicate BlokCounters(s: SymbolMatrix, own: seq<int>, blokctrb: seq<int>, j: int, k: int, hi: int)
    requires s.AllBounded() && |own| == s.CblkNbr()
    requires 0 <= j <= hi <= |s.bloktab| && j <= k <= hi
  {
    && |blokctrb| == |s.bloktab|
    && forall b {:trigger StillOwed(s, own, j, k, hi, b, blokctrb[b])} :: 0 <= b < |blokctrb| ==>
        StillOwed(s, own, j, k, hi, b, blokctrb[b])
  }

  /** A column block expects what its blocks expect together. */
  ghost predicate CblkCounters(s: SymbolMatrix, blokctrb: seq<int>, cblkctrb: seq<int>)
    requires s.Valid()
  {
    && |blokctrb| == |s.bloktab| && |cblkctrb| == s.CblkNbr()
    && forall i :: 0 <= i < |cblkctrb| ==> IsBlokSum(s, blokctrb, i, cblkctrb[i])
  }

  ghost predicate IsBlokSum(s: SymbolMatrix, blokctrb: seq<int>, i: int, v: int)
    requires s.Valid() && |blokctrb| == |s.bloktab| && 0 <= i < s.CblkNbr()
  {
    v == SumInt(blokctrb, s.First(i), s.End(i))
  }

  lemma BlocksShareCblk(s: SymbolMatrix, i: int, j: int, k: int)
    requires s.Valid() && 0 <= i < s.CblkNbr() && s.First(i) < j <= k < s.End(i)
    ensures s.Pair(j, k) && s.bloktab[j].lcblknm == i && i < s.bloktab[j].fcblknm < s.CblkNbr()
  {
    assert s.BlokPlaced(j);
  }

  lemma CountersNonNegative(s: SymbolMatrix, own: seq<int>, blokctrb: seq<int>, j: int, k: int, hi: int)
    requires s.AllBounded() && |own| == s.CblkNbr() && 0 <= j <= hi <= |s.bloktab| && j <= k <= hi
    requires BlokCounters(s, own, blokctrb, j, k, hi)
    ensures forall b :: 0 <= b < |blokctrb| ==> blokctrb[b] >= 0
  {
    forall b | 0 <= b < |blokctrb|
      ensures blokctrb[b] >= 0
    {
      assert StillOwed(s, own, j, k, hi, b, blokctrb[b]);
    }
  }

  /** Counters never go negative, and the receiver of the next update expects it. */
  lemma NextUpdateExpected(s: SymbolMatrix, own: seq<int>, blokctrb: seq<int>, cblkctrb: seq<int>, j: int, k: int,
          hi: int)
    requires s.Valid() && |own| == s.CblkNbr() && 0 <= j < hi <= |s.bloktab| && j <= k < hi
    requires s.FillClosed() && s.Pair(j, k)
    requires BlokCounters(s, own, blokctrb, j, k, hi) && CblkCounters(s, blokctrb, cblkctrb)
    ensures 0 <= s.Face(j, k) < |blokctrb| && 0 <= s.bloktab[j].fcblknm < |cblkctrb|
    ensures blokctrb[s.Face(j, k)] >= 1
    ensures cblkctrb[s.bloktab[j].fcblknm] >= 1
  {
    FaceReceives(s, j, k);
    var b := s.Face(j, k);
    var i := s.bloktab[j].fcblknm;
    assert StillOwed(s, own, j, k, hi, b, blokctrb[b]);
    CountersNonNegative(s, own, blokctrb, j, k, hi);
    SumAtLeast(blokctrb, s.First(i), s.End(i), b);
    assert IsBlokSum(s, blokctrb, i, cblkctrb[i]);
  }

  /** Lowering the counter of block `f` lowers the sum of its column block and of no other. */
  lemma LowerBlock(s: SymbolMatrix, blokctrb: seq<int>, cblkctrb: seq<int>, f: int, fc: int)
    requires s.Valid() && CblkCounters(s, blokctrb, cblkctrb)
    requires 0 <= f < |blokctrb| && fc == s.bloktab[f].lcblknm
    ensures 0 <= fc < |cblkctrb|
    ensures CblkCounters(s, blokctrb[f := blokctrb[f] - 1], cblkctrb[fc := cblkctrb[fc] - 1])
  {
    assert s.BlokPlaced(f);
    var cblk' := cblkctrb[fc := cblkctrb[fc] - 1];
    forall i | 0 <= i < |cblk'|
      ensures IsBlokSum(s, blokctrb[f := blokctrb[f] - 1], i, cblk'[i])
    {
      assert IsBlokSum(s, blokctrb, i, cblkctrb[i]);
      SumUpdate(blokctrb, s.First(i), s.End(i), f, blokctrb[f] - 1);
    }
  }

  /** Delivering one update: both counters drop by one, and what is owed follows. */
  lemma Deliver(s: SymbolMatrix, own: seq<int>, blokctrb: seq<int>, cblkctrb: seq<int>, j: int, k: int, hi: int)
    requires s.Valid() && |own| == s.CblkNbr() && 0 <= j < hi <= |s.bloktab| && j <= k < hi
    requires s.FillClosed() && s.Pair(j, k)
    requires BlokCounters(s, own, blokctrb, j, k, hi) && CblkCounters(s, blokctrb, cblkctrb)
    ensures 0 <= s.Face(j, k) < |blokctrb| && 0 <= s.bloktab[j].fcblknm < |cblkctrb|
    ensures BlokCounters(s, own, blokctrb[s.Face(j, k) := blokctrb[s.Face(j, k)] - 1], j, k + 1, hi)
    ensures CblkCounters(s, blokctrb[s.Face(j, k) := blokctrb[s.Face(j, k)] - 1],
                         cblkctrb[s.bloktab[j].fcblknm := cblkctrb[s.bloktab[j].fcblknm] - 1])
  {
    FaceReceives(s, j, k);
    var f := s.Face(j, k);
    var blok' := blokctrb[f := blokctrb[f] - 1];
    forall b | 0 <= b < |blok'|
      ensures StillOwed(s, own, j, k + 1, hi, b, blok'[b])
    {
      assert StillOwed(s, own, j, k, hi, b, blokctrb[b]);
    }
    LowerBlock(s, blokctrb, cblkctrb, f, s.bloktab[j].fcblknm);
  }

  lemma {:induction false} OwedMapping(s: SymbolMatrix, own: seq<int>, t: int, p: int, b: int, n: int)
    requires s.AllBounded() && |own| == s.CblkNbr() && 0 <= n <= |own| && 0 <= t < |own|
    requires own[t] < 0 <= p
    ensures Owed(s, own[t := p], b, n) == Owed(s, own, b, n) - (if t < n then Updates(s, t, b) else 0)
  {
    if n > 0 {
      OwedMapping(s, own, t, p, b, n - 1);
    }
  }

  /** Mapping `t` moves what it owes from the unmapped column blocks to the current one. */
  lemma MapTask(s: SymbolMatrix, own: seq<int>, blokctrb: seq<int>, t: int, p: int, e: int)
    requires s.AllBounded() && |own| == s.CblkNbr() && 0 <= t < |own| && own[t] < 0 <= p && 0 <= e <= |s.bloktab|
    requires BlokCounters(s, own, blokctrb, e, e, e)
    ensures BlokCounters(s, own[t := p], blokctrb, s.First(t) + 1, s.First(t) + 1, s.End(t))
  {
    forall b | 0 <= b < |blokctrb|
      ensures StillOwed(s, own[t := p], s.First(t) + 1, s.First(t) + 1, s.End(t), b, blokctrb[b])
    {
      assert StillOwed(s, own, e, e, e, b, blokctrb[b]);
      OwedMapping(s, own, t, p, b, |own|);
    }
  }

  lemma {:induction false} OwedNothing(s: SymbolMatrix, own: seq<int>, b: int, n: int, u: int)
    requires s.AllBounded() && |own| == s.CblkNbr() && 0 <= u < n <= |own| && Owed(s, own, b, n) == 0 && own[u] < 0
    ensures Updates(s, u, b) == 0
  {
    if u < n - 1 {
      OwedNothing(s, own, b, n - 1, u);
    }
  }

  lemma {:induction false} PairIsCounted(s: SymbolMatrix, j: int, hi: int, x: int)
    requires 0 <= j <= x < hi <= |s.bloktab|
    ensures Rest(s, j, j, hi, s.Face(x, x)) >= 1
    decreases x - j
  {
    if j < x {
      PairIsCounted(s, j + 1, hi, x);
      RowAtLeast(s, j, j, hi, s.Face(x, x));
    }
  }

  lemma {:induction false} RowAtLeast(s: SymbolMatrix, j: int, k: int, hi: int, b: int)
    requires 0 <= j < hi <= |s.bloktab| && j <= k <= hi
    ensures Rest(s, j, k, hi, b) >= Rest(s, j + 1, j + 1, hi, b)
    decreases hi - k
  {
    if k < hi {
      RowAtLeast(s, j, k + 1, hi, b);
    }
  }

  lemma UpdateGoesTo(s: SymbolMatrix, u: int, v: int) returns (b: int)
    requires s.Valid() && s.FillClosed() && 0 <= u < s.CblkNbr() && 0 <= v < s.CblkNbr() && Contributes(s, u, v)
    ensures s.First(v) <= b < s.End(v) && Updates(s, u, b) >= 1
  {
    var j :| s.First(u) < j < s.End(u) && s.bloktab[j].fcblknm == v;
    BlocksShareCblk(s, u, j, j);
    FaceReceives(s, j, j);
    b := s.Face(j, j);
    PairIsCounted(s, s.First(u) + 1, s.End(u), j);
  }

  /** When nothing more is owed to `v`, its contributors are all mapped. */
  lemma ContributorsMapped(s: SymbolMatrix, own: seq<int>, blokctrb: seq<int>, cblkctrb: seq<int>, e: int, u: int,
          v: int)
    requires s.Valid() && s.FillClosed() && |own| == s.CblkNbr() && 0 <= e <= |s.bloktab|
    requires BlokCounters(s, own, blokctrb, e, e, e) && CblkCounters(s, blokctrb, cblkctrb)
    requires 0 <= u < |own| && 0 <= v < |own| && Contributes(s, u, v) && cblkctrb[v] == 0
    ensures own[u] >= 0
  {
    var b := UpdateGoesTo(s, u, v);
    CountersNonNegative(s, own, blokctrb, e, e, e);
    assert IsBlokSum(s, blokctrb, v, cblkctrb[v]);
    assert StillOwed(s, own, e, e, e, b, blokctrb[b]);
    SumAtLeast(blokctrb, s.First(v), s.End(v), b);
    if own[u] < 0 {
      OwedNothing(s, own, b, |own|, u);
    }
  }

  lemma {:induction false} OwedOnlyFromBelow(s: SymbolMatrix, own: seq<int>, b: int, n: int)
    requires s.Valid() && s.FillClosed() && |own| == s.CblkNbr() && 0 <= n <= |own| && 0 <= b < |s.bloktab|
    requires forall u :: 0 <= u < s.bloktab[b].lcblknm && u < n ==> own[u] >= 0
    ensures Owed(s, own, b, n) == 0
  {
    if n > 0 {
      OwedOnlyFromBelow(s, own, b, n - 1);
      if own[n - 1] < 0 {
        NoUpdateFromAbove(s, n - 1, s.First(n - 1) + 1, s.First(n - 1) + 1, b);
      }
    }
  }

  lemma {:induction false} NoUpdateFromAbove(s: SymbolMatrix, u: int, j: int, k: int, b: int)
    requires s.Valid() && s.FillClosed() && 0 <= b < |s.bloktab| && 0 <= u < s.CblkNbr() && s.bloktab[b].lcblknm <= u
    requires s.First(u) < j <= s.End(u) && j <= k <= s.End(u)
    ensures Rest(s, j, k, s.End(u), b) == 0
    decreases s.End(u) - j, s.End(u) - k
  {
    if j < s.End(u) {
      if k == s.End(u) {
        NoUpdateFromAbove(s, u, j + 1, j + 1, b);
      } else {
        BlocksShareCblk(s, u, j, k);
        FaceReceives(s, j, k);
        NoUpdateFromAbove(s, u, j, k + 1, b);
      }
    }
  }

  lemma {:induction false} SumOfZeros(a: seq<int>, lo: int, hi: int)
    requires 0 <= lo <= hi <= |a| && forall x :: lo <= x < hi ==> a[x] == 0
    ensures SumInt(a, lo, hi) == 0
    decreases hi - lo
  {
    if lo < hi {
      SumOfZeros(a, lo, hi - 1);
    }
  }

  /** The simulation cannot stall: the first unmapped column block expects nothing. */
  lemma FirstUnmappedIsReleased(s: SymbolMatrix, own: seq<int>, blokctrb: seq<int>, cblkctrb: seq<int>, e: int, t: int)
    requires s.Valid() && s.FillClosed() && |own| == s.CblkNbr() && 0 <= e <= |s.bloktab|
    requires BlokCounters(s, own, blokctrb, e, e, e) && CblkCounters(s, blokctrb, cblkctrb)
    requires 0 <= t < |own| && forall u :: 0 <= u < t ==> own[u] >= 0
    ensures cblkctrb[t] == 0
  {
    forall b | s.First(t) <= b < s.End(t)
      ensures blokctrb[b] == 0
    {
      assert StillOwed(s, own, e, e, e, b, blokctrb[b]);
      OwedOnlyFromBelow(s, own, b, |own|);
    }
    assert IsBlokSum(s, blokctrb, t, cblkctrb[t]);
    SumOfZeros(blokctrb, s.First(t), s.End(t));
  }

  // ----- the counting pass -----

  ghost predicate CountedUpto(s: SymbolMatrix, own: seq<int>, blokctrb: seq<int>, i: int)
    requires s.AllBounded() && |own| == s.CblkNbr() && 0 <= i <= |own|
  {
    && |blokctrb| == |s.bloktab|
    && forall b :: 0 <= b < |blokctrb| ==> blokctrb[b] == Owed(s, own, b, i)
  }

  /** Counter `v` of block `b` in the counting pass, stopped at (`j`, `k`) of the
      double loop of column block `i`. */
  ghost predicate Count(s: SymbolMatrix, own: seq<int>, i: int, j: int, k: int, b: int, v: int)
    requires s.AllBounded() && |own| == s.CblkNbr() && 0 <= i < |own| && 0 <= j <= k <= s.End(i)
  {
    v == Owed(s, own, b, i) + Updates(s, i, b) - Rest(s, j, k, s.End(i), b)
  }

  ghost predicate CountedAt(s: SymbolMatrix, own: seq<int>, blokctrb: seq<int>, i: int, j: int, k: int)
    requires s.AllBounded() && |own| == s.CblkNbr() && 0 <= i < |own| && 0 <= j <= k <= s.End(i)
  {
    && |blokctrb| == |s.bloktab|
    && forall b {:trigger Count(s, own, i, j, k, b, blokctrb[b])} :: 0 <= b < |blokctrb| ==>
        Count(s, own, i, j, k, b, blokctrb[b])
  }

  lemma CountStarts(s: SymbolMatrix, own: seq<int>, blokctrb: seq<int>, i: int)
    requires s.AllBounded() && |own| == s.CblkNbr() && 0 <= i < |own| && CountedUpto(s, own, blokctrb, i)
    ensures CountedAt(s, own, blokctrb, i, s.First(i) + 1, s.First(i) + 1)
  {
  }

  lemma CountOne(s: SymbolMatrix, own: seq<int>, blokctrb: seq<int>, i: int, j: int, k: int)
    requires s.AllBounded() && |own| == s.CblkNbr() && 0 <= i < |own| && 0 <= j <= k < s.End(i)
    requires CountedAt(s, own, blokctrb, i, j, k) && 0 <= s.Face(j, k) < |blokctrb|
    ensures CountedAt(s, own, blokctrb[s.Face(j, k) := blokctrb[s.Face(j, k)] + 1], i, j, k + 1)
  {
    var f := s.Face(j, k);
    var blok' := blokctrb[f := blokctrb[f] + 1];
    forall b | 0 <= b < |blok'|
      ensures Count(s, own, i, j, k + 1, b, blok'[b])
    {
      assert Count(s, own, i, j, k, b, blokctrb[b]);
    }
  }

  lemma CountRowEnds(s: SymbolMatrix, own: seq<int>, blokctrb: seq<int>, i: int, j: int)
    requires s.AllBounded() && |own| == s.CblkNbr() && 0 <= i < |own| && 0 <= j < s.End(i)
    requires CountedAt(s, own, blokctrb, i, j, s.End(i))
    ensures CountedAt(s, own, blokctrb, i, j + 1, j + 1)
  {
    forall b | 0 <= b < |blokctrb|
      ensures Count(s, own, i, j + 1, j + 1, b, blokctrb[b])
    {
      assert Count(s, own, i, j, s.End(i), b, blokctrb[b]);
    }
  }

  lemma CountEnds(s: SymbolMatrix, own: seq<int>, blokctrb: seq<int>, i: int)
    requires s.AllBounded() && |own| == s.CblkNbr() && 0 <= i < |own| && own[i] < 0
    requires CountedAt(s, own, blokctrb, i, s.End(i), s.End(i))
    ensures CountedUpto(s, own, blokctrb, i + 1)
  {
    forall b | 0 <= b < |blokctrb|
      ensures blokctrb[b] == Owed(s, own, b, i + 1)
    {
      assert Count(s, own, i, s.End(i), s.End(i), b, blokctrb[b]);
    }
  }

  lemma CountedAll(s: SymbolMatrix, own: seq<int>, blokctrb: seq<int>)
    requires s.AllBounded() && |own| == s.CblkNbr() && CountedUpto(s, own, blokctrb, |own|)
    ensures BlokCounters(s, own, blokctrb, 0, 0, 0)
  {
  }

  /** Nothing remains to deliver once the double loop is over. */
  lemma RowDelivered(s: SymbolMatrix, own: seq<int>, blokctrb: seq<int>, j: int, hi: int)
    requires s.AllBounded() && |own| == s.CblkNbr() && 0 <= j < hi <= |s.bloktab|
    requires BlokCounters(s, own, blokctrb, j, hi, hi)
    ensures BlokCounters(s, own, blokctrb, j + 1, j + 1, hi)
  {
    forall b | 0 <= b < |blokctrb|
      ensures StillOwed(s, own, j + 1, j + 1, hi, b, blokctrb[b])
    {
      assert StillOwed(s, own, j, hi, hi, b, blokctrb[b]);
    }
  }

  lemma AllDelivered(s: SymbolMatrix, own: seq<int>, blokctrb: seq<int>, hi: int)
    requires s.AllBounded() && |own| == s.CblkNbr() && 0 <= hi <= |s.bloktab|
    requires BlokCounters(s, own, blokctrb, hi, hi, hi)
    ensures BlokCounters(s, own, blokctrb, 0, 0, 0)
  {
    forall b | 0 <= b < |blokctrb|
      ensures StillOwed(s, own, 0, 0, 0, b, blokctrb[b])
    {
      assert StillOwed(s, own, hi, hi, hi, b, blokctrb[b]);
    }
  }
}
