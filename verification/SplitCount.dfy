/** Counting pass of the merge: the number of blocks predicted for each column
    block, and why it is the number emitted. */
module SplitCount {
  import opened Symbol
  import opened SplitSpec
  import opened SplitTheorems

  /** Number of pieces from `l` on that rows `frow` to `lrow` meet. */
  ghost function CutNbr(p: seq<Cblk>, frow: int, lrow: int, l: int): (r: int)
    requires 0 <= l <= |p|
    ensures r >= 0
    decreases |p| - l
  {
    if l == |p| then 0
    else if frow > p[l].lcolnum then CutNbr(p, frow, lrow, l + 1)
    else if lrow < p[l].fcolnum then 0
    else 1 + CutNbr(p, p[l].lcolnum + 1, lrow, l + 1)
  }

  lemma {:induction false} CutNbrIsLength(p: seq<Cblk>, fnum: int, lc: int, frow: int, lrow: int, l: int)
    requires 0 <= l <= |p|
    ensures |Cut(p, fnum, lc, frow, lrow, l)| == CutNbr(p, frow, lrow, l)
    decreases |p| - l
  {
    if l < |p| {
      CutNbrIsLength(p, fnum, lc, frow, lrow, l + 1);
      CutNbrIsLength(p, fnum, lc, p[l].lcolnum + 1, lrow, l + 1);
    }
  }

  /** Number of parts of old block `b`. */
  ghost function PartNbr(w: Split, b: int): (r: int)
    requires 0 <= b < |w.s.bloktab|
    ensures r >= 0
  {
    assert w.s.BlokPlaced(b);
    CutNbr(Pieces(w, w.s.bloktab[b].fcblknm), w.s.bloktab[b].frownum, w.s.bloktab[b].lrownum, 0)
  }

  ghost function PartsNbr(w: Split, b: int, e: int): (r: int)
    requires 0 <= b <= e <= |w.s.bloktab|
    ensures r >= 0
    decreases e - b
  {
    if b == e then 0 else PartsNbr(w, b, e - 1) + PartNbr(w, e - 1)
  }

  lemma {:induction false} OffLength(w: Split, q: int, b: int, e: int)
    requires 0 <= b <= e <= |w.s.bloktab|
    ensures |OffPart(w, q, b, e)| == PartsNbr(w, b, e)
    decreases e - b
  {
    if b < e {
      OffLength(w, q, b, e - 1);
      assert w.s.BlokPlaced(e - 1);
      var f := w.s.bloktab[e - 1].fcblknm;
      CutNbrIsLength(Pieces(w, f), NewNum(w.x, f), q, w.s.bloktab[e - 1].frownum, w.s.bloktab[e - 1].lrownum, 0);
    }
  }

  /** An old block facing a column block that is not split has one part. */
  lemma UnsplitPart(w: Split, b: int)
    requires 0 <= b < |w.s.bloktab| && w.s.BlokPlaced(b) && w.x.sptcbnb[w.s.bloktab[b].fcblknm] == 1
    ensures PartNbr(w, b) == 1
    ensures var c := w.s.bloktab[b];
      forall q :: CutBlok(w, q, b) == [Blok(c.frownum, c.lrownum, q, NewNum(w.x, c.fcblknm))]
  {
    var p := Pieces(w, w.s.bloktab[b].fcblknm);
    PiecesTile(w, w.s.bloktab[b].fcblknm);
    assert |p| == 1;
    assert CutNbr(p, p[0].lcolnum + 1, w.s.bloktab[b].lrownum, 1) == 0;
    forall q
      ensures CutBlok(w, q, b) == [Blok(w.s.bloktab[b].frownum, w.s.bloktab[b].lrownum, q,
          NewNum(w.x, w.s.bloktab[b].fcblknm))]
    {
      assert Cut(p, NewNum(w.x, w.s.bloktab[b].fcblknm), q, p[0].lcolnum + 1, w.s.bloktab[b].lrownum, 1) == [];
    }
  }

  ghost function OffNbr(w: Split, i: int): int
    requires 0 <= i < w.s.CblkNbr()
  {
    PartsNbr(w, w.s.First(i) + 1, w.s.End(i))
  }

  lemma MulStep(n: int, v: int)
    ensures n * v == (n - 1) * v + v
  {
  }

  lemma MulAdd(n: int, u: int, v: int)
    ensures n * (u + v) == n * u + n * v
  {
  }

  /** nb + (nb - 1) + ..., `n` terms. */
  ghost function Stairs(nb: int, n: int): int
    requires n >= 0
  {
    if n == 0 then 0 else Stairs(nb, n - 1) + nb - (n - 1)
  }

  lemma {:induction false} StairsSum(nb: int, n: int)
    requires n >= 0
    ensures 2 * Stairs(nb, n) == n * (2 * nb - n + 1)
  {
    if n > 0 {
      StairsSum(nb, n - 1);
      assert n * (2 * nb - n + 1) == (n - 1) * (2 * nb - (n - 1) + 1) + 2 * (nb - (n - 1));
    }
  }

  lemma AllStairs(nb: int)
    requires nb >= 0
    ensures Stairs(nb, nb) == (nb + 1) * nb / 2
  {
    StairsSum(nb, nb);
    assert nb * (2 * nb - nb + 1) == (nb + 1) * nb;
  }

  /** Blocks of the first `n` pieces of column block `i`: on the diagonal, each
      piece faces itself and the later ones. */
  lemma {:induction false} ColumnsLength(w: Split, i: int, n: int)
    requires 0 <= i < w.s.CblkNbr() && 0 <= n <= w.x.sptcbnb[i]
    ensures |Flat(Columns(w, i, n))| == Stairs(w.x.sptcbnb[i], n) + n * OffNbr(w, i)
  {
    if n > 0 {
      ColumnsLength(w, i, n - 1);
      OffLength(w, NewNum(w.x, i) + n - 1, w.s.First(i) + 1, w.s.End(i));
      assert |Column(w, i, n - 1)| == w.x.sptcbnb[i] - (n - 1) + OffNbr(w, i);
      assert Columns(w, i, n)[..n - 1] == Columns(w, i, n - 1);
      MulStep(n, OffNbr(w, i));
    }
  }

  /** Extra blocks predicted for column block `i`: the split of its diagonal block,
      then for each block its parts, once per piece, minus itself. */
  ghost function ExtraBloks(w: Split, i: int): int
    requires 0 <= i < w.s.CblkNbr()
  {
    (w.x.sptcbnb[i] + 1) * w.x.sptcbnb[i] / 2 - 1 + ExtraOff(w, w.x.sptcbnb[i], w.s.First(i) + 1, w.s.End(i))
  }

  ghost function ExtraOff(w: Split, nb: int, b: int, e: int): int
    requires 0 <= b <= e <= |w.s.bloktab|
    decreases e - b
  {
    if b == e then 0 else ExtraOff(w, nb, b, e - 1) + nb * PartNbr(w, e - 1) - 1
  }

  lemma {:induction false} ExtraOffSum(w: Split, nb: int, b: int, e: int)
    requires 0 <= b <= e <= |w.s.bloktab|
    ensures ExtraOff(w, nb, b, e) == nb * PartsNbr(w, b, e) - (e - b)
    decreases e - b
  {
    hide PartNbr;
    if b < e {
      ExtraOffSum(w, nb, b, e - 1);
      MulAdd(nb, PartsNbr(w, b, e - 1), PartNbr(w, e - 1));
    }
  }

  /** The prediction for column block `i` is exact. */
  lemma PredictsColumns(w: Split, i: int)
    requires 0 <= i < w.s.CblkNbr() && w.x.sptcbnb[i] >= 1
    ensures |Flat(Columns(w, i, w.x.sptcbnb[i]))| == (w.s.End(i) - w.s.First(i)) + ExtraBloks(w, i)
  {
    hide Flat, Columns, Stairs, ExtraOff, PartsNbr;
    ColumnsLength(w, i, w.x.sptcbnb[i]);
    ExtraOffSum(w, w.x.sptcbnb[i], w.s.First(i) + 1, w.s.End(i));
    AllStairs(w.x.sptcbnb[i]);
  }

  ghost function TotalExtra(w: Split, n: int): int
    requires 0 <= n <= w.s.CblkNbr()
  {
    if n == 0 then 0 else TotalExtra(w, n - 1) + ExtraBloks(w, n - 1)
  }

  lemma PredictsNext(w: Split, n: int)
    requires 0 < n <= w.s.CblkNbr()
    ensures |Flat(AllColumns(w, n))|
        == |Flat(AllColumns(w, n - 1))| + (w.s.First(n) - w.s.First(n - 1)) + ExtraBloks(w, n - 1)
  {
    hide ExtraBloks, Columns;
    assert SplitOK(w.s, w.x, n - 1);
    PredictsColumns(w, n - 1);
    FlatAppend(AllColumns(w, n - 1), Columns(w, n - 1, w.x.sptcbnb[n - 1]));
  }

  /** The number of blocks counted beforehand is the number of blocks emitted. */
  lemma {:induction false} PredictedIsEmitted(w: Split, n: int)
    requires 0 <= n <= w.s.CblkNbr()
    ensures |Flat(AllColumns(w, n))| == w.s.First(n) + TotalExtra(w, n)
  {
    hide ExtraBloks, AllColumns;
    if n > 0 {
      PredictedIsEmitted(w, n - 1);
      PredictsNext(w, n);
    }
  }
}
