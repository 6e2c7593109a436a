/** Splitting preserves the structure of the matrix: the same entries of the
    lower triangle are covered, and the symbol stays closed under fill. */
module SplitMeaning {
  import opened Symbol
  import opened SplitSpec
  import opened SplitTheorems

  /** Block `b` covers row `r` of column `c`. */
  ghost predicate CoversAt(s: SymbolMatrix, b: int, r: int, c: int) {
    && 0 <= b < |s.bloktab| && 0 <= s.bloktab[b].lcblknm < s.CblkNbr()
    && s.cblktab[s.bloktab[b].lcblknm].fcolnum <= c <= s.cblktab[s.bloktab[b].lcblknm].lcolnum
    && s.bloktab[b].frownum <= r <= s.bloktab[b].lrownum
  }

  /** Entry (`r`, `c`) is in the structure. */
  ghost predicate Covers(s: SymbolMatrix, r: int, c: int) {
    exists b :: CoversAt(s, b, r, c)
  }

  /** A row of column `q` of an assembled symbol is covered in each of its columns. */
  lemma ColumnCovers(pieces: seq<Cblk>, cols: seq<seq<Blok>>, q: int, r: int, c: int)
    requires ColumnsOK(pieces, cols) && 0 <= q < |cols| && HasRow(cols[q], r)
    requires pieces[q].fcolnum <= c <= pieces[q].lcolnum
    ensures Covers(Assemble(pieces, cols), r, c)
  {
    var m: int :| 0 <= m < |cols[q]| && cols[q][m].frownum <= r <= cols[q][m].lrownum;
    AssembledAt(pieces, cols, q);
    AssembledBlok(pieces, cols, q, m);
    assert ColumnOK(cols[q], q, pieces);
    assert CoversAt(Assemble(pieces, cols), Assemble(pieces, cols).First(q) + m, r, c);
  }

  /** The piece of the merged symbol that holds column `c` of column block `i`. */
  lemma PieceOf(w: Split, i: int, c: int) returns (j: int)
    requires 0 <= i < w.s.CblkNbr() && w.s.cblktab[i].fcolnum <= c <= w.s.cblktab[i].lcolnum
    ensures 0 <= j < w.x.sptcbnb[i] && Pieces(w, i)[j].fcolnum <= c <= Pieces(w, i)[j].lcolnum
    ensures 0 <= NewNum(w.x, i) + j < NewNum(w.x, w.s.CblkNbr())
    ensures AllPieces(w, w.s.CblkNbr())[NewNum(w.x, i) + j] == Pieces(w, i)[j]
    ensures AllColumns(w, w.s.CblkNbr())[NewNum(w.x, i) + j] == Column(w, i, j)
  {
    PiecesTile(w, i);
    j := TileFind(Pieces(w, i), w.s.cblktab[i].fcolnum, w.s.cblktab[i].lcolnum, c);
    PieceInside(w, i, j);
    AtNewColumn(w, w.s.CblkNbr(), i, j);
  }

  /** Row `r` of an old block of column block `i` is a row of each piece above it. */
  lemma RowOfColumn(w: Split, b: int, j: int, r: int, c: int)
    requires CoversAt(w.s, b, r, c) && c <= r && 0 <= j < w.x.sptcbnb[w.s.bloktab[b].lcblknm]
    requires Pieces(w, w.s.bloktab[b].lcblknm)[j].fcolnum <= c
    ensures HasRow(Column(w, w.s.bloktab[b].lcblknm, j), r)
  {
    assert w.s.BlokPlaced(b);
    if b != w.s.First(w.s.bloktab[b].lcblknm) {
      assert RowOf(w.s, b, r);
    }
    ColumnRows(w, w.s.bloktab[b].lcblknm, j, r);
  }

  lemma CoveredStays(w: Split, b: int, r: int, c: int)
    requires CoversAt(w.s, b, r, c) && c <= r
    ensures Covers(Merged(w), r, c)
  {
    hide Column, AllColumns, AllPieces, Pieces, HasRow, ColumnsOK, Covers, Assemble;
    var i := w.s.bloktab[b].lcblknm;
    var j := PieceOf(w, i, c);
    RowOfColumn(w, b, j, r, c);
    AllColumnsOK(w);
    ColumnCovers(AllPieces(w, w.s.CblkNbr()), AllColumns(w, w.s.CblkNbr()), NewNum(w.x, i) + j, r, c);
  }

  lemma CoveredBefore(w: Split, b: int, r: int, c: int)
    requires CoversAt(Merged(w), b, r, c)
    ensures Covers(w.s, r, c)
  {
    var pieces := AllPieces(w, w.s.CblkNbr());
    var cols: seq<seq<Blok>> := AllColumns(w, w.s.CblkNbr());
    AllColumnsOK(w);
    var q, m := BlokOfColumn(pieces, cols, b);
    AssembledAt(pieces, cols, q);
    var i, j := NewColumn(w, q);
    PiecesTile(w, i);
    TileBounds(Pieces(w, i), w.s.cblktab[i].fcolnum, w.s.cblktab[i].lcolnum, j);
    assert HasRow(cols[q], r);
    ColumnRows(w, i, j, r);
    if Pieces(w, i)[j].fcolnum <= r <= w.s.cblktab[i].lcolnum {
      assert w.s.BlokPlaced(w.s.First(i)) && w.s.bloktab[w.s.First(i)].lcblknm == i;
      assert CoversAt(w.s, w.s.First(i), r, c);
    } else {
      var k :| w.s.First(i) < k < w.s.End(i) && RowOf(w.s, k, r);
      assert w.s.bloktab[k].lcblknm == i;
      assert CoversAt(w.s, k, r, c);
    }
  }

  /** The entries of the lower triangle covered before and after the merge are the same. */
  lemma MergePreservesStructure(w: Split, r: int, c: int)
    requires c <= r
    ensures Covers(w.s, r, c) <==> Covers(Merged(w), r, c)
  {
    if Covers(w.s, r, c) {
      var b :| CoversAt(w.s, b, r, c);
      CoveredStays(w, b, r, c);
    }
    if Covers(Merged(w), r, c) {
      var b :| CoversAt(Merged(w), b, r, c);
      CoveredBefore(w, b, r, c);
    }
  }

  // ----- closure under fill -----

  /** Some block of `col` holds the rows `lo` to `hi`. */
  ghost predicate Holds(col: seq<Blok>, lo: int, hi: int) {
    exists m :: 0 <= m < |col| && col[m].frownum <= lo && hi <= col[m].lrownum
  }

  lemma HoldsConcat(a: seq<Blok>, b: seq<Blok>, lo: int, hi: int)
    requires Holds(a, lo, hi) || Holds(b, lo, hi)
    ensures Holds(a + b, lo, hi)
  {
    if Holds(a, lo, hi) {
      var m :| 0 <= m < |a| && a[m].frownum <= lo && hi <= a[m].lrownum;
      assert (a + b)[m] == a[m];
    } else {
      var m :| 0 <= m < |b| && b[m].frownum <= lo && hi <= b[m].lrownum;
      assert (a + b)[|a| + m] == b[m];
    }
  }

  /** Rows that are rows of old block `b` and of one piece it faces stay together. */
  lemma PartHolds(w: Split, q: int, b: int, g: int, lo: int, hi: int)
    requires 0 <= b < |w.s.bloktab| && w.s.BlokPlaced(b) && 0 <= g < w.x.sptcbnb[w.s.bloktab[b].fcblknm]
    requires w.s.bloktab[b].frownum <= lo <= hi <= w.s.bloktab[b].lrownum
    requires Pieces(w, w.s.bloktab[b].fcblknm)[g].fcolnum <= lo && hi <= Pieces(w, w.s.bloktab[b].fcblknm)[g].lcolnum
    ensures Holds(CutBlok(w, q, b), lo, hi)
  {
    var f := w.s.bloktab[b].fcblknm;
    var p := Pieces(w, f);
    var cut := CutBlok(w, q, b);
    CutBlokRows(w, q, b, lo);
    CutBlokParts(w, q, b);
    var m :| 0 <= m < |cut| && cut[m].frownum <= lo <= cut[m].lrownum;
    assert cut[m] in cut && IsPart(w, q, b, cut[m]);
    var k := cut[m].fcblknm - NewNum(w.x, f);
    PiecesTile(w, f);
    SamePiece(p, w.s.cblktab[f].fcolnum, w.s.cblktab[f].lcolnum, g, k, lo);
  }

  lemma SamePiece(p: seq<Cblk>, f: int, l: int, g: int, k: int, c: int)
    requires Tiles(p, f, l) && 0 <= g < |p| && 0 <= k < |p|
    requires p[g].fcolnum <= c <= p[g].lcolnum && p[k].fcolnum <= c <= p[k].lcolnum
    ensures g == k
  {
    if g < k {
      TileStep(p, f, l, g, k);
    } else if k < g {
      TileStep(p, f, l, k, g);
    }
  }

  lemma {:induction false} OffHolds(w: Split, q: int, b: int, e: int, k: int, lo: int, hi: int)
    requires 0 <= b <= k < e <= |w.s.bloktab| && Holds(CutBlok(w, q, k), lo, hi)
    ensures Holds(OffPart(w, q, b, e), lo, hi)
    decreases e - b
  {
    if k < e - 1 {
      OffHolds(w, q, b, e - 1, k, lo, hi);
    }
    HoldsConcat(OffPart(w, q, b, e - 1), CutBlok(w, q, e - 1), lo, hi);
  }

  /** Piece `j` of column block `i` holds the rows of off-diagonal block `k` of `i`
      that are rows of one piece `g`. */
  lemma ColumnHoldsPart(w: Split, i: int, j: int, k: int, g: int, lo: int, hi: int)
    requires 0 <= i < w.s.CblkNbr() && 0 <= j < w.x.sptcbnb[i] && w.s.First(i) < k < w.s.End(i)
    requires w.s.BlokPlaced(k) && 0 <= g < w.x.sptcbnb[w.s.bloktab[k].fcblknm]
    requires w.s.bloktab[k].frownum <= lo <= hi <= w.s.bloktab[k].lrownum
    requires Pieces(w, w.s.bloktab[k].fcblknm)[g].fcolnum <= lo && hi <= Pieces(w, w.s.bloktab[k].fcblknm)[g].lcolnum
    ensures Holds(Column(w, i, j), lo, hi)
  {
    var q := NewNum(w.x, i) + j;
    PartHolds(w, q, k, g, lo, hi);
    OffHolds(w, q, w.s.First(i) + 1, w.s.End(i), k, lo, hi);
    HoldsConcat(DiagPart(Pieces(w, i), q, j), OffPart(w, q, w.s.First(i) + 1, w.s.End(i)), lo, hi);
  }

  /** Piece `j` of column block `i` holds the rows of any later piece `g` of `i`. */
  lemma ColumnHoldsPiece(w: Split, i: int, j: int, g: int, lo: int, hi: int)
    requires 0 <= i < w.s.CblkNbr() && 0 <= j <= g < w.x.sptcbnb[i]
    requires Pieces(w, i)[g].fcolnum <= lo && hi <= Pieces(w, i)[g].lcolnum
    ensures Holds(Column(w, i, j), lo, hi)
  {
    var q := NewNum(w.x, i) + j;
    var d := DiagPart(Pieces(w, i), q, j);
    assert d[g - j] == Blok(Pieces(w, i)[g].fcolnum, Pieces(w, i)[g].lcolnum, q, q + (g - j));
    assert Holds(d, lo, hi);
    HoldsConcat(d, OffPart(w, q, w.s.First(i) + 1, w.s.End(i)), lo, hi);
  }

  /** Where a block of a new column comes from: a later piece of the same column
      block, or a part of an off-diagonal block. */
  ghost predicate FromDiag(w: Split, i: int, j: int, g: int, c: Blok)
    requires 0 <= i < w.s.CblkNbr() && 0 <= j < w.x.sptcbnb[i]
  {
    && j <= g < w.x.sptcbnb[i]
    && c == Blok(Pieces(w, i)[g].fcolnum, Pieces(w, i)[g].lcolnum, NewNum(w.x, i) + j, NewNum(w.x, i) + g)
  }

  lemma Origin(w: Split, i: int, j: int, m: int) returns (g: int, k: int)
    requires 0 <= i < w.s.CblkNbr() && 0 <= j < w.x.sptcbnb[i] && 0 <= m < |Column(w, i, j)|
    ensures if g >= 0 then FromDiag(w, i, j, g, Column(w, i, j)[m]) && g == j + m
            else w.s.First(i) < k < w.s.End(i) && IsPart(w, NewNum(w.x, i) + j, k, Column(w, i, j)[m])
    ensures g >= 0 <==> m < w.x.sptcbnb[i] - j
  {
    var q := NewNum(w.x, i) + j;
    var d, o := DiagPart(Pieces(w, i), q, j), OffPart(w, q, w.s.First(i) + 1, w.s.End(i));
    if m < |d| {
      g, k := j + m, 0;
    } else {
      g := -1;
      OffParts(w, q, i, w.s.First(i) + 1, w.s.End(i));
      assert (d + o)[m] == o[m - |d|] && o[m - |d|] in o;
      assert FromOff(w, q, w.s.First(i) + 1, w.s.End(i), o[m - |d|]);
      k :| w.s.First(i) + 1 <= k < w.s.End(i) && IsPart(w, q, k, o[m - |d|]);
    }
  }

  /** Blocks with a common row face the same column block. */
  lemma SameFace(s: Symb, a: int, b: int, r: int)
    requires 0 <= a < |s.bloktab| && 0 <= b < |s.bloktab|
    requires s.bloktab[a].frownum <= r <= s.bloktab[a].lrownum && s.bloktab[b].frownum <= r <= s.bloktab[b].lrownum
    ensures s.bloktab[a].fcblknm == s.bloktab[b].fcblknm
  {
    assert s.BlokPlaced(a) && s.BlokPlaced(b);
    if s.bloktab[a].fcblknm < s.bloktab[b].fcblknm {
      CblkOrder(s, s.bloktab[a].fcblknm, s.bloktab[b].fcblknm);
    } else if s.bloktab[b].fcblknm < s.bloktab[a].fcblknm {
      CblkOrder(s, s.bloktab[b].fcblknm, s.bloktab[a].fcblknm);
    }
  }

  /** A part of old block `k`: its piece and its rows. */
  lemma PartRows(w: Split, q: int, k: int, c: Blok) returns (f: int, g: int)
    requires 0 <= k < |w.s.bloktab| && IsPart(w, q, k, c)
    ensures w.s.BlokPlaced(k) && f == w.s.bloktab[k].fcblknm && 0 <= g < w.x.sptcbnb[f]
    ensures c.fcblknm == NewNum(w.x, f) + g
    ensures Pieces(w, f)[g].fcolnum <= c.frownum <= c.lrownum <= Pieces(w, f)[g].lcolnum
    ensures w.s.bloktab[k].frownum <= c.frownum && c.lrownum <= w.s.bloktab[k].lrownum
  {
    assert w.s.BlokPlaced(k);
    f := w.s.bloktab[k].fcblknm;
    g := c.fcblknm - NewNum(w.x, f);
  }

  /** Updates between parts of old blocks: the old receiver, cut the same way, holds them. */
  lemma PartsHeld(w: Split, i: int, q: int, k1: int, k2: int, c1: Blok, c2: Blok) returns (f1: int, g1: int)
    requires w.s.FillClosed() && 0 <= i < w.s.CblkNbr()
    requires w.s.First(i) < k1 < w.s.End(i) && w.s.First(i) < k2 < w.s.End(i)
    requires IsPart(w, q, k1, c1) && IsPart(w, q, k2, c2) && c1.frownum <= c2.frownum
    ensures 0 <= f1 < w.s.CblkNbr() && 0 <= g1 < w.x.sptcbnb[f1] && c1.fcblknm == NewNum(w.x, f1) + g1
    ensures Holds(Column(w, f1, g1), c2.frownum, c2.lrownum)
  {
    var f2, g2;
    f1, g1 := PartRows(w, q, k1, c1);
    f2, g2 := PartRows(w, q, k2, c2);
    assert w.s.bloktab[k1].lcblknm == i && w.s.bloktab[k2].lcblknm == i && w.s.Pair(k1, k2);
    var b :| w.s.Receives(k1, k2, b);
    assert w.s.BlokPlaced(b);
    SameFace(w.s, b, k2, c2.frownum);
    PiecesTile(w, f1);
    if b == w.s.First(f1) {
      if g2 < g1 {
        TileStep(Pieces(w, f1), w.s.cblktab[f1].fcolnum, w.s.cblktab[f1].lcolnum, g2, g1);
      }
      ColumnHoldsPiece(w, f1, g1, g2, c2.frownum, c2.lrownum);
    } else {
      ColumnHoldsPart(w, f1, g1, b, g2, c2.frownum, c2.lrownum);
    }
  }

  /** The update of blocks `m1` and `m2` of a new column is held by the column that `m1` faces. */
  lemma FaceHolds(w: Split, i: int, j: int, m1: int, m2: int) returns (i1: int, j1: int)
    requires w.s.FillClosed() && 0 <= i < w.s.CblkNbr() && 0 <= j < w.x.sptcbnb[i]
    requires 0 < m1 <= m2 < |Column(w, i, j)|
    ensures 0 <= i1 < w.s.CblkNbr() && 0 <= j1 < w.x.sptcbnb[i1]
    ensures Column(w, i, j)[m1].fcblknm == NewNum(w.x, i1) + j1
    ensures Holds(Column(w, i1, j1), Column(w, i, j)[m2].frownum, Column(w, i, j)[m2].lrownum)
  {
    hide Column, AllPieces, Pieces, Tiles, Holds;
    var col := Column(w, i, j);
    ColumnIsOK(w, i, j);
    var g1, k1 := Origin(w, i, j, m1);
    var g2, k2 := Origin(w, i, j, m2);
    var c1, c2 := col[m1], col[m2];
    assert c1.frownum <= c2.frownum;
    if g1 >= 0 {
      i1, j1 := i, g1;
      if g2 >= 0 {
        ColumnHoldsPiece(w, i, g1, g2, c2.frownum, c2.lrownum);
      } else {
        var f, g := PartRows(w, NewNum(w.x, i) + j, k2, c2);
        ColumnHoldsPart(w, i, g1, k2, g, c2.frownum, c2.lrownum);
      }
    } else {
      i1, j1 := PartsHeld(w, i, NewNum(w.x, i) + j, k1, k2, c1, c2);
    }
  }

  /** A column of the assembled symbol that holds the update receives it. */
  lemma HolderReceives(pieces: seq<Cblk>, cols: seq<seq<Blok>>, b1: int, b2: int, q1: int)
    requires ColumnsOK(pieces, cols) && 0 <= b1 < |Flat(cols)| && 0 <= b2 < |Flat(cols)|
    requires 0 <= q1 < |cols| && q1 == Flat(cols)[b1].fcblknm
    requires Holds(cols[q1], Flat(cols)[b2].frownum, Flat(cols)[b2].lrownum)
    ensures exists b :: Assemble(pieces, cols).Receives(b1, b2, b)
  {
    var m: int :| 0 <= m < |cols[q1]| && cols[q1][m].frownum <= Flat(cols)[b2].frownum
        && Flat(cols)[b2].lrownum <= cols[q1][m].lrownum;
    AssembledBlok(pieces, cols, q1, m);
    assert ColumnOK(cols[q1], q1, pieces);
    var s := Assemble(pieces, cols);
    assert s.Receives(b1, b2, s.First(q1) + m);
  }

  lemma PairInColumn(pieces: seq<Cblk>, cols: seq<seq<Blok>>, b1: int, b2: int) returns (q: int, m1: int, m2: int)
    requires ColumnsOK(pieces, cols) && Assemble(pieces, cols).Pair(b1, b2)
    ensures 0 <= q < |cols| && 0 < m1 <= m2 < |cols[q]|
    ensures Flat(cols)[b1] == cols[q][m1] && Flat(cols)[b2] == cols[q][m2]
  {
    q, m1 := BlokOfColumn(pieces, cols, b1);
    var r;
    r, m2 := BlokOfColumn(pieces, cols, b2);
  }

  /** The column faced by the first block of an update exists and holds the update. */
  lemma FacedColumnHolds(w: Split, q: int, m1: int, m2: int) returns (q1: int)
    requires w.s.FillClosed() && 0 <= q < NewNum(w.x, w.s.CblkNbr())
    requires 0 < m1 <= m2 < |AllColumns(w, w.s.CblkNbr())[q]|
    ensures var cols := AllColumns(w, w.s.CblkNbr());
            && 0 <= q1 < |cols| && q1 == cols[q][m1].fcblknm
            && Holds(cols[q1], cols[q][m2].frownum, cols[q][m2].lrownum)
  {
    hide Column, AllColumns, AllPieces, Pieces, Holds;
    var i, j := NewColumn(w, q);
    var i1, j1 := FaceHolds(w, i, j, m1, m2);
    PieceInside(w, i1, j1);
    AtNewColumn(w, w.s.CblkNbr(), i1, j1);
    q1 := NewNum(w.x, i1) + j1;
  }

  lemma UpdateReceived(w: Split, b1: int, b2: int)
    requires w.s.FillClosed() && Merged(w).Pair(b1, b2)
    ensures exists b :: Merged(w).Receives(b1, b2, b)
  {
    var pieces := AllPieces(w, w.s.CblkNbr());
    var cols: seq<seq<Blok>> := AllColumns(w, w.s.CblkNbr());
    AllColumnsOK(w);
    var q, m1, m2 := PairInColumn(pieces, cols, b1, b2);
    var q1 := FacedColumnHolds(w, q, m1, m2);
    HolderReceives(pieces, cols, b1, b2, q1);
  }

  /** Splitting a symbol closed under fill gives a symbol closed under fill. */
  lemma MergePreservesFill(w: Split)
    requires w.s.FillClosed()
    ensures Merged(w).Valid() && Merged(w).FillClosed()
  {
    MergedIsSymbol(w);
    forall b1, b2 | Merged(w).Pair(b1, b2)
      ensures exists b :: Merged(w).Receives(b1, b2, b)
    {
      UpdateReceived(w, b1, b2);
    }
  }
}
