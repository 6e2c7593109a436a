/** What the merged symbol guarantees: it is a well-formed symbol, it covers the
    same lower triangle, and it stays closed under fill. */
module SplitTheorems {
  import opened Symbol
  import opened SplitSpec

  /** Block `b` lies inside the piece it faces. */
  ghost predicate PlacedIn(b: Blok, pieces: seq<Cblk>) {
    && 0 <= b.fcblknm < |pieces|
    && pieces[b.fcblknm].fcolnum <= b.frownum <= b.lrownum <= pieces[b.fcblknm].lcolnum
  }

  lemma CutBlokReady(w: Split, b: int)
    requires 0 <= b < |w.s.bloktab|
    ensures w.s.BlokPlaced(b)
    ensures var f := w.s.bloktab[b].fcblknm;
            CutReady(Pieces(w, f), w.s.cblktab[f].fcolnum, w.s.cblktab[f].lcolnum,
                     w.s.bloktab[b].frownum, w.s.bloktab[b].lrownum, 0)
  {
    assert w.s.BlokPlaced(b);
    PiecesTile(w, w.s.bloktab[b].fcblknm);
  }

  /** Block `c` is the part of old block `b` that faces its piece. */
  ghost predicate IsPart(w: Split, q: int, b: int, c: Blok)
    requires 0 <= b < |w.s.bloktab|
  {
    assert w.s.BlokPlaced(b);
    var f := w.s.bloktab[b].fcblknm;
    CutBlokOK(c, Pieces(w, f), NewNum(w.x, f), q, w.s.bloktab[b].frownum, w.s.bloktab[b].lrownum, 0)
  }

  lemma CutBlokParts(w: Split, q: int, b: int)
    requires 0 <= b < |w.s.bloktab|
    ensures forall c :: c in CutBlok(w, q, b) ==> IsPart(w, q, b, c)
    ensures SortedBloks(CutBlok(w, q, b))
  {
    CutBlokReady(w, b);
    var f := w.s.bloktab[b].fcblknm;
    CutBloks(Pieces(w, f), w.s.cblktab[f].fcolnum, w.s.cblktab[f].lcolnum, NewNum(w.x, f), q,
             w.s.bloktab[b].frownum, w.s.bloktab[b].lrownum, 0);
  }

  lemma CutBlokRows(w: Split, q: int, b: int, r: int)
    requires 0 <= b < |w.s.bloktab|
    ensures HasRow(CutBlok(w, q, b), r) <==> w.s.bloktab[b].frownum <= r <= w.s.bloktab[b].lrownum
  {
    CutBlokReady(w, b);
    var f := w.s.bloktab[b].fcblknm;
    CutCovers(Pieces(w, f), w.s.cblktab[f].fcolnum, w.s.cblktab[f].lcolnum, NewNum(w.x, f), q,
              w.s.bloktab[b].frownum, w.s.bloktab[b].lrownum, 0, r);
  }

  lemma PieceInside(w: Split, f: int, k: int)
    requires 0 <= f < w.s.CblkNbr() && 0 <= k < w.x.sptcbnb[f]
    ensures 0 <= NewNum(w.x, f) <= NewNum(w.x, f) + k < NewNum(w.x, f + 1) <= NewNum(w.x, w.s.CblkNbr())
    ensures AllPieces(w, w.s.CblkNbr())[NewNum(w.x, f) + k] == Pieces(w, f)[k]
  {
    NewNumOrder(w, 0, f);
    NewNumOrder(w, f + 1, w.s.CblkNbr());
    AtNewPiece(w, w.s.CblkNbr(), f, k);
  }

  /** A part of old block `b` faces a piece of the column block that `b` faces. */
  lemma PartPlaced(w: Split, q: int, b: int, c: Blok)
    requires 0 <= b < |w.s.bloktab| && IsPart(w, q, b, c)
    ensures w.s.BlokPlaced(b)
    ensures NewNum(w.x, w.s.bloktab[b].fcblknm) <= c.fcblknm < NewNum(w.x, w.s.bloktab[b].fcblknm + 1)
    ensures PlacedIn(c, AllPieces(w, w.s.CblkNbr()))
  {
    assert w.s.BlokPlaced(b);
    var f := w.s.bloktab[b].fcblknm;
    var k := c.fcblknm - NewNum(w.x, f);
    assert 0 <= k < w.x.sptcbnb[f] && Pieces(w, f)[k].fcolnum <= c.frownum <= c.lrownum <= Pieces(w, f)[k].lcolnum;
    PieceInside(w, f, k);
  }

  /** Blocks `b` to `e` are off-diagonal blocks of column block `i`. */
  ghost predicate OffRange(s: Symb, i: int, b: int, e: int) {
    0 <= i < s.CblkNbr() && s.First(i) < b <= e <= s.End(i)
  }

  ghost predicate FromOff(w: Split, q: int, b: int, e: int, c: Blok)
    requires 0 <= b <= e <= |w.s.bloktab|
  {
    exists k :: b <= k < e && IsPart(w, q, k, c)
  }

  lemma {:induction false} OffParts(w: Split, q: int, i: int, b: int, e: int)
    requires OffRange(w.s, i, b, e)
    ensures forall c :: c in OffPart(w, q, b, e) ==> FromOff(w, q, b, e, c)
    ensures SortedBloks(OffPart(w, q, b, e))
    decreases e - b
  {
    if b < e {
      OffParts(w, q, i, b, e - 1);
      CutBlokParts(w, q, e - 1);
      var init, last := OffPart(w, q, b, e - 1), CutBlok(w, q, e - 1);
      forall c | c in init + last
        ensures FromOff(w, q, b, e, c)
      {
        if c in init {
          var k :| b <= k < e - 1 && IsPart(w, q, k, c);
        } else {
          assert IsPart(w, q, e - 1, c);
        }
      }
      forall c, d | c in init && d in last
        ensures c.lrownum < d.frownum
      {
        var k :| b <= k < e - 1 && IsPart(w, q, k, c);
        BlocksInOrder(w.s, i, k, e - 1);
      }
    }
  }

  lemma BlocksInOrder(s: Symb, i: int, k: int, l: int)
    requires 0 <= i < s.CblkNbr() && s.First(i) <= k < l < s.End(i)
    ensures s.bloktab[k].lrownum < s.bloktab[l].frownum
  {
    assert s.bloktab[k].lcblknm == i && s.bloktab[l].lcblknm == i;
  }

  ghost predicate RowOf(s: SymbolMatrix, k: int, r: int) {
    0 <= k < |s.bloktab| && s.bloktab[k].frownum <= r <= s.bloktab[k].lrownum
  }

  /** Row `r` is a row of one of the blocks `b` to `e`. */
  ghost predicate RowAmong(s: SymbolMatrix, b: int, e: int, r: int) {
    exists k :: b <= k < e && RowOf(s, k, r)
  }

  lemma RowAmongStep(s: SymbolMatrix, b: int, e: int, r: int)
    requires b < e
    ensures RowAmong(s, b, e, r) <==> RowAmong(s, b, e - 1, r) || RowOf(s, e - 1, r)
  {
  }

  lemma {:induction false} OffRows(w: Split, q: int, b: int, e: int, r: int)
    requires 0 <= b <= e <= |w.s.bloktab|
    ensures HasRow(OffPart(w, q, b, e), r) <==> RowAmong(w.s, b, e, r)
    decreases e - b
  {
    if b < e {
      OffRows(w, q, b, e - 1, r);
      CutBlokRows(w, q, e - 1, r);
      JoinRows(w.s, b, e, r, OffPart(w, q, b, e - 1), CutBlok(w, q, e - 1));
    }
  }

  lemma JoinRows(s: SymbolMatrix, b: int, e: int, r: int, init: seq<Blok>, last: seq<Blok>)
    requires 0 <= b < e <= |s.bloktab|
    requires HasRow(init, r) <==> RowAmong(s, b, e - 1, r)
    requires HasRow(last, r) <==> s.bloktab[e - 1].frownum <= r <= s.bloktab[e - 1].lrownum
    ensures HasRow(init + last, r) <==> RowAmong(s, b, e, r)
  {
    HasRowConcat(init, last, r);
    RowAmongStep(s, b, e, r);
  }

  lemma DiagRows(p: seq<Cblk>, f: int, l: int, q: int, j: int, r: int)
    requires Tiles(p, f, l) && 0 <= j < |p|
    ensures HasRow(DiagPart(p, q, j), r) <==> p[j].fcolnum <= r <= l
  {
    var d := DiagPart(p, q, j);
    if HasRow(d, r) {
      var m :| 0 <= m < |d| && d[m].frownum <= r <= d[m].lrownum;
      TileBounds(p, f, l, j + m);
      if m > 0 {
        TileStep(p, f, l, j, j + m);
      }
    }
    if p[j].fcolnum <= r <= l {
      TileBounds(p, f, l, j);
      var k := TileFind(p, f, l, r);
      if k < j {
        TileStep(p, f, l, k, j);
      }
      assert d[k - j] == Blok(p[k].fcolnum, p[k].lcolnum, q, q + (k - j));
    }
  }

  /** The rows of piece `j` of column block `i`, from its first column down. */
  lemma ColumnRows(w: Split, i: int, j: int, r: int)
    requires 0 <= i < w.s.CblkNbr() && 0 <= j < w.x.sptcbnb[i]
    ensures HasRow(Column(w, i, j), r) <==>
              || Pieces(w, i)[j].fcolnum <= r <= w.s.cblktab[i].lcolnum
              || RowAmong(w.s, w.s.First(i) + 1, w.s.End(i), r)
  {
    var q := NewNum(w.x, i) + j;
    PiecesTile(w, i);
    DiagRows(Pieces(w, i), w.s.cblktab[i].fcolnum, w.s.cblktab[i].lcolnum, q, j, r);
    OffRows(w, q, w.s.First(i) + 1, w.s.End(i), r);
    HasRowConcat(DiagPart(Pieces(w, i), q, j), OffPart(w, q, w.s.First(i) + 1, w.s.End(i)), r);
  }

  // ----- the merged symbol is well formed -----

  /** What column `q` of the merged symbol must look like. */
  ghost predicate ColumnOK(col: seq<Blok>, q: int, pieces: seq<Cblk>) {
    && |col| >= 1 && 0 <= q < |pieces|
    && col[0] == Blok(pieces[q].fcolnum, pieces[q].lcolnum, q, q)
    && (forall m {:trigger col[m]} :: 0 <= m < |col| ==>
        col[m].lcblknm == q && PlacedIn(col[m], pieces) && (m > 0 ==> q < col[m].fcblknm))
    && SortedBloks(col)
  }

  ghost predicate EndsBy(col: seq<Blok>, last: int) {
    forall m {:trigger col[m]} :: 0 <= m < |col| ==> col[m].lrownum <= last
  }

  /** The pieces `p` stand at `off` in `pieces`. */
  ghost predicate Embedded(p: seq<Cblk>, pieces: seq<Cblk>, off: int) {
    0 <= off <= off + |p| <= |pieces| && pieces[off..off + |p|] == p
  }

  lemma EmbeddedAt(p: seq<Cblk>, pieces: seq<Cblk>, off: int, k: int)
    requires Embedded(p, pieces, off) && 0 <= k < |p|
    ensures pieces[off + k] == p[k]
  {
    assert pieces[off..off + |p|][k] == p[k];
  }

  lemma {:induction false} PiecesEmbedded(w: Split, n: int, i: int)
    requires 0 <= i < n <= w.s.CblkNbr()
    ensures Embedded(Pieces(w, i), AllPieces(w, n), NewNum(w.x, i))
    decreases n
  {
    hide Pieces, Tiles;
    NewNumOrder(w, 0, i);
    NewNumOrder(w, i, n);
    if i < n - 1 {
      PiecesEmbedded(w, n - 1, i);
      NewNumOrder(w, n - 1, n);
    }
  }

  lemma DiagOK(p: seq<Cblk>, f: int, l: int, q: int, j: int, pieces: seq<Cblk>)
    requires Tiles(p, f, l) && 0 <= j < |p| && Embedded(p, pieces, q - j)
    ensures ColumnOK(DiagPart(p, q, j), q, pieces) && EndsBy(DiagPart(p, q, j), l)
  {
    var d := DiagPart(p, q, j);
    forall m | 0 <= m < |d|
      ensures d[m].lcblknm == q && d[m].fcblknm == q + m && PlacedIn(d[m], pieces) && d[m].lrownum <= l
    {
      EmbeddedAt(p, pieces, q - j, j + m);
      TileBounds(p, f, l, j + m);
    }
    forall m, n | 0 <= m < n < |d|
      ensures d[m].lrownum < d[n].frownum
    {
      TileStep(p, f, l, j + m, j + n);
    }
  }

  /** Every part of an off-diagonal block of column block `i` lies below it. */
  lemma OffBelow(w: Split, i: int, q: int, k: int, c: Blok)
    requires 0 <= i < w.s.CblkNbr() && w.s.First(i) < k < w.s.End(i) && IsPart(w, q, k, c)
    ensures c.lcblknm == q && PlacedIn(c, AllPieces(w, w.s.CblkNbr()))
    ensures NewNum(w.x, i + 1) <= c.fcblknm && w.s.cblktab[i].lcolnum < c.frownum
  {
    assert w.s.BlokPlaced(k) && w.s.bloktab[k].lcblknm == i;
    PartPlaced(w, q, k, c);
    NewNumOrder(w, i + 1, w.s.bloktab[k].fcblknm);
    CblkOrder(w.s, i, w.s.bloktab[k].fcblknm);
  }

  ghost predicate Below(o: seq<Blok>, q: int, pieces: seq<Cblk>, last: int) {
    && SortedBloks(o)
    && forall c :: c in o ==> c.lcblknm == q && PlacedIn(c, pieces) && q < c.fcblknm && last < c.frownum
  }

  lemma OffOK(w: Split, i: int, q: int)
    requires 0 <= i < w.s.CblkNbr() && q < NewNum(w.x, i + 1)
    ensures Below(OffPart(w, q, w.s.First(i) + 1, w.s.End(i)), q, AllPieces(w, w.s.CblkNbr()), w.s.cblktab[i].lcolnum)
  {
    var b, e := w.s.First(i) + 1, w.s.End(i);
    OffParts(w, q, i, b, e);
    forall c | c in OffPart(w, q, b, e)
      ensures c.lcblknm == q && PlacedIn(c, AllPieces(w, w.s.CblkNbr()))
      ensures q < c.fcblknm && w.s.cblktab[i].lcolnum < c.frownum
    {
      assert FromOff(w, q, b, e, c);
      var k :| b <= k < e && IsPart(w, q, k, c);
      OffBelow(w, i, q, k, c);
    }
  }

  lemma JoinColumn(d: seq<Blok>, o: seq<Blok>, q: int, pieces: seq<Cblk>, last: int)
    requires ColumnOK(d, q, pieces) && EndsBy(d, last) && Below(o, q, pieces, last)
    ensures ColumnOK(d + o, q, pieces)
  {
    var col := d + o;
    forall m | 0 <= m < |col|
      ensures col[m].lcblknm == q && PlacedIn(col[m], pieces) && (m > 0 ==> q < col[m].fcblknm)
    {
      if m >= |d| {
        assert col[m] in o;
      }
    }
    forall m, n | 0 <= m < n < |col|
      ensures col[m].lrownum < col[n].frownum
    {
      if m < |d| <= n {
        assert col[n] in o;
      }
    }
  }

  lemma DiagIsOK(w: Split, i: int, j: int)
    requires 0 <= i < w.s.CblkNbr() && 0 <= j < w.x.sptcbnb[i]
    ensures ColumnOK(DiagPart(Pieces(w, i), NewNum(w.x, i) + j, j), NewNum(w.x, i) + j, AllPieces(w, w.s.CblkNbr()))
    ensures EndsBy(DiagPart(Pieces(w, i), NewNum(w.x, i) + j, j), w.s.cblktab[i].lcolnum)
  {
    hide DiagPart, Pieces, AllPieces, Tiles, Embedded, ColumnOK, EndsBy;
    PiecesEmbedded(w, w.s.CblkNbr(), i);
    PiecesTile(w, i);
    DiagOK(Pieces(w, i), w.s.cblktab[i].fcolnum, w.s.cblktab[i].lcolnum, NewNum(w.x, i) + j, j,
           AllPieces(w, w.s.CblkNbr()));
  }

  lemma ColumnParts(w: Split, i: int, j: int) returns (d: seq<Blok>, o: seq<Blok>)
    requires 0 <= i < w.s.CblkNbr() && 0 <= j < w.x.sptcbnb[i]
    ensures Column(w, i, j) == d + o
    ensures ColumnOK(d, NewNum(w.x, i) + j, AllPieces(w, w.s.CblkNbr())) && EndsBy(d, w.s.cblktab[i].lcolnum)
    ensures Below(o, NewNum(w.x, i) + j, AllPieces(w, w.s.CblkNbr()), w.s.cblktab[i].lcolnum)
  {
    hide DiagPart, OffPart, Pieces, AllPieces, ColumnOK, EndsBy, Below;
    d := DiagPart(Pieces(w, i), NewNum(w.x, i) + j, j);
    o := OffPart(w, NewNum(w.x, i) + j, w.s.First(i) + 1, w.s.End(i));
    DiagIsOK(w, i, j);
    OffOK(w, i, NewNum(w.x, i) + j);
  }

  lemma ColumnIsOK(w: Split, i: int, j: int)
    requires 0 <= i < w.s.CblkNbr() && 0 <= j < w.x.sptcbnb[i]
    ensures ColumnOK(Column(w, i, j), NewNum(w.x, i) + j, AllPieces(w, w.s.CblkNbr()))
  {
    hide Column, AllPieces, ColumnOK, EndsBy, Below;
    var d, o := ColumnParts(w, i, j);
    JoinColumn(d, o, NewNum(w.x, i) + j, AllPieces(w, w.s.CblkNbr()), w.s.cblktab[i].lcolnum);
  }

  /** Column `q` of the merged symbol, as piece `j` of the old column block `i`. */
  lemma NewColumn(w: Split, q: int) returns (i: int, j: int)
    requires 0 <= q < NewNum(w.x, w.s.CblkNbr())
    ensures 0 <= i < w.s.CblkNbr() && 0 <= j < w.x.sptcbnb[i] && q == NewNum(w.x, i) + j
    ensures AllColumns(w, w.s.CblkNbr())[q] == Column(w, i, j)
    ensures AllPieces(w, w.s.CblkNbr())[q] == Pieces(w, i)[j]
  {
    i := Locate(w, w.s.CblkNbr(), q);
    j := q - NewNum(w.x, i);
    AtNewPiece(w, w.s.CblkNbr(), i, j);
    AtNewColumn(w, w.s.CblkNbr(), i, j);
  }

  ghost predicate ColumnsOK(pieces: seq<Cblk>, cols: seq<seq<Blok>>) {
    && |pieces| == |cols|
    && (forall q :: 0 <= q < |cols| ==> ColumnOK(cols[q], q, pieces))
  }

  lemma AllColumnsOK(w: Split)
    ensures ColumnsOK(AllPieces(w, w.s.CblkNbr()), AllColumns(w, w.s.CblkNbr()))
  {
    hide AllColumns, AllPieces, Column, Pieces, ColumnOK;
    var cols := AllColumns(w, w.s.CblkNbr());
    forall q | 0 <= q < |cols|
      ensures ColumnOK(cols[q], q, AllPieces(w, w.s.CblkNbr()))
    {
      var i, j := NewColumn(w, q);
      ColumnIsOK(w, i, j);
    }
  }

  /** The column blocks follow each other from column 0. */
  ghost predicate TilesFromZero(pieces: seq<Cblk>) {
    |pieces| > 0 ==> Tiles(pieces, 0, pieces[|pieces| - 1].lcolnum)
  }

  lemma JoinTiles(a: seq<Cblk>, b: seq<Cblk>, f: int, m: int, l: int)
    requires Tiles(a, f, m) && Tiles(b, m + 1, l)
    ensures Tiles(a + b, f, l)
  {
    var p := a + b;
    forall k | 0 <= k < |p| - 1
      ensures Abut(p, k)
    {
      if k < |a| - 1 {
        assert Abut(a, k);
      } else if k >= |a| {
        assert Abut(b, k - |a|);
      }
    }
  }

  lemma {:induction false} AllPiecesTile(w: Split, n: int)
    requires 0 <= n <= w.s.CblkNbr()
    ensures n > 0 ==> Tiles(AllPieces(w, n), 0, w.s.cblktab[n - 1].lcolnum)
  {
    if n > 0 {
      PiecesTile(w, n - 1);
    }
    if n == 1 {
      assert AllPieces(w, 1) == Pieces(w, 0);
    } else if n > 1 {
      AllPiecesTile(w, n - 1);
      assert w.s.Abut(n - 2);
      JoinTiles(AllPieces(w, n - 1), Pieces(w, n - 1), 0, w.s.cblktab[n - 2].lcolnum, w.s.cblktab[n - 1].lcolnum);
    }
  }

  lemma {:induction false} FlatFind(cols: seq<seq<Blok>>, b: int) returns (q: int)
    requires 0 <= b < |Flat(cols)|
    ensures 0 <= q < |cols| && |Flat(cols[..q])| <= b < |Flat(cols[..q + 1])|
  {
    var n := |cols| - 1;
    if b < |Flat(cols[..n])| {
      q := FlatFind(cols[..n], b);
      assert cols[..n][..q] == cols[..q] && cols[..n][..q + 1] == cols[..q + 1];
    } else {
      q := n;
      assert cols[..n + 1] == cols;
    }
  }

  lemma AssembledAt(pieces: seq<Cblk>, cols: seq<seq<Blok>>, q: int)
    requires |pieces| == |cols| && 0 <= q < |cols|
    ensures var s := Assemble(pieces, cols);
            && s.cblktab[q] == Cblk(pieces[q].fcolnum, pieces[q].lcolnum, |Flat(cols[..q])|)
            && s.First(q) == |Flat(cols[..q])| && s.End(q) == |Flat(cols[..q + 1])|
            && s.End(q) == s.First(q) + |cols[q]| <= |s.bloktab|
            && s.bloktab[s.First(q)..s.End(q)] == cols[q]
  {
    FlatAt(cols, q);
    assert q == |cols| - 1 ==> cols[..q + 1] == cols;
  }

  lemma AssembledBlok(pieces: seq<Cblk>, cols: seq<seq<Blok>>, q: int, m: int)
    requires |pieces| == |cols| && 0 <= q < |cols| && 0 <= m < |cols[q]|
    ensures var s := Assemble(pieces, cols);
            0 <= s.First(q) <= s.First(q) + m < s.End(q) <= |s.bloktab| && s.bloktab[s.First(q) + m] == cols[q][m]
  {
    AssembledAt(pieces, cols, q);
    var s := Assemble(pieces, cols);
    assert s.bloktab[s.First(q)..s.End(q)][m] == cols[q][m];
  }

  lemma AssembledTiles(pieces: seq<Cblk>, cols: seq<seq<Blok>>)
    requires ColumnsOK(pieces, cols) && TilesFromZero(pieces)
    ensures Assemble(pieces, cols).CblksTile()
  {
    var s := Assemble(pieces, cols);
    forall q | 0 <= q < s.CblkNbr()
      ensures s.cblktab[q].fcolnum <= s.cblktab[q].lcolnum && s.Abut(q)
      ensures 0 <= s.First(q) < s.End(q) <= |s.bloktab|
    {
      AssembledAt(pieces, cols, q);
      assert ColumnOK(cols[q], q, pieces);
      assert q < |pieces| - 1 ==> Abut(pieces, q);
    }
  }

  /** Block `b` of an assembled symbol: block `m` of its column `q`. */
  lemma BlokOfColumn(pieces: seq<Cblk>, cols: seq<seq<Blok>>, b: int) returns (q: int, m: int)
    requires ColumnsOK(pieces, cols) && 0 <= b < |Flat(cols)|
    ensures 0 <= q < |cols| && 0 <= m < |cols[q]| && ColumnOK(cols[q], q, pieces)
    ensures var s := Assemble(pieces, cols);
            s.First(q) <= b < s.End(q) && b == s.First(q) + m && s.bloktab[b] == cols[q][m]
  {
    q := FlatFind(cols, b);
    AssembledAt(pieces, cols, q);
    m := b - |Flat(cols[..q])|;
    AssembledBlok(pieces, cols, q, m);
  }

  lemma AssembledPlaced(pieces: seq<Cblk>, cols: seq<seq<Blok>>, b: int)
    requires ColumnsOK(pieces, cols) && TilesFromZero(pieces) && 0 <= b < |Flat(cols)|
    ensures Assemble(pieces, cols).BlokPlaced(b)
  {
    var q, m := BlokOfColumn(pieces, cols, b);
    var s := Assemble(pieces, cols);
    AssembledAt(pieces, cols, s.bloktab[b].fcblknm);
  }

  lemma AssembledValid(pieces: seq<Cblk>, cols: seq<seq<Blok>>)
    requires ColumnsOK(pieces, cols) && TilesFromZero(pieces)
    ensures Assemble(pieces, cols).Valid()
  {
    var s := Assemble(pieces, cols);
    AssembledTiles(pieces, cols);
    forall b | 0 <= b < |s.bloktab|
      ensures s.BlokPlaced(b)
    {
      AssembledPlaced(pieces, cols, b);
    }
    forall q, b | 0 <= q < s.CblkNbr() && s.First(q) <= b < s.End(q)
      ensures s.bloktab[b].lcblknm == q
    {
      AssembledAt(pieces, cols, q);
      AssembledBlok(pieces, cols, q, b - s.First(q));
      assert ColumnOK(cols[q], q, pieces);
    }
    forall b, c | 0 <= b < c < |s.bloktab| && s.bloktab[b].lcblknm == s.bloktab[c].lcblknm
      ensures s.bloktab[b].lrownum < s.bloktab[c].frownum
    {
      var q, m := BlokOfColumn(pieces, cols, b);
      var r, n := BlokOfColumn(pieces, cols, c);
    }
  }

  /** Merging any valid split table gives a well-formed symbol: column blocks tile
      the columns, blocks are sorted and disjoint, each inside the one it faces. */
  lemma MergedIsSymbol(w: Split)
    ensures Merged(w).Valid()
  {
    AllColumnsOK(w);
    AllPiecesTile(w, w.s.CblkNbr());
    NewNumOrder(w, 0, w.s.CblkNbr());
    AssembledValid(AllPieces(w, w.s.CblkNbr()), AllColumns(w, w.s.CblkNbr()));
  }
}
