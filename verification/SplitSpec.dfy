/** What merging a split table into a symbol matrix must produce: the pieces of
    every column block, and for each piece the blocks cut along the pieces they face. */
module SplitSpec {
  import opened Symbol

  /** Column block `i` is replaced by the `sptcbnb[i]` entries of `cblktab`
      starting at `sptcblk[i]`, or kept when `sptcbnb[i]` is 1. */
  datatype ExtraCblk = ExtraCblk(addcblk: int, sptcblk: seq<int>, sptcbnb: seq<int>, cblktab: seq<Cblk>)

  /** Piece `k + 1` starts where piece `k` ends. */
  ghost predicate Abut(p: seq<Cblk>, k: int)
    requires 0 <= k < |p| - 1
  {
    p[k + 1].fcolnum == p[k].lcolnum + 1
  }

  ghost predicate Tiles(p: seq<Cblk>, f: int, l: int) {
    && |p| >= 1 && p[0].fcolnum == f && p[|p| - 1].lcolnum == l
    && (forall k {:trigger p[k].lcolnum} :: 0 <= k < |p| ==> p[k].fcolnum <= p[k].lcolnum)
    && (forall k :: 0 <= k < |p| - 1 ==> Abut(p, k))
  }

  lemma {:induction false} TileStep(p: seq<Cblk>, f: int, l: int, k: int, m: int)
    requires Tiles(p, f, l) && 0 <= k < m < |p|
    ensures p[k].lcolnum < p[m].fcolnum
    decreases m
  {
    if k < m - 1 {
      TileStep(p, f, l, k, m - 1);
    }
    assert Abut(p, m - 1);
  }

  lemma {:induction false} TileBounds(p: seq<Cblk>, f: int, l: int, k: int)
    requires Tiles(p, f, l) && 0 <= k < |p|
    ensures f <= p[k].fcolnum <= p[k].lcolnum <= l
  {
    if 0 < k {
      TileStep(p, f, l, 0, k);
    }
    if k < |p| - 1 {
      TileStep(p, f, l, k, |p| - 1);
    }
  }

  lemma {:induction false} TileFind(p: seq<Cblk>, f: int, l: int, c: int) returns (k: int)
    requires Tiles(p, f, l) && f <= c <= l
    ensures 0 <= k < |p| && p[k].fcolnum <= c <= p[k].lcolnum
  {
    k := 0;
    while p[k].lcolnum < c
      invariant 0 <= k < |p| && p[k].fcolnum <= c
      decreases |p| - k
    {
      assert k < |p| - 1 ==> Abut(p, k);
      k := k + 1;
    }
  }

  // ----- the pieces -----

  ghost predicate SplitOK(s: SymbolMatrix, x: ExtraCblk, i: int)
    requires 0 <= i < s.CblkNbr() == |x.sptcblk| == |x.sptcbnb|
  {
    && x.sptcbnb[i] >= 1
    && (x.sptcbnb[i] > 1 ==>
          && 0 <= x.sptcblk[i] && x.sptcblk[i] + x.sptcbnb[i] <= |x.cblktab|
          && Tiles(x.cblktab[x.sptcblk[i]..x.sptcblk[i] + x.sptcbnb[i]], s.cblktab[i].fcolnum, s.cblktab[i].lcolnum))
  }

  /** The pieces of every split column block tile its columns. */
  ghost predicate ValidSplit(s: SymbolMatrix, x: ExtraCblk) {
    && s.Valid()
    && |x.sptcblk| == |x.sptcbnb| == s.CblkNbr()
    && (forall i {:trigger SplitOK(s, x, i)} :: 0 <= i < |x.sptcbnb| ==> SplitOK(s, x, i))
    && x.addcblk == NewNum(x, s.CblkNbr()) - s.CblkNbr()
  }

  datatype Splitting = Splitting(s: SymbolMatrix, x: ExtraCblk)

  /** A symbol with a split table for it. */
  type Split = w: Splitting | ValidSplit(w.s, w.x)
    witness Splitting(SymbolMatrix([Cblk(0, 0, 0)], []), ExtraCblk(0, [], [], []))

  /** New number of the first piece of column block `i`. */
  ghost function NewNum(x: ExtraCblk, i: int): int
    requires 0 <= i <= |x.sptcbnb|
  {
    if i == 0 then 0 else NewNum(x, i - 1) + x.sptcbnb[i - 1]
  }

  ghost function Pieces(w: Split, i: int): (p: seq<Cblk>)
    requires 0 <= i < w.s.CblkNbr()
    ensures |p| == w.x.sptcbnb[i] >= 1
  {
    assert SplitOK(w.s, w.x, i);
    if w.x.sptcbnb[i] > 1 then w.x.cblktab[w.x.sptcblk[i]..w.x.sptcblk[i] + w.x.sptcbnb[i]] else [w.s.cblktab[i]]
  }

  lemma PiecesTile(w: Split, i: int)
    requires 0 <= i < w.s.CblkNbr()
    ensures Tiles(Pieces(w, i), w.s.cblktab[i].fcolnum, w.s.cblktab[i].lcolnum)
  {
    assert SplitOK(w.s, w.x, i);
  }

  lemma {:induction false} NewNumOrder(w: Split, i: int, j: int)
    requires 0 <= i <= j <= w.s.CblkNbr()
    ensures 0 <= NewNum(w.x, i) && NewNum(w.x, i) + (j - i) <= NewNum(w.x, j)
    ensures i < j ==> NewNum(w.x, i) + w.x.sptcbnb[i] <= NewNum(w.x, j)
    decreases j
  {
    if 0 < j {
      assert SplitOK(w.s, w.x, j - 1);
      NewNumOrder(w, if i < j then i else j - 1, j - 1);
    }
  }

  /** New column block `q` is piece `q - NewNum(i)` of the old column block `i`. */
  lemma {:induction false} Locate(w: Split, n: int, q: int) returns (i: int)
    requires 0 <= n <= w.s.CblkNbr() && 0 <= q < NewNum(w.x, n)
    ensures 0 <= i < n && NewNum(w.x, i) <= q < NewNum(w.x, i + 1)
    decreases n
  {
    assert SplitOK(w.s, w.x, n - 1);
    if q < NewNum(w.x, n - 1) {
      i := Locate(w, n - 1, q);
    } else {
      i := n - 1;
    }
  }

  // ----- the blocks -----

  function Min(a: int, b: int): int {
    if a < b then a else b
  }

  /** Rows `frow` to `lrow` cut along the pieces from `l` on, numbered from `fnum`. */
  ghost function Cut(p: seq<Cblk>, fnum: int, lc: int, frow: int, lrow: int, l: int): seq<Blok>
    requires 0 <= l <= |p|
    decreases |p| - l
  {
    if l == |p| then []
    else if frow > p[l].lcolnum then Cut(p, fnum, lc, frow, lrow, l + 1)
    else if lrow < p[l].fcolnum then []
    else [Blok(frow, Min(lrow, p[l].lcolnum), lc, fnum + l)] + Cut(p, fnum, lc, p[l].lcolnum + 1, lrow, l + 1)
  }

  /** Where cutting stands: rows start at piece `l` or later. */
  ghost predicate CutReady(p: seq<Cblk>, f: int, last: int, frow: int, lrow: int, l: int) {
    && Tiles(p, f, last) && 0 <= l <= |p| && lrow <= last
    && frow >= (if l < |p| then p[l].fcolnum else last + 1)
    && (frow <= lrow || l == |p| || frow == p[l].fcolnum)
  }

  lemma CutSteps(p: seq<Cblk>, f: int, last: int, frow: int, lrow: int, l: int)
    requires CutReady(p, f, last, frow, lrow, l) && l < |p|
    ensures CutReady(p, f, last, p[l].lcolnum + 1, lrow, l + 1)
    ensures frow > p[l].lcolnum ==> CutReady(p, f, last, frow, lrow, l + 1)
  {
    assert l < |p| - 1 ==> Abut(p, l);
  }

  ghost predicate CutBlokOK(b: Blok, p: seq<Cblk>, fnum: int, lc: int, frow: int, lrow: int, l: int) {
    && b.lcblknm == lc && fnum + l <= b.fcblknm < fnum + |p| && l >= 0
    && p[b.fcblknm - fnum].fcolnum <= b.frownum <= b.lrownum <= p[b.fcblknm - fnum].lcolnum
    && frow <= b.frownum && b.lrownum <= lrow
    && b.frownum == Max(frow, p[b.fcblknm - fnum].fcolnum)
    && b.lrownum == Min(lrow, p[b.fcblknm - fnum].lcolnum)
  }

  function Max(a: int, b: int): int {
    if a > b then a else b
  }

  ghost predicate SortedBloks(a: seq<Blok>) {
    forall m, n :: 0 <= m < n < |a| ==> a[m].lrownum < a[n].frownum
  }

  ghost predicate HasRow(a: seq<Blok>, r: int) {
    exists m :: 0 <= m < |a| && a[m].frownum <= r <= a[m].lrownum
  }

  lemma HasRowConcat(a: seq<Blok>, b: seq<Blok>, r: int)
    ensures HasRow(a + b, r) <==> HasRow(a, r) || HasRow(b, r)
  {
    if HasRow(a, r) {
      var m :| 0 <= m < |a| && a[m].frownum <= r <= a[m].lrownum;
      assert (a + b)[m] == a[m];
    }
    if HasRow(b, r) {
      var m :| 0 <= m < |b| && b[m].frownum <= r <= b[m].lrownum;
      assert (a + b)[|a| + m] == b[m];
    }
  }

  lemma {:induction false} CutBloks(p: seq<Cblk>, f: int, last: int, fnum: int, lc: int, frow: int, lrow: int, l: int)
    requires CutReady(p, f, last, frow, lrow, l)
    ensures forall b :: b in Cut(p, fnum, lc, frow, lrow, l) ==> CutBlokOK(b, p, fnum, lc, frow, lrow, l)
    ensures SortedBloks(Cut(p, fnum, lc, frow, lrow, l))
    decreases |p| - l
  {
    if l < |p| {
      CutSteps(p, f, last, frow, lrow, l);
      if frow > p[l].lcolnum {
        CutBloks(p, f, last, fnum, lc, frow, lrow, l + 1);
      } else if lrow >= p[l].fcolnum {
        CutBloks(p, f, last, fnum, lc, p[l].lcolnum + 1, lrow, l + 1);
        CutConsOK(p, f, last, fnum, lc, frow, lrow, l, Cut(p, fnum, lc, p[l].lcolnum + 1, lrow, l + 1));
      }
    }
  }

  lemma CutConsOK(p: seq<Cblk>, f: int, last: int, fnum: int, lc: int, frow: int, lrow: int, l: int, rest: seq<Blok>)
    requires CutReady(p, f, last, frow, lrow, l) && l < |p| && p[l].fcolnum <= frow <= p[l].lcolnum
    requires lrow >= p[l].fcolnum && lrow >= frow
    requires forall b :: b in rest ==> CutBlokOK(b, p, fnum, lc, p[l].lcolnum + 1, lrow, l + 1)
    requires SortedBloks(rest)
    ensures forall b :: b in [Blok(frow, Min(lrow, p[l].lcolnum), lc, fnum + l)] + rest ==>
      CutBlokOK(b, p, fnum, lc, frow, lrow, l)
    ensures SortedBloks([Blok(frow, Min(lrow, p[l].lcolnum), lc, fnum + l)] + rest)
  {
    forall b | b in rest
      ensures CutBlokOK(b, p, fnum, lc, frow, lrow, l)
    {
      TileStep(p, f, last, l, b.fcblknm - fnum);
    }
    forall n | 0 <= n < |rest|
      ensures Min(lrow, p[l].lcolnum) < rest[n].frownum
    {
      assert rest[n] in rest;
    }
  }

  /** The cut blocks cover the rows of the block, no more and no less. */
  lemma {:induction false} CutCovers(p: seq<Cblk>, f: int, last: int, fnum: int, lc: int, frow: int, lrow: int, l: int,
          r: int)
    requires CutReady(p, f, last, frow, lrow, l)
    ensures HasRow(Cut(p, fnum, lc, frow, lrow, l), r) <==> frow <= r <= lrow
    decreases |p| - l
  {
    if l < |p| {
      CutSteps(p, f, last, frow, lrow, l);
      if frow > p[l].lcolnum {
        CutCovers(p, f, last, fnum, lc, frow, lrow, l + 1, r);
      } else if lrow >= p[l].fcolnum {
        CutCovers(p, f, last, fnum, lc, p[l].lcolnum + 1, lrow, l + 1, r);
        var head := Blok(frow, Min(lrow, p[l].lcolnum), lc, fnum + l);
        HasRowConcat([head], Cut(p, fnum, lc, p[l].lcolnum + 1, lrow, l + 1), r);
        assert HasRow([head], r) <==> head.frownum <= r <= head.lrownum by {
          assert [head][0] == head;
        }
      }
    }
  }

  /** Blocks facing the pieces `j` and up of the same column block: the diagonal ones. */
  ghost function DiagPart(p: seq<Cblk>, q: int, j: int): (r: seq<Blok>)
    requires 0 <= j < |p|
    ensures |r| == |p| - j
  {
    seq(|p| - j, k requires 0 <= k < |p| - j => Blok(p[j + k].fcolnum, p[j + k].lcolnum, q, q + k))
  }

  /** The blocks `b` to `e` of the symbol, cut, for new column block `q`. */
  ghost function OffPart(w: Split, q: int, b: int, e: int): seq<Blok>
    requires 0 <= b <= e <= |w.s.bloktab|
    decreases e - b
  {
    if b == e then [] else OffPart(w, q, b, e - 1) + CutBlok(w, q, e - 1)
  }

  ghost function CutBlok(w: Split, q: int, b: int): seq<Blok>
    requires 0 <= b < |w.s.bloktab|
  {
    assert w.s.BlokPlaced(b);
    var f := w.s.bloktab[b].fcblknm;
    Cut(Pieces(w, f), NewNum(w.x, f), q, w.s.bloktab[b].frownum, w.s.bloktab[b].lrownum, 0)
  }

  /** All the blocks of piece `j` of column block `i`. */
  ghost function Column(w: Split, i: int, j: int): (r: seq<Blok>)
    requires 0 <= i < w.s.CblkNbr() && 0 <= j < w.x.sptcbnb[i]
    ensures |r| >= 1
  {
    DiagPart(Pieces(w, i), NewNum(w.x, i) + j, j)
    + OffPart(w, NewNum(w.x, i) + j, w.s.First(i) + 1, w.s.End(i))
  }

  /** The columns of the first `n` pieces of column block `i`. */
  ghost function Columns(w: Split, i: int, n: int): (r: seq<seq<Blok>>)
    requires 0 <= i < w.s.CblkNbr() && 0 <= n <= w.x.sptcbnb[i]
    ensures |r| == n
  {
    if n == 0 then [] else Columns(w, i, n - 1) + [Column(w, i, n - 1)]
  }

  lemma {:induction false} ColumnsAt(w: Split, i: int, n: int, j: int)
    requires 0 <= i < w.s.CblkNbr() && 0 <= j < n <= w.x.sptcbnb[i]
    ensures Columns(w, i, n)[j] == Column(w, i, j)
  {
    if j < n - 1 {
      ColumnsAt(w, i, n - 1, j);
    }
  }

  ghost function AllColumns(w: Split, n: int): (r: seq<seq<Blok>>)
    requires 0 <= n <= w.s.CblkNbr()
    ensures |r| == NewNum(w.x, n)
  {
    if n == 0 then []
    else
      assert SplitOK(w.s, w.x, n - 1);
      AllColumns(w, n - 1) + Columns(w, n - 1, w.x.sptcbnb[n - 1])
  }

  ghost function AllPieces(w: Split, n: int): (r: seq<Cblk>)
    requires 0 <= n <= w.s.CblkNbr()
    ensures |r| == NewNum(w.x, n)
  {
    if n == 0 then [] else AllPieces(w, n - 1) + Pieces(w, n - 1)
  }

  lemma {:induction false} AtNewPiece(w: Split, n: int, i: int, j: int)
    requires 0 <= i < n <= w.s.CblkNbr() && 0 <= j < w.x.sptcbnb[i]
    requires 0 <= NewNum(w.x, i) + j < NewNum(w.x, n)
    ensures AllPieces(w, n)[NewNum(w.x, i) + j] == Pieces(w, i)[j]
    decreases n
  {
    hide Pieces;
    if i < n - 1 {
      NewNumOrder(w, i, n - 1);
      AtNewPiece(w, n - 1, i, j);
    }
  }

  lemma {:induction false} AtNewColumn(w: Split, n: int, i: int, j: int)
    requires 0 <= i < n <= w.s.CblkNbr() && 0 <= j < w.x.sptcbnb[i]
    requires 0 <= NewNum(w.x, i) + j < NewNum(w.x, n)
    ensures AllColumns(w, n)[NewNum(w.x, i) + j] == Column(w, i, j)
    decreases n
  {
    hide Column, Columns;
    if i < n - 1 {
      NewNumOrder(w, i, n - 1);
      AtNewColumn(w, n - 1, i, j);
    } else {
      ColumnsAt(w, i, w.x.sptcbnb[i], j);
    }
  }

  /** The blocks of the first `q` columns, one after the other. */
  ghost function Flat(cols: seq<seq<Blok>>): seq<Blok> {
    if cols == [] then [] else Flat(cols[..|cols| - 1]) + cols[|cols| - 1]
  }

  lemma {:induction false} FlatAppend(a: seq<seq<Blok>>, b: seq<seq<Blok>>)
    ensures Flat(a + b) == Flat(a) + Flat(b)
  {
    if b == [] {
      assert a + b == a;
    } else {
      var n := |b| - 1;
      FlatAppend(a, b[..n]);
      assert (a + b)[..|a + b| - 1] == a + b[..n];
    }
  }

  /** Column `q` occupies its own range of the flattened blocks. */
  lemma {:induction false} FlatAt(cols: seq<seq<Blok>>, q: int)
    requires 0 <= q < |cols|
    ensures |Flat(cols[..q])| + |cols[q]| == |Flat(cols[..q + 1])| <= |Flat(cols)|
    ensures Flat(cols)[|Flat(cols[..q])|..|Flat(cols[..q + 1])|] == cols[q]
  {
    assert cols[..q + 1][..q] == cols[..q];
    assert cols == cols[..q + 1] + cols[q + 1..];
    FlatAppend(cols[..q + 1], cols[q + 1..]);
  }

  /** A symbol from its column blocks and the blocks of each: every column block
      gets the index of its first block, and one extra entry closes the table. */
  ghost function Assemble(pieces: seq<Cblk>, cols: seq<seq<Blok>>): SymbolMatrix
    requires |pieces| == |cols|
  {
    SymbolMatrix(seq(|cols| + 1, q requires 0 <= q <= |cols| => AssembledCblk(pieces, cols, q)), Flat(cols))
  }

  ghost function AssembledCblk(pieces: seq<Cblk>, cols: seq<seq<Blok>>, q: int): Cblk
    requires 0 <= q <= |pieces| == |cols|
  {
    if q < |pieces| then Cblk(pieces[q].fcolnum, pieces[q].lcolnum, |Flat(cols[..q])|)
    else
      var last := if q == 0 then -1 else pieces[q - 1].lcolnum;
      Cblk(last + 1, last + 1, |Flat(cols)|)
  }

  /** The merged symbol. */
  ghost function Merged(w: Split): SymbolMatrix {
    Assemble(AllPieces(w, w.s.CblkNbr()), AllColumns(w, w.s.CblkNbr()))
  }
}
