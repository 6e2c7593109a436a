/** The symbol matrix shared by every analysis step: column blocks, each owning
    a run of row blocks in `bloktab`, the first of which is its diagonal block. */
module Symbol {

  datatype Cblk = Cblk(fcolnum: int, lcolnum: int, bloknum: int)

  datatype Blok = Blok(frownum: int, lrownum: int, lcblknm: int, fcblknm: int)

  /** `cblktab` carries one extra entry closing the last column block. */
  datatype SymbolMatrix = SymbolMatrix(cblktab: seq<Cblk>, bloktab: seq<Blok>) {

    function CblkNbr(): int {
      |cblktab| - 1
    }

    /** First block of column block `i`: its diagonal block. */
    function First(i: int): int
      requires 0 <= i < |cblktab|
    {
      cblktab[i].bloknum
    }

    /** One past the last block of column block `i`. */
    function End(i: int): int
      requires 0 <= i < CblkNbr()
    {
      cblktab[i + 1].bloknum
    }

    /** Column block `i + 1` starts where column block `i` ends. */
    ghost predicate Abut(i: int)
      requires 0 <= i < CblkNbr()
    {
      cblktab[i + 1].fcolnum == cblktab[i].lcolnum + 1
    }

    ghost predicate AllBounded() {
      forall i :: 0 <= i < CblkNbr() ==> 0 <= First(i) < End(i) <= |bloktab|
    }

    ghost predicate CblksTile() {
      && |cblktab| >= 1
      && cblktab[0].fcolnum == 0
      && cblktab[0].bloknum == 0
      && cblktab[CblkNbr()].bloknum == |bloktab|
      && (forall i {:trigger cblktab[i].lcolnum} :: 0 <= i < CblkNbr() ==> cblktab[i].fcolnum <= cblktab[i].lcolnum)
      && (forall i :: 0 <= i < CblkNbr() ==> Abut(i))
      && AllBounded()
    }

    /** Block `j` lies in its column block, and inside the column block it faces. */
    ghost predicate BlokPlaced(j: int)
      requires 0 <= j < |bloktab|
    {
      var b := bloktab[j];
      && 0 <= b.lcblknm <= b.fcblknm < CblkNbr()
      && First(b.lcblknm) <= j < End(b.lcblknm)
      && (b.fcblknm == b.lcblknm <==> j == First(b.lcblknm))
      && cblktab[b.fcblknm].fcolnum <= b.frownum <= b.lrownum <= cblktab[b.fcblknm].lcolnum
      && (j == First(b.lcblknm) ==>
            b.frownum == cblktab[b.lcblknm].fcolnum && b.lrownum == cblktab[b.lcblknm].lcolnum)
    }

    ghost predicate Valid() {
      && CblksTile()
      && (forall j :: 0 <= j < |bloktab| ==> BlokPlaced(j))
      && (forall i, j {:trigger First(i), bloktab[j].lcblknm} ::
            0 <= i < CblkNbr() && First(i) <= j < End(i) ==> bloktab[j].lcblknm == i)
      && (forall j, k {:trigger bloktab[j].lrownum, bloktab[k].frownum} ::
            0 <= j < k < |bloktab| && bloktab[j].lcblknm == bloktab[k].lcblknm ==>
              bloktab[j].lrownum < bloktab[k].frownum)
    }

    /** Blocks `j` and `k` form an update: both off-diagonal, of one column block, `k` at or below `j`. */
    ghost predicate Pair(j: int, k: int) {
      && 0 <= j <= k < |bloktab|
      && bloktab[j].lcblknm == bloktab[k].lcblknm
      && bloktab[j].fcblknm != bloktab[j].lcblknm
    }

    /** The rows of block `k` are rows of block `b`. */
    predicate Inside(k: int, b: int)
      requires 0 <= k < |bloktab| && 0 <= b < |bloktab|
    {
      bloktab[b].frownum <= bloktab[k].frownum && bloktab[k].lrownum <= bloktab[b].lrownum
    }

    /** Every update lands in one block of the faced column block. */
    ghost predicate FillClosed() {
      forall j, k :: Pair(j, k) ==> exists b :: Receives(j, k, b)
    }

    ghost predicate Receives(j: int, k: int, b: int) {
      && 0 <= j < |bloktab| && 0 <= k < |bloktab| && 0 <= b < |bloktab|
      && bloktab[b].lcblknm == bloktab[j].fcblknm
      && Inside(k, b)
    }

    /** First block at or after `b`, below `hi`, whose last row reaches `row`. */
    ghost function Search(b: int, hi: int, row: int): (r: int)
      requires 0 <= b <= hi <= |bloktab|
      ensures b <= r <= hi
      ensures forall x :: b <= x < r ==> bloktab[x].lrownum < row
      ensures r < hi ==> bloktab[r].lrownum >= row
      decreases hi - b
    {
      if b == hi || bloktab[b].lrownum >= row then b else Search(b + 1, hi, row)
    }

    /** The block that receives the update of blocks `j` and `k`. */
    ghost function Face(j: int, k: int): int {
      if 0 <= j < |bloktab| && 0 <= k < |bloktab| && Bounded(bloktab[j].fcblknm)
      then Search(First(bloktab[j].fcblknm), End(bloktab[j].fcblknm), bloktab[k].frownum)
      else -1
    }

    /** Column block `i` exists and its blocks do. */
    ghost predicate Bounded(i: int) {
      0 <= i < CblkNbr() && 0 <= First(i) < End(i) <= |bloktab|
    }
  }

  /** Well-formed symbols. */
  type Symb = s: SymbolMatrix | s.Valid() witness SymbolMatrix([Cblk(0, 0, 0)], [])

  /** Well-formed symbols that are closed under fill. */
  type FilledSymb = s: SymbolMatrix | s.Valid() && s.FillClosed() witness SymbolMatrix([Cblk(0, 0, 0)], [])

  lemma {:induction false} CblkOrder(s: Symb, i: int, k: int)
    requires 0 <= i < k < s.CblkNbr()
    ensures s.cblktab[i].lcolnum < s.cblktab[k].fcolnum
    decreases k
  {
    assert s.Abut(k - 1);
    if i < k - 1 {
      CblkOrder(s, i, k - 1);
    }
  }

  /** On a symbol closed under fill the search finds the block holding the update:
      there is one, and (`FaceIsReceiver`) no other. */
  lemma FaceReceives(s: FilledSymb, j: int, k: int)
    requires s.Pair(j, k)
    ensures s.BlokPlaced(j) && 0 <= s.Face(j, k) < |s.bloktab|
    ensures s.First(s.bloktab[j].fcblknm) <= s.Face(j, k) < s.End(s.bloktab[j].fcblknm)
    ensures s.bloktab[s.Face(j, k)].lcblknm == s.bloktab[j].fcblknm && s.Inside(k, s.Face(j, k))
  {
    var b :| s.Receives(j, k, b);
    FaceIsReceiver(s, j, k, b);
  }

  lemma FaceIsReceiver(s: Symb, j: int, k: int, b: int)
    requires s.Receives(j, k, b)
    ensures s.BlokPlaced(j) && s.First(s.bloktab[j].fcblknm) <= b < s.End(s.bloktab[j].fcblknm)
    ensures b == s.Face(j, k)
  {
    assert s.BlokPlaced(j) && s.BlokPlaced(k) && s.BlokPlaced(b);
    var r := s.Face(j, k);
    assert r <= b;
    assert s.BlokPlaced(r);
  }

  lemma FaceMonotone(s: FilledSymb, j: int, k: int, l: int)
    requires s.Pair(j, k) && s.Pair(j, l) && k <= l
    ensures s.Face(j, k) <= s.Face(j, l)
  {
    FaceReceives(s, j, k);
    FaceReceives(s, j, l);
    if k < l {
      assert s.BlokPlaced(k);
    }
  }

  /** The facing-block search: any start at or before the answer gives the answer. */
  method GetFacingBloknum(s: FilledSymb, bloksrc: int, bloknum: int, startsearch: int) returns (i: int)
    requires s.Pair(bloksrc, bloknum)
    requires startsearch <= s.Face(bloksrc, bloknum)
    ensures i == s.Face(bloksrc, bloknum)
  {
    FaceReceives(s, bloksrc, bloknum);
    assert s.BlokPlaced(bloksrc);
    var fcblknum := s.bloktab[bloksrc].fcblknm;
    var fbloknum := s.First(fcblknum);
    var lbloknum := s.End(fcblknum);
    i := if startsearch < fbloknum then fbloknum else startsearch;
    while i < lbloknum
      invariant fbloknum <= i <= s.Face(bloksrc, bloknum)
    {
      if s.bloktab[i].lrownum >= s.bloktab[bloknum].frownum {
        break;
      }
      i := i + 1;
    }
  }
}
