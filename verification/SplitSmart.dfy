/** Choosing the cuts: each wide column block is cut into pieces of bounded width,
    where the fewest blocks cross, and recorded in a growable table. */
module SplitSmart {
  import opened Symbol
  import opened SplitSpec
  import opened SplitCuts
  import opened SplitTheorems

  ghost function Same(v: int, n: nat): (r: seq<int>)
    ensures |r| == n && forall i :: 0 <= i < n ==> r[i] == v
  {
    if n == 0 then [] else Same(v, n - 1) + [v]
  }

  /** Pieces of split column blocks; nothing is allocated before the first one. */
  class ExtraTable {
    const cblknbr: nat
    var addcblk: int
    var curcblk: int
    var sizcblk: int
    var sptcblk: array<int>
    var sptcbnb: array<int>
    var cblktab: array<Cblk>

    ghost predicate Valid()
      reads this
    {
      if sizcblk == 0 then curcblk == -1
      else
        && sptcblk.Length == sptcbnb.Length == cblknbr && sptcblk != sptcbnb
        && -1 <= curcblk < sizcblk <= cblktab.Length
    }

    /** The table as the merge reads it. */
    ghost function Table(): ExtraCblk
      requires Valid()
      reads this, sptcblk, sptcbnb, cblktab
    {
      if sizcblk == 0 then ExtraCblk(addcblk, Same(-1, cblknbr), Same(1, cblknbr), [])
      else ExtraCblk(addcblk, sptcblk[..], sptcbnb[..], cblktab[..curcblk + 1])
    }

    constructor Init(n: nat)
      ensures Valid() && cblknbr == n && Table() == ExtraCblk(0, Same(-1, n), Same(1, n), [])
      ensures fresh(sptcblk) && fresh(sptcbnb) && fresh(cblktab)
    {
      cblknbr, addcblk, curcblk, sizcblk := n, 0, -1, 0;
      sptcblk, sptcbnb := new int[0], new int[0];
      cblktab := new Cblk[0](_ => Cblk(0, 0, 0));
    }

    method Alloc()
      requires Valid() && sizcblk == 0 && cblknbr >= 1
      modifies this
      ensures Valid() && sizcblk > 0 && Table() == old(Table()) && curcblk == -1
      ensures fresh(sptcblk) && fresh(sptcbnb) && fresh(cblktab)
    {
      sptcblk := new int[cblknbr](_ => -1);
      sptcbnb := new int[cblknbr](_ => 1);
      sizcblk := (cblknbr + 20) / 20;
      cblktab := new Cblk[cblknbr](_ => Cblk(0, 0, 0));
      assert sptcblk[..] == Same(-1, cblknbr) && sptcbnb[..] == Same(1, cblknbr);
    }

    /** Place for one more piece, growing the table by 5% of the column blocks when full. */
    method Inc() returns (cur: int)
      requires Valid() && cblknbr >= 1
      modifies this
      ensures Valid() && cur == curcblk == old(curcblk) + 1 && sizcblk > 0 && addcblk == old(addcblk)
      ensures sptcblk == old(sptcblk) || fresh(sptcblk)
      ensures sptcbnb == old(sptcbnb) || fresh(sptcbnb)
      ensures cblktab == old(cblktab) || fresh(cblktab)
      ensures sptcblk[..] == old(Table()).sptcblk && sptcbnb[..] == old(Table()).sptcbnb
      ensures cblktab[..cur] == old(Table()).cblktab
    {
      if sizcblk == 0 {
        Alloc();
      }
      curcblk := curcblk + 1;
      if curcblk >= sizcblk {
        var extrasize := (cblknbr + 20) / 20;
        assert curcblk == sizcblk;
        var tmp := cblktab;
        sizcblk := sizcblk + extrasize;
        cblktab := new Cblk[sizcblk](k requires 0 <= k reads tmp => if k < tmp.Length then tmp[k] else Cblk(0, 0, 0));
        assert cblktab[..curcblk] == tmp[..curcblk];
      }
      cur := curcblk;
    }

    method Add(fcolnum: int, lcolnum: int)
      requires Valid() && cblknbr >= 1
      modifies this, cblktab
      ensures Valid() && sizcblk > 0
      ensures sptcblk == old(sptcblk) || fresh(sptcblk)
      ensures sptcbnb == old(sptcbnb) || fresh(sptcbnb)
      ensures cblktab == old(cblktab) || fresh(cblktab)
      ensures Table() == old(Table()).(cblktab := old(Table()).cblktab + [Cblk(fcolnum, lcolnum, -1)])
    {
      var cur := Inc();
      cblktab[cur] := Cblk(fcolnum, lcolnum, -1);
    }

    /** The table handed to the merge. */
    method Entries() returns (x: ExtraCblk)
      requires Valid()
      ensures x == Table()
    {
      if sizcblk == 0 {
        x := ExtraCblk(addcblk, seq(cblknbr, _ => -1), seq(cblknbr, _ => 1), []);
      } else {
        x := ExtraCblk(addcblk, sptcblk[..], sptcbnb[..], cblktab[..curcblk + 1]);
      }
    }

    /** Column block `cblknum` is replaced by the last `nbcblk` pieces. */
    method Mark(cblknum: int, nbcblk: int)
      requires Valid() && sizcblk > 0 && 0 <= cblknum < cblknbr
      modifies this`addcblk, sptcblk, sptcbnb
      ensures Valid()
      ensures var x := old(Table()); Table() == ExtraCblk(x.addcblk + nbcblk - 1,
        x.sptcblk[cblknum := |x.cblktab| - nbcblk], x.sptcbnb[cblknum := nbcblk], x.cblktab)
    {
      addcblk := addcblk + (nbcblk - 1);
      sptcblk[cblknum] := curcblk - nbcblk + 1;
      sptcbnb[cblknum] := nbcblk;
    }
  }

  // ----- blocks crossed by a cut -----

  /** Blocks of the symbol, cut as `cnt` tells, among the first `j` that hold both rows
      `line` and `line + 1`. */
  ghost function Crossing(s: Symb, cnt: seq<int>, line: int, j: int): int
    requires |cnt| == s.CblkNbr() && 0 <= j <= |s.bloktab|
  {
    if j == 0 then 0 else Crossing(s, cnt, line, j - 1) + CrossOne(s, cnt, line, j - 1)
  }

  ghost function CrossOne(s: Symb, cnt: seq<int>, line: int, j: int): int
    requires |cnt| == s.CblkNbr() && 0 <= j < |s.bloktab|
  {
    assert s.BlokPlaced(j);
    var b := s.bloktab[j];
    if b.frownum <= line < b.lrownum then (if b.lcblknm == b.fcblknm then 1 else cnt[b.lcblknm]) else 0
  }

  /** Entry `k` counts the blocks crossed below row `first + k`. */
  ghost predicate LineCounts(s: Symb, cnt: seq<int>, first: int, nb: seq<int>) {
    && |cnt| == s.CblkNbr() && 0 <= first && first + |nb| == Rows(s) + 1
    && forall k :: 0 <= k < |nb| ==> nb[k] == Crossing(s, cnt, first + k, |s.bloktab|)
  }

  function Rows(s: Symb): int {
    s.cblktab[s.CblkNbr()].fcolnum
  }

  lemma BlokInRows(s: Symb, j: int)
    requires 0 <= j < |s.bloktab|
    ensures 0 <= s.bloktab[j].frownum <= s.bloktab[j].lrownum < Rows(s)
  {
    assert s.BlokPlaced(j);
    var f := s.bloktab[j].fcblknm;
    CblkInRows(s, f);
  }

  lemma CblkInRows(s: Symb, f: int)
    requires 0 <= f < s.CblkNbr()
    ensures 0 <= s.cblktab[f].fcolnum <= s.cblktab[f].lcolnum < Rows(s)
  {
    if f > 0 {
      CblkOrder(s, 0, f);
    }
    var n := s.CblkNbr();
    assert s.Abut(n - 1);
    if f < n - 1 {
      CblkOrder(s, f, n - 1);
    }
  }

  /** One block seen by the counting pass. */
  method CountBlok(s: Symb, frowsplit: int, nb: array<int>, bloknum: int, ghost cnt: seq<int>)
    requires 0 <= bloknum < |s.bloktab| && 0 <= frowsplit && frowsplit + nb.Length == Rows(s) + 1
    requires |cnt| == s.CblkNbr() && forall i :: 0 <= i < |cnt| ==> cnt[i] == 1
    modifies nb
    ensures forall k :: 0 <= k < nb.Length ==> nb[k] == old(nb[k]) + CrossOne(s, cnt, frowsplit + k, bloknum)
  {
    BlokInRows(s, bloknum);
    assert s.BlokPlaced(bloknum);
    var curblok := s.bloktab[bloknum];
    if curblok.lrownum < frowsplit {
      return;
    }
    var first := Max(curblok.frownum, frowsplit);
    for line := first to Max(curblok.lrownum, first)
      invariant forall k :: 0 <= k < nb.Length ==>
        nb[k] == old(nb[k]) + (if first <= frowsplit + k < line then 1 else 0)
    {
      nb[line - frowsplit] := nb[line - frowsplit] + 1;
    }
  }

  /** Number of blocks crossed by a cut below each row, before any split. */
  method NbBlocksPerLine(s: Symb, frowsplit: int, ghost cnt: seq<int>) returns (nb: array<int>)
    requires 0 <= frowsplit < Rows(s)
    requires |cnt| == s.CblkNbr() && forall i :: 0 <= i < |cnt| ==> cnt[i] == 1
    ensures fresh(nb) && LineCounts(s, cnt, frowsplit, nb[..])
  {
    hide CrossOne;
    var size := Rows(s) - frowsplit + 1;
    nb := new int[size](_ => 0);
    for bloknum := 0 to |s.bloktab|
      invariant forall k :: 0 <= k < nb.Length ==> nb[k] == Crossing(s, cnt, frowsplit + k, bloknum)
    {
      CountBlok(s, frowsplit, nb, bloknum, cnt);
    }
    NoneCrossesLast(s, cnt, |s.bloktab|);
    assert nb[size - 1] == 0;
  }

  lemma {:induction false} NoneCrossesLast(s: Symb, cnt: seq<int>, j: int)
    requires |cnt| == s.CblkNbr() && 0 <= j <= |s.bloktab|
    ensures Crossing(s, cnt, Rows(s), j) == 0
  {
    if j > 0 {
      NoneCrossesLast(s, cnt, j - 1);
      BlokInRows(s, j - 1);
    }
  }

  /** Off-diagonal blocks of column block `i` below `j`, that hold both rows. */
  ghost function OffCrossing(s: Symb, i: int, line: int, j: int): int
    requires 0 <= j <= |s.bloktab|
  {
    if j == 0 then 0 else OffCrossing(s, i, line, j - 1) + OffCrossOne(s, i, line, j - 1)
  }

  ghost function OffCrossOne(s: Symb, i: int, line: int, j: int): int
    requires 0 <= j < |s.bloktab|
  {
    var b := s.bloktab[j];
    if b.lcblknm == i != b.fcblknm && b.frownum <= line < b.lrownum then 1 else 0
  }

  lemma CrossOneSplit(s: Symb, cnt: seq<int>, i: int, v: int, line: int, j: int)
    requires |cnt| == s.CblkNbr() && 0 <= i < |cnt| && 0 <= j < |s.bloktab|
    ensures CrossOne(s, cnt[i := v], line, j) == CrossOne(s, cnt, line, j) + (v - cnt[i]) * OffCrossOne(s, i, line, j)
  {
    assert s.BlokPlaced(j);
    var d := v - cnt[i];
    assert d * 0 == 0 && d * 1 == d;
  }

  /** Splitting column block `i` adds to each of its off-diagonal blocks. */
  lemma {:induction false} CrossingSplit(s: Symb, cnt: seq<int>, i: int, v: int, line: int, j: int)
    requires |cnt| == s.CblkNbr() && 0 <= i < |cnt| && 0 <= j <= |s.bloktab|
    ensures Crossing(s, cnt[i := v], line, j) == Crossing(s, cnt, line, j) + (v - cnt[i]) * OffCrossing(s, i, line, j)
  {
    hide CrossOne, OffCrossOne;
    if j > 0 {
      CrossingSplit(s, cnt, i, v, line, j - 1);
      CrossOneSplit(s, cnt, i, v, line, j - 1);
      Distribute(v - cnt[i], OffCrossing(s, i, line, j - 1), OffCrossOne(s, i, line, j - 1));
    }
  }

  lemma Distribute(d: int, x: int, y: int)
    ensures d * (x + y) == d * x + d * y
  {
  }

  /** Blocks before `First(i) + 1` or from `End(i)` on are not off-diagonal blocks of `i`. */
  lemma {:induction false} OffCrossingRange(s: Symb, i: int, line: int, j: int)
    requires 0 <= i < s.CblkNbr() && 0 <= j <= |s.bloktab|
    ensures j <= s.First(i) + 1 ==> OffCrossing(s, i, line, j) == 0
    ensures j >= s.End(i) ==> OffCrossing(s, i, line, j) == OffCrossing(s, i, line, s.End(i))
    decreases j
  {
    assert s.Bounded(i);
    if j > 0 && (j <= s.First(i) + 1 || j > s.End(i)) {
      OffCrossingRange(s, i, line, j - 1);
      assert s.BlokPlaced(j - 1);
    }
  }

  /** One off-diagonal block of a column block just split into `1 + d` pieces. */
  method AddBlok(s: Symb, first: int, nb: array<int>, bloknum: int, d: int)
    requires 0 <= bloknum < |s.bloktab| && 0 <= first <= s.bloktab[bloknum].frownum && first + nb.Length == Rows(s) + 1
    modifies nb
    ensures forall k :: 0 <= k < nb.Length ==>
      nb[k] == old(nb[k]) + (if s.bloktab[bloknum].frownum <= first + k < s.bloktab[bloknum].lrownum then d else 0)
  {
    BlokInRows(s, bloknum);
    var curblok := s.bloktab[bloknum];
    for line := curblok.frownum to curblok.lrownum
      invariant forall k :: 0 <= k < nb.Length ==>
        nb[k] == old(nb[k]) + (if curblok.frownum <= first + k < line then d else 0)
    {
      nb[line - first] := nb[line - first] + d;
    }
  }

  /** What `d` more pieces of column block `i` add to entry `k`, from the blocks below `j`. */
  ghost function Added(s: Symb, i: int, first: int, k: int, j: int, d: int): int
    requires 0 <= j <= |s.bloktab|
  {
    d * OffCrossing(s, i, first + k, j)
  }

  lemma AddedNone(s: Symb, i: int, first: int, n: int, j: int, d: int)
    requires 0 <= i < s.CblkNbr() && 0 <= j <= |s.bloktab| && j <= s.First(i) + 1
    ensures forall k :: 0 <= k < n ==> Added(s, i, first, k, j, d) == 0
  {
    forall k | 0 <= k < n
      ensures Added(s, i, first, k, j, d) == 0
    {
      OffCrossingRange(s, i, first + k, j);
    }
  }

  lemma AddedNext(s: Symb, i: int, first: int, n: int, j: int, d: int)
    requires 0 <= j < |s.bloktab| && s.bloktab[j].lcblknm == i != s.bloktab[j].fcblknm
    ensures forall k {:trigger Added(s, i, first, k, j, d)} {:trigger Added(s, i, first, k, j + 1, d)} :: 0 <= k < n ==>
      Added(s, i, first, k, j + 1, d) == Added(s, i, first, k, j, d)
        + (if s.bloktab[j].frownum <= first + k < s.bloktab[j].lrownum then d else 0)
  {
    hide OffCrossing;
    forall k {:trigger Added(s, i, first, k, j, d)} {:trigger Added(s, i, first, k, j + 1, d)} | 0 <= k < n
      ensures Added(s, i, first, k, j + 1, d) == Added(s, i, first, k, j, d)
        + (if s.bloktab[j].frownum <= first + k < s.bloktab[j].lrownum then d else 0)
    {
      OffCrossingNext(s, i, first + k, j, d);
    }
  }

  /** The counts once column block `i` is split into `nbcblk` pieces. */
  method UpdateLines(s: Symb, first: int, nb: array<int>, i: int, nbcblk: int, ghost cnt: seq<int>)
    requires 0 <= i < s.CblkNbr() && LineCounts(s, cnt, first, nb[..]) && cnt[i] == 1
    requires first <= s.cblktab[i].fcolnum
    modifies nb
    ensures LineCounts(s, cnt[i := nbcblk], first, nb[..])
  {
    hide Crossing, OffCrossing, Added;
    ghost var was := nb[..];
    assert s.Bounded(i);
    AddedNone(s, i, first, nb.Length, s.First(i) + 1, nbcblk - 1);
    for bloknum := s.cblktab[i].bloknum + 1 to s.cblktab[i + 1].bloknum
      invariant forall k :: 0 <= k < nb.Length ==> nb[k] == was[k] + Added(s, i, first, k, bloknum, nbcblk - 1)
    {
      OffBlok(s, i, bloknum);
      AddBlok(s, first, nb, bloknum, nbcblk - 1);
      AddedNext(s, i, first, nb.Length, bloknum, nbcblk - 1);
    }
    forall k | 0 <= k < nb.Length
      ensures nb[..][k] == Crossing(s, cnt[i := nbcblk], first + k, |s.bloktab|)
    {
      AddedAll(s, cnt, i, first, k, nbcblk);
    }
  }

  lemma AddedAll(s: Symb, cnt: seq<int>, i: int, first: int, k: int, v: int)
    requires |cnt| == s.CblkNbr() && 0 <= i < |cnt| && cnt[i] == 1
    ensures s.Bounded(i)
    ensures Crossing(s, cnt[i := v], first + k, |s.bloktab|)
         == Crossing(s, cnt, first + k, |s.bloktab|) + Added(s, i, first, k, s.End(i), v - 1)
  {
    OffCrossingRange(s, i, first + k, |s.bloktab|);
    CrossingSplit(s, cnt, i, v, first + k, |s.bloktab|);
  }

  lemma OffBlok(s: Symb, i: int, j: int)
    requires 0 <= i < s.CblkNbr() && s.First(i) < j < s.End(i)
    ensures 0 <= j < |s.bloktab| && s.bloktab[j].lcblknm == i != s.bloktab[j].fcblknm
    ensures s.cblktab[i].fcolnum <= s.bloktab[j].frownum
  {
    assert s.Bounded(i);
    assert s.BlokPlaced(j);
    CblkOrder(s, i, s.bloktab[j].fcblknm);
  }

  lemma OffCrossingNext(s: Symb, i: int, line: int, j: int, d: int)
    requires 0 <= j < |s.bloktab| && s.bloktab[j].lcblknm == i != s.bloktab[j].fcblknm
    ensures d * OffCrossing(s, i, line, j + 1) == d * OffCrossing(s, i, line, j)
      + (if s.bloktab[j].frownum <= line < s.bloktab[j].lrownum then d else 0)
  {
    Distribute(d, OffCrossing(s, i, line, j), OffCrossOne(s, i, line, j));
  }

  // ----- cutting -----

  ghost predicate PieceOK(b: Widths, c: Cblk) {
    b.blcolmin <= c.lcolnum - c.fcolnum + 1 <= WidestPiece(b)
  }

  ghost predicate PiecesOK(b: Widths, p: seq<Cblk>) {
    forall k :: 0 <= k < |p| ==> PieceOK(b, p[k])
  }

  /** Cuts among which `fct` picks, with `width` columns left: the only one is the last
      allowed when the step is not below it. */
  ghost predicate Considered(fct: SplitFct, b: Widths, width: int, i: int)
    requires b.blcolmax > 0 && NbSplit(b, width) > 0
  {
    var step, max := Iceil(width, NbSplit(b, width)), width - b.blcolmin;
    var limit := Iceil(step * b.percent, 100);
    if step >= max then i == max - 1 else
    match fct
    case Smallest => InWindow(step, b.blcolmin, max, limit, i)
    case SmallestMax =>
      var lmin := SplitSpec.Max(step - 1 - limit, b.blcolmin);
      lmin <= i < SplitSpec.Max(SplitSpec.Min(step + limit, max), lmin + 1)
    case Constant => i == step - 1
  }

  /** Which of two equally good cuts is taken. */
  ghost predicate TakenFirst(fct: SplitFct, b: Widths, width: int, lcol: int, i: int)
    requires b.blcolmax > 0 && NbSplit(b, width) > 0
  {
    match fct
    case Smallest => MetFirst(Iceil(width, NbSplit(b, width)), lcol, i)
    case SmallestMax => i <= lcol
    case Constant => true
  }

  /** With `width` columns left, `lcol` is the cut considered that crosses fewest blocks, and
      the one taken first among those. */
  ghost predicate BestCut(fct: SplitFct, b: Widths, width: int, nb: seq<int>, lcol: int) {
    && b.blcolmax > 0 && NbSplit(b, width) > 0 && 0 <= lcol < |nb| && Considered(fct, b, width, lcol)
    && forall i :: 0 <= i < |nb| && Considered(fct, b, width, i) ==>
      nb[lcol] <= nb[i] && (nb[lcol] == nb[i] ==> TakenFirst(fct, b, width, lcol, i))
  }

  /** The same of a piece of a column block that ends at `lcolnum`, on the blocks of the
      symbol; the last piece takes all the columns left. */
  ghost predicate PieceBest(s: Symb, cnt: seq<int>, fct: SplitFct, b: Widths, c: Cblk, lcolnum: int)
    requires |cnt| == s.CblkNbr()
  {
    var width := lcolnum - c.fcolnum + 1;
    && b.blcolmax > 0 && NbSplit(b, width) > 0
    && (width <= b.blcolmax ==> c.lcolnum == lcolnum)
    && (width > b.blcolmax ==> Considered(fct, b, width, c.lcolnum - c.fcolnum))
    && (forall i :: width > b.blcolmax && 0 <= i < width && Considered(fct, b, width, i) ==>
          var here, there := Crossing(s, cnt, c.lcolnum, |s.bloktab|), Crossing(s, cnt, c.fcolnum + i, |s.bloktab|);
          here <= there && (here == there ==> TakenFirst(fct, b, width, c.lcolnum - c.fcolnum, i)))
  }

  ghost predicate PiecesBest(s: Symb, cnt: seq<int>, fct: SplitFct, b: Widths, p: seq<Cblk>, lcolnum: int)
    requires |cnt| == s.CblkNbr()
  {
    forall k :: 0 <= k < |p| ==> PieceBest(s, cnt, fct, b, p[k], lcolnum)
  }

  lemma BestOnSymbol(s: Symb, cnt: seq<int>, first: int, nb: seq<int>, fct: SplitFct, b: Widths, fcol: int, lcol: int,
          lcolnum: int)
    requires LineCounts(s, cnt, first, nb) && 0 <= first <= fcol <= lcol <= lcolnum && lcolnum - first < |nb|
    requires BestCut(fct, b, lcolnum - fcol + 1, nb[fcol - first..], lcol - fcol) && lcolnum - fcol + 1 > b.blcolmax
    ensures PieceBest(s, cnt, fct, b, Cblk(fcol, lcol, -1), lcolnum)
  {
    hide Considered, TakenFirst, Crossing, NbSplit;
    var view := nb[fcol - first..];
    var width := lcolnum - fcol + 1;
    forall i | 0 <= i < width && Considered(fct, b, width, i)
      ensures var here, there := Crossing(s, cnt, lcol, |s.bloktab|), Crossing(s, cnt, fcol + i, |s.bloktab|);
        here <= there && (here == there ==> TakenFirst(fct, b, width, lcol - fcol, i))
    {
      assert view[lcol - fcol] == nb[lcol - first] && view[i] == nb[fcol - first + i];
    }
  }

  lemma CutFits(b: Widths, width: int, step: int, lcol: int)
    requires WidthsOK(b) && 1 <= step <= b.blcolmax && CutOK(b, step, width - b.blcolmin, lcol)
    ensures b.blcolmin <= lcol + 1 <= WidestPiece(b) && width - (lcol + 1) >= b.blcolmin
  {
    CeilMonotone(step, b.blcolmax, b.percent);
    CeilMonotone(0, b.blcolmax, b.percent);
  }

  lemma TilesMore(p: seq<Cblk>, f: int, c: Cblk)
    requires c.fcolnum <= c.lcolnum && (if p == [] then c.fcolnum == f else Tiles(p, f, c.fcolnum - 1))
    ensures Tiles(p + [c], f, c.lcolnum)
  {
    var q := p + [c];
    forall k | 0 <= k < |q| - 1
      ensures Abut(q, k)
    {
      assert k < |p| - 1 ==> Abut(p, k);
    }
  }

  /** Last column of the next piece, counted from its first. */
  method ChooseCut(fct: SplitFct, nb: seq<int>, width: int, b: Widths) returns (lcol: int)
    requires WidthsOK(b) && width > b.blcolmax && |nb| >= width - b.blcolmin
    ensures b.blcolmin <= lcol + 1 <= WidestPiece(b) && width - (lcol + 1) >= b.blcolmin
    ensures BestCut(fct, b, width, nb, lcol)
  {
    hide NbSplit, Iceil, WidestPiece;
    StepBounds(b, width);
    var nseq := NbSplit(b, width);
    var step := Iceil(width, nseq);
    assert step >= b.blcolmin;
    var lwidth := width - b.blcolmin;
    assert lwidth > b.blcolmin;
    match fct {
      case Smallest => lcol := SmallestSplit(nb, step, lwidth, b);
      case SmallestMax => lcol := SmallestSplitMax(nb, step, lwidth, b);
      case Constant => lcol := ConstantSplit(step, lwidth, b);
    }
    CutFits(b, width, step, lcol);
  }

  /** A piece cut regularly: all the columns left when they fit, else an equal share of them
      that leaves enough for one more piece. */
  ghost predicate ConstantWidth(b: Widths, c: Cblk, lcolnum: int) {
    var left := lcolnum - c.fcolnum + 1;
    b.blcolmax > 0 && NbSplit(b, left) > 0 && c.lcolnum - c.fcolnum + 1 ==
      if left <= b.blcolmax then left else SplitSpec.Min(Iceil(left, NbSplit(b, left)), left - b.blcolmin)
  }

  lemma ConstantPieces(s: Symb, cnt: seq<int>, b: Widths, p: seq<Cblk>, lcolnum: int)
    requires |cnt| == s.CblkNbr() && PiecesBest(s, cnt, Constant, b, p, lcolnum)
    ensures forall k :: 0 <= k < |p| ==> ConstantWidth(b, p[k], lcolnum)
  {
    hide NbSplit, Iceil, Crossing;
    forall k | 0 <= k < |p|
      ensures ConstantWidth(b, p[k], lcolnum)
    {
      assert PieceBest(s, cnt, Constant, b, p[k], lcolnum);
    }
  }

  /** One more piece keeps what is known of the others. */
  lemma PieceAdded(s: Symb, cnt: seq<int>, fct: SplitFct, b: Widths, p: seq<Cblk>, f: int, c: Cblk, lcolnum: int)
    requires |cnt| == s.CblkNbr() && PiecesOK(b, p) && PiecesBest(s, cnt, fct, b, p, lcolnum)
    requires PieceOK(b, c) && PieceBest(s, cnt, fct, b, c, lcolnum)
    requires c.fcolnum <= c.lcolnum && (if p == [] then c.fcolnum == f else Tiles(p, f, c.fcolnum - 1))
    ensures Tiles(p + [c], f, c.lcolnum) && PiecesOK(b, p + [c]) && PiecesBest(s, cnt, fct, b, p + [c], lcolnum)
  {
    hide PieceOK, PieceBest;
    TilesMore(p, f, c);
  }

  /** Last column of the piece starting at `fcol`: everything left when it fits. */
  method NextPiece(fcol: int, lcolnum: int, nb: array<int>, first: int, fct: SplitFct, b: Widths, ghost s: Symb,
          ghost cnt: seq<int>)
      returns (lcol: int)
    requires WidthsOK(b) && lcolnum - fcol + 1 >= b.blcolmin && |cnt| == s.CblkNbr()
    requires 0 <= first <= fcol && lcolnum - first < nb.Length && LineCounts(s, cnt, first, nb[..])
    ensures fcol <= lcol <= lcolnum
    ensures lcol == lcolnum ==> lcolnum - fcol + 1 <= b.blcolmax
    ensures lcol < lcolnum ==> lcolnum - lcol >= b.blcolmin
    ensures PieceOK(b, Cblk(fcol, lcol, -1)) && PieceBest(s, cnt, fct, b, Cblk(fcol, lcol, -1), lcolnum)
  {
    hide NbSplit, WidestPiece, PieceBest, LineCounts, BestCut;
    var width := lcolnum - fcol + 1;
    var nseq := NbSplit(b, width);
    OnePiece(b, width);
    lcol := lcolnum;
    if nseq != 1 {
      var cut := ChooseCut(fct, nb[fcol - first..], width, b);
      lcol := fcol + cut;
      assert nb[fcol - first..] == nb[..][fcol - first..];
      BestOnSymbol(s, cnt, first, nb[..], fct, b, fcol, lcol, lcolnum);
    } else {
      LastIsBest(s, cnt, fct, b, fcol, lcolnum);
    }
  }

  /** Cut columns [fcolnum, lcolnum] into pieces added to the table. */
  method CutColumns(t: ExtraTable, fcolnum: int, lcolnum: int, nb: array<int>, first: int, fct: SplitFct, b: Widths,
                    ghost s: Symb, ghost cnt: seq<int>)
      returns (nbcblk: int, ghost pieces: seq<Cblk>)
    requires t.Valid() && t.cblknbr >= 1 && WidthsOK(b) && lcolnum - fcolnum + 1 > b.blcolmax
    requires 0 <= first <= fcolnum && lcolnum - first < nb.Length && |cnt| == s.CblkNbr()
    requires LineCounts(s, cnt, first, nb[..])
    modifies t, t.cblktab
    ensures t.Valid() && t.sizcblk > 0
    ensures t.sptcblk == old(t.sptcblk) || fresh(t.sptcblk)
    ensures t.sptcbnb == old(t.sptcbnb) || fresh(t.sptcbnb)
    ensures t.cblktab == old(t.cblktab) || fresh(t.cblktab)
    ensures t.Table() == old(t.Table()).(cblktab := old(t.Table()).cblktab + pieces)
    ensures |pieces| == nbcblk > 1 && Tiles(pieces, fcolnum, lcolnum) && PiecesOK(b, pieces)
    ensures PiecesBest(s, cnt, fct, b, pieces, lcolnum)
    ensures fct == Constant ==> forall k :: 0 <= k < |pieces| ==> ConstantWidth(b, pieces[k], lcolnum)
  {
    hide Tiles, NbSplit, WidestPiece, PieceBest, PiecesBest, LineCounts, PieceOK, PiecesOK, ConstantWidth;
    NoPieces(s, cnt, fct, b, lcolnum);
    var width := lcolnum - fcolnum + 1;
    var fcol := fcolnum;
    nbcblk, pieces := 0, [];
    while fcol <= lcolnum
      invariant fcolnum <= fcol <= lcolnum + 1 && width == lcolnum - fcol + 1
      invariant pieces == [] ==> fcol == fcolnum
      invariant width == 0 || width >= b.blcolmin
      invariant pieces != [] ==> Tiles(pieces, fcolnum, fcol - 1) && t.sizcblk > 0
      invariant |pieces| == nbcblk && (nbcblk == 1 ==> width > 0) && PiecesOK(b, pieces)
      invariant PiecesBest(s, cnt, fct, b, pieces, lcolnum)
      invariant t.Valid()
      invariant t.sptcblk == old(t.sptcblk) || fresh(t.sptcblk)
      invariant t.sptcbnb == old(t.sptcbnb) || fresh(t.sptcbnb)
      invariant t.cblktab == old(t.cblktab) || fresh(t.cblktab)
      invariant t.Table() == old(t.Table()).(cblktab := old(t.Table()).cblktab + pieces)
      decreases lcolnum + 1 - fcol
    {
      var lcol := NextPiece(fcol, lcolnum, nb, first, fct, b, s, cnt);
      assert fcol <= lcol <= lcolnum;
      t.Add(fcol, lcol);
      ghost var piece := Cblk(fcol, lcol, -1);
      PieceAdded(s, cnt, fct, b, pieces, fcolnum, piece, lcolnum);
      assert (old(t.Table()).cblktab + pieces) + [piece] == old(t.Table()).cblktab + (pieces + [piece]);
      pieces := pieces + [piece];
      nbcblk := nbcblk + 1;
      width := width - (lcol - fcol + 1);
      fcol := lcol + 1;
    }
    if fct == Constant {
      ConstantPieces(s, cnt, b, pieces, lcolnum);
    }
  }

  lemma NoPieces(s: Symb, cnt: seq<int>, fct: SplitFct, b: Widths, lcolnum: int)
    requires |cnt| == s.CblkNbr()
    ensures PiecesOK(b, []) && PiecesBest(s, cnt, fct, b, [], lcolnum)
  {
  }

  lemma LastIsBest(s: Symb, cnt: seq<int>, fct: SplitFct, b: Widths, fcol: int, lcolnum: int)
    requires |cnt| == s.CblkNbr() && b.blcolmax > 0 && lcolnum - fcol + 1 <= b.blcolmax
    ensures PieceBest(s, cnt, fct, b, Cblk(fcol, lcolnum, -1), lcolnum)
  {
  }

  lemma OnePiece(b: Widths, width: int)
    requires WidthsOK(b)
    ensures (NbSplit(b, width) == 1 <==> width <= b.blcolmax) && NbSplit(b, width) >= 1
    ensures b.blcolmax <= WidestPiece(b)
  {
    CeilMonotone(0, b.blcolmax, b.percent);
    if width > b.blcolmax {
      StepBounds(b, width);
    }
  }

  // ----- the whole symbol -----

  /** Piece counts when column block `i` is reached: later ones are not split yet. */
  ghost function CountsBefore(x: ExtraCblk, i: int): seq<int>
    requires 0 <= i <= |x.sptcbnb|
  {
    x.sptcbnb[..i] + Same(1, |x.sptcbnb| - i)
  }

  /** How column block `i` is treated: wide ones, unless their supernode is kept whole,
      are cut into pieces of bounded width where the fewest blocks cross. */
  ghost predicate CblkSplit(s: Symb, x: ExtraCblk, kway: seq<bool>, b: Widths, fct: SplitFct, i: int)
    requires 0 <= i < s.CblkNbr() == |x.sptcbnb| == |x.sptcblk| == |kway| && SplitOK(s, x, i)
  {
    var wide := s.cblktab[i].lcolnum - s.cblktab[i].fcolnum + 1 > b.blcolmax;
    && (x.sptcbnb[i] > 1 <==> wide && !kway[i])
    && (x.sptcbnb[i] > 1 ==>
          var pieces := x.cblktab[x.sptcblk[i]..x.sptcblk[i] + x.sptcbnb[i]];
          PiecesOK(b, pieces) && PiecesBest(s, CountsBefore(x, i), fct, b, pieces, s.cblktab[i].lcolnum))
  }

  ghost predicate OneDone(s: Symb, x: ExtraCblk, kway: seq<bool>, b: Widths, fct: SplitFct, i: int)
    requires 0 <= i < s.CblkNbr() == |x.sptcbnb| == |x.sptcblk| == |kway|
  {
    SplitOK(s, x, i) && CblkSplit(s, x, kway, b, fct, i)
  }

  /** Column blocks below `i` are treated, the others not split. */
  ghost predicate Done(s: Symb, x: ExtraCblk, kway: seq<bool>, b: Widths, fct: SplitFct, i: int) {
    && |x.sptcbnb| == |x.sptcblk| == |kway| == s.CblkNbr() && 0 <= i <= s.CblkNbr()
    && (forall k :: 0 <= k < i ==> OneDone(s, x, kway, b, fct, k))
    && (forall k :: i <= k < s.CblkNbr() ==> x.sptcbnb[k] == 1)
    && x.addcblk == NewNum(x, s.CblkNbr()) - s.CblkNbr()
  }

  lemma {:induction false} NewNumOnes(x: ExtraCblk, i: int)
    requires 0 <= i <= |x.sptcbnb| && forall k :: 0 <= k < i ==> x.sptcbnb[k] == 1
    ensures NewNum(x, i) == i
  {
    if i > 0 {
      NewNumOnes(x, i - 1);
    }
  }

  lemma {:induction false} NewNumChange(x: ExtraCblk, y: ExtraCblk, i: int, v: int, n: int)
    requires 0 <= n <= |x.sptcbnb| && 0 <= i < |x.sptcbnb| && y.sptcbnb == x.sptcbnb[i := v]
    ensures NewNum(y, n) == NewNum(x, n) + (if i < n then v - x.sptcbnb[i] else 0)
  {
    if n > 0 {
      NewNumChange(x, y, i, v, n - 1);
    }
  }

  lemma NoneDone(s: Symb, x: ExtraCblk, kway: seq<bool>, b: Widths, fct: SplitFct)
    requires s.CblkNbr() == |kway| && x == ExtraCblk(0, Same(-1, |kway|), Same(1, |kway|), [])
    ensures Done(s, x, kway, b, fct, 0)
  {
    NewNumOnes(x, |kway|);
  }

  lemma KeptWhole(s: Symb, x: ExtraCblk, kway: seq<bool>, b: Widths, fct: SplitFct, i: int)
    requires Done(s, x, kway, b, fct, i) && i < s.CblkNbr()
    requires kway[i] || s.cblktab[i].lcolnum - s.cblktab[i].fcolnum + 1 <= b.blcolmax
    ensures Done(s, x, kway, b, fct, i + 1)
  {
    assert OneDone(s, x, kway, b, fct, i);
  }

  lemma PrefixKept(x: ExtraCblk, y: ExtraCblk, i: int, k: int)
    requires 0 <= k < i <= |x.sptcbnb| == |y.sptcbnb| && forall j :: 0 <= j < i ==> y.sptcbnb[j] == x.sptcbnb[j]
    ensures CountsBefore(y, k) == CountsBefore(x, k)
  {
  }

  lemma DoneKept(s: Symb, x: ExtraCblk, y: ExtraCblk, kway: seq<bool>, b: Widths, fct: SplitFct, i: int, k: int)
    requires Done(s, x, kway, b, fct, i) && 0 <= k < i
    requires |y.sptcbnb| == |x.sptcbnb| && |y.sptcblk| == |x.sptcblk| && x.cblktab <= y.cblktab
    requires forall j :: 0 <= j < i ==> y.sptcbnb[j] == x.sptcbnb[j] && y.sptcblk[j] == x.sptcblk[j]
    ensures OneDone(s, y, kway, b, fct, k)
  {
    hide Tiles, PiecesOK, PiecesBest, CountsBefore, NewNum;
    assert OneDone(s, x, kway, b, fct, k);
    PrefixKept(x, y, i, k);
    if x.sptcbnb[k] > 1 {
      var lo, hi := x.sptcblk[k], x.sptcblk[k] + x.sptcbnb[k];
      assert x.cblktab == y.cblktab[..|x.cblktab|];
      assert x.cblktab[lo..hi] == y.cblktab[lo..hi];
    }
  }

  /** Pieces appended to the table and marked: one more column block is treated. */
  lemma SplitDone(s: Symb, x: ExtraCblk, y: ExtraCblk, pieces: seq<Cblk>, kway: seq<bool>, b: Widths, fct: SplitFct,
          i: int)
    requires Done(s, x, kway, b, fct, i) && i < s.CblkNbr() && !kway[i]
    requires s.cblktab[i].lcolnum - s.cblktab[i].fcolnum + 1 > b.blcolmax
    requires |pieces| > 1 && Tiles(pieces, s.cblktab[i].fcolnum, s.cblktab[i].lcolnum) && PiecesOK(b, pieces)
    requires PiecesBest(s, x.sptcbnb, fct, b, pieces, s.cblktab[i].lcolnum)
    requires y == ExtraCblk(x.addcblk + |pieces| - 1, x.sptcblk[i := |x.cblktab|], x.sptcbnb[i := |pieces|],
                            x.cblktab + pieces)
    ensures Done(s, y, kway, b, fct, i + 1)
  {
    hide Tiles, PiecesOK, PiecesBest;
    forall k | 0 <= k < i
      ensures OneDone(s, y, kway, b, fct, k)
    {
      DoneKept(s, x, y, kway, b, fct, i, k);
    }
    assert y.cblktab[|x.cblktab|..|x.cblktab| + |pieces|] == pieces;
    assert CountsBefore(y, i) == x.sptcbnb;
    assert OneDone(s, y, kway, b, fct, i);
    NewNumChange(x, y, i, |pieces|, s.CblkNbr());
  }

  /** Cut one wide column block and mark it. */
  method SplitCblk(s: Symb, t: ExtraTable, cblknum: int, nb: array<int>, fsplitrow: int, kway: seq<bool>, b: Widths,
          fct: SplitFct)
    requires t.Valid() && t.cblknbr == s.CblkNbr() && WidthsOK(b) && 0 <= cblknum < s.CblkNbr()
    requires Done(s, t.Table(), kway, b, fct, cblknum) && !kway[cblknum]
    requires s.cblktab[cblknum].lcolnum - s.cblktab[cblknum].fcolnum + 1 > b.blcolmax
    requires t.sptcblk != nb && t.sptcbnb != nb
    requires 0 <= fsplitrow <= s.cblktab[cblknum].fcolnum && LineCounts(s, t.Table().sptcbnb, fsplitrow, nb[..])
    modifies t, t.cblktab, t.sptcblk, t.sptcbnb, nb
    ensures t.Valid() && Done(s, t.Table(), kway, b, fct, cblknum + 1)
    ensures t.sptcblk == old(t.sptcblk) || fresh(t.sptcblk)
    ensures t.sptcbnb == old(t.sptcbnb) || fresh(t.sptcbnb)
    ensures t.cblktab == old(t.cblktab) || fresh(t.cblktab)
    ensures LineCounts(s, t.Table().sptcbnb, fsplitrow, nb[..])
  {
    hide NbSplit, Same, OneDone, Tiles, PiecesOK, PiecesBest, Crossing, NewNum;
    ghost var x := t.Table();
    CblkInRows(s, cblknum);
    var nbcblk, pieces := CutColumns(t, s.cblktab[cblknum].fcolnum, s.cblktab[cblknum].lcolnum, nb, fsplitrow, fct, b,
        s, x.sptcbnb);
    t.Mark(cblknum, nbcblk);
    SplitDone(s, x, t.Table(), pieces, kway, b, fct, cblknum);
    UpdateLines(s, fsplitrow, nb, cblknum, nbcblk, x.sptcbnb);
  }

  lemma CblkStartsAfter(s: Symb, i: int)
    requires 0 <= i < s.CblkNbr()
    ensures s.cblktab[i].fcolnum <= s.cblktab[i + 1].fcolnum
  {
    assert s.Abut(i);
  }

  lemma DoneIsSplit(s: Symb, x: ExtraCblk, kway: seq<bool>, b: Widths, fct: SplitFct)
    requires Done(s, x, kway, b, fct, s.CblkNbr())
    ensures ValidSplit(s, x)
  {
    forall i | 0 <= i < |x.sptcbnb|
      ensures SplitOK(s, x, i)
    {
      assert OneDone(s, x, kway, b, fct, i);
    }
  }

  /** Cut every wide column block; `kway` marks the supernodes kept whole. */
  method SplitSmart(s: Symb, kway: seq<bool>, b: Widths, fct: SplitFct) returns (t: ExtraTable)
    requires WidthsOK(b) && |kway| == s.CblkNbr()
    ensures fresh(t) && t.Valid() && t.cblknbr == s.CblkNbr()
    ensures ValidSplit(s, t.Table()) && Done(s, t.Table(), kway, b, fct, s.CblkNbr())
  {
    hide NbSplit, Same, LineCounts, OneDone, NewNum;
    t := new ExtraTable.Init(s.CblkNbr());
    var nb := new int[0];
    var fsplitrow := -1;
    NoneDone(s, t.Table(), kway, b, fct);
    for cblknum := 0 to s.CblkNbr()
      invariant t.Valid() && t.cblknbr == s.CblkNbr() && Done(s, t.Table(), kway, b, fct, cblknum)
      invariant fresh(nb) && fresh(t.sptcblk) && fresh(t.sptcbnb) && fresh(t.cblktab)
      invariant t.sptcblk != nb && nb != t.sptcbnb
      invariant fsplitrow == -1 ==> forall k :: 0 <= k < |kway| ==> t.Table().sptcbnb[k] == 1
      invariant fsplitrow != -1 ==>
        0 <= fsplitrow <= s.cblktab[cblknum].fcolnum && LineCounts(s, t.Table().sptcbnb, fsplitrow, nb[..])
    {
      var width := s.cblktab[cblknum].lcolnum - s.cblktab[cblknum].fcolnum + 1;
      CblkInRows(s, cblknum);
      CblkStartsAfter(s, cblknum);
      OnePiece(b, width);
      if kway[cblknum] || NbSplit(b, width) <= 1 {
        KeptWhole(s, t.Table(), kway, b, fct, cblknum);
      } else {
        if fsplitrow == -1 {
          fsplitrow := s.cblktab[cblknum].fcolnum;
          nb := NbBlocksPerLine(s, fsplitrow, t.Table().sptcbnb);
        }
        SplitCblk(s, t, cblknum, nb, fsplitrow, kway, b, fct);
      }
    }
    DoneIsSplit(s, t.Table(), kway, b, fct);
  }

  /** Once merged, no column block is wider than the bound, but for the supernodes kept
      whole; and the pieces of a split column block are not narrower than the minimum. */
  lemma MergedWidths(w: Split, kway: seq<bool>, b: Widths, fct: SplitFct, q: int)
    requires WidthsOK(b) && Done(w.s, w.x, kway, b, fct, w.s.CblkNbr()) && 0 <= q < NewNum(w.x, w.s.CblkNbr())
    ensures Merged(w).CblkNbr() == NewNum(w.x, w.s.CblkNbr())
    ensures var c := Merged(w).cblktab[q];
      || c.lcolnum - c.fcolnum + 1 <= b.blcolmax
      || PieceOK(b, c)
      || (exists i ::
            0 <= i < |kway| && kway[i] && c.fcolnum == w.s.cblktab[i].fcolnum && c.lcolnum == w.s.cblktab[i].lcolnum)
  {
    hide AllPieces, AllColumns, Column, Flat;
    var i, j := NewColumn(w, q);
    assert OneDone(w.s, w.x, kway, b, fct, i);
    var pieces := Pieces(w, i);
    if w.x.sptcbnb[i] > 1 {
      assert PieceOK(b, pieces[j]);
    }
  }
}
