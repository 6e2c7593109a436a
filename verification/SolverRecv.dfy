/** Fan-in and receive structures: for a faced column block, the hull of what a process
    contributes to it, columns first, then rows block by block. */
module SolverRecv {
  import opened Symbol

  datatype Rows = Rows(frownum: int, lrownum: int)

  /** Fan-in or reception of a column block; a list of them is a sequence. */
  datatype RecvCblk = RecvCblk(ownerid: int, fcolnum: int, lcolnum: int, bloktab: seq<Rows>)

  function Imin(a: int, b: int): int {
    if a < b then a else b
  }

  function Imax(a: int, b: int): int {
    if a > b then a else b
  }

  // ----- hulls -----

  /** `f` and `l` bound the rows of the blocks of `x` tightly, starting from `f0` and `l0`. */
  ghost predicate Hull(s: SymbolMatrix, x: set<int>, f0: int, l0: int, f: int, l: int) {
    && f <= f0 && l >= l0
    && (forall k :: k in x ==> 0 <= k < |s.bloktab| && f <= s.bloktab[k].frownum && s.bloktab[k].lrownum <= l)
    && (f == f0 || exists k :: k in x && 0 <= k < |s.bloktab| && s.bloktab[k].frownum == f)
    && (l == l0 || exists k :: k in x && 0 <= k < |s.bloktab| && s.bloktab[k].lrownum == l)
  }

  lemma HullUnique(s: SymbolMatrix, x: set<int>, f0: int, l0: int, f: int, l: int, f': int, l': int)
    requires Hull(s, x, f0, l0, f, l) && Hull(s, x, f0, l0, f', l')
    ensures f == f' && l == l'
  {
  }

  lemma HullAdd(s: SymbolMatrix, x: set<int>, f0: int, l0: int, f: int, l: int, k: int)
    requires Hull(s, x, f0, l0, f, l) && 0 <= k < |s.bloktab|
    ensures Hull(s, x + {k}, f0, l0, Imin(s.bloktab[k].frownum, f), Imax(s.bloktab[k].lrownum, l))
  {
    var b := s.bloktab[k];
    assert k in x + {k};
    if f != f0 {
      var a :| a in x && 0 <= a < |s.bloktab| && s.bloktab[a].frownum == f;
      assert a in x + {k};
    }
    if l != l0 {
      var a :| a in x && 0 <= a < |s.bloktab| && s.bloktab[a].lrownum == l;
      assert a in x + {k};
    }
  }

  // ----- what a set of contributions touches -----

  /** The update of some block of `contribs` with block `k` lands in block `t`. */
  ghost predicate Touches(s: SymbolMatrix, contribs: set<int>, t: int, k: int) {
    exists b :: b in contribs && s.Pair(b, k) && s.Face(b, k) == t
  }

  ghost function Touching(s: SymbolMatrix, contribs: set<int>, t: int): set<int> {
    set k | 0 <= k < |s.bloktab| && Touches(s, contribs, t, k)
  }

  ghost predicate Any(x: set<int>) {
    exists b :: b in x
  }

  /** Blocks of `contribs` all face column block `i`. */
  ghost predicate AllFace(s: SymbolMatrix, i: int, contribs: set<int>) {
    forall b :: b in contribs ==> 0 <= b < |s.bloktab| && s.bloktab[b].fcblknm == i != s.bloktab[b].lcblknm
  }

  /** `r` is the hull of the contributions: columns from the blocks that face `i`, and for
      each block of `i` the rows that land in it. */
  ghost predicate IsRecv(s: Symb, i: int, contribs: set<int>, r: RecvCblk) {
    && s.Bounded(i)
    && Hull(s, contribs, s.cblktab[i].lcolnum + 1, s.cblktab[i].fcolnum - 1, r.fcolnum, r.lcolnum)
    && |r.bloktab| == s.End(i) - s.First(i)
    && (forall n :: 0 <= n < |r.bloktab| ==>
        RowsOK(s, Touching(s, contribs, s.First(i) + n), s.First(i) + n, r.bloktab[n]))
  }

  ghost predicate RowsOK(s: SymbolMatrix, x: set<int>, t: int, rows: Rows) {
    0 <= t < |s.bloktab| && Hull(s, x, s.bloktab[t].lrownum + 1, s.bloktab[t].frownum - 1, rows.frownum, rows.lrownum)
  }

  /** Whatever the order of the contributions, there is one hull. */
  lemma RecvUnique(s: Symb, i: int, contribs: set<int>, r: RecvCblk, q: RecvCblk)
    requires IsRecv(s, i, contribs, r) && IsRecv(s, i, contribs, q)
    ensures r.fcolnum == q.fcolnum && r.lcolnum == q.lcolnum && r.bloktab == q.bloktab
  {
    hide Hull, Touching;
    HullUnique(s, contribs, s.cblktab[i].lcolnum + 1, s.cblktab[i].fcolnum - 1, r.fcolnum, r.lcolnum, q.fcolnum,
               q.lcolnum);
    forall n | 0 <= n < |r.bloktab|
      ensures r.bloktab[n] == q.bloktab[n]
    {
      var t := s.First(i) + n;
      assert RowsOK(s, Touching(s, contribs, t), t, r.bloktab[n]) && RowsOK(s, Touching(s, contribs, t), t,
                    q.bloktab[n]);
      HullUnique(s, Touching(s, contribs, t), s.bloktab[t].lrownum + 1, s.bloktab[t].frownum - 1,
                 r.bloktab[n].frownum, r.bloktab[n].lrownum, q.bloktab[n].frownum, q.bloktab[n].lrownum);
    }
  }

  // ----- building -----

  method UpdateRows(rows: Rows, frownum: int, lrownum: int) returns (r: Rows)
    ensures r == Rows(Imin(frownum, rows.frownum), Imax(lrownum, rows.lrownum))
  {
    r := Rows(Imin(frownum, rows.frownum), Imax(lrownum, rows.lrownum));
  }

  /** An empty hull. */
  method CblkInit(s: Symb, i: int) returns (r: RecvCblk)
    requires 0 <= i < s.CblkNbr()
    ensures IsRecv(s, i, {}, r) && r.ownerid == -1
  {
    assert s.Bounded(i);
    var bloknbr := s.cblktab[i + 1].bloknum - s.cblktab[i].bloknum;
    assert bloknbr >= 1;
    var rows := [];
    for n := 0 to bloknbr
      invariant |rows| == n
      invariant forall m :: 0 <= m < n ==> RowsOK(s, Touching(s, {}, s.First(i) + m), s.First(i) + m, rows[m])
    {
      var blok := s.bloktab[s.cblktab[i].bloknum + n];
      NothingTouches(s, s.First(i) + n);
      rows := rows + [Rows(blok.lrownum + 1, blok.frownum - 1)];
    }
    r := RecvCblk(-1, s.cblktab[i].lcolnum + 1, s.cblktab[i].fcolnum - 1, rows);
  }

  lemma NothingTouches(s: SymbolMatrix, t: int)
    ensures Touching(s, {}, t) == {}
  {
  }

  /** What touches block `t` once the updates of `b` with the blocks below `e` are added. */
  ghost function Partly(s: SymbolMatrix, contribs: set<int>, b: int, e: int, t: int): set<int> {
    set k | 0 <= k < |s.bloktab| && (Touches(s, contribs, t, k) || (b <= k < e && s.Face(b, k) == t))
  }

  lemma PartlyStart(s: SymbolMatrix, contribs: set<int>, b: int, t: int)
    ensures Partly(s, contribs, b, b, t) == Touching(s, contribs, t)
  {
  }

  lemma PartlyNext(s: SymbolMatrix, contribs: set<int>, b: int, e: int, t: int)
    requires 0 <= b <= e < |s.bloktab|
    ensures Partly(s, contribs, b, e + 1, t)
         == if s.Face(b, e) == t then Partly(s, contribs, b, e, t) + {e} else Partly(s, contribs, b, e, t)
  {
  }

  lemma PairOfRun(s: Symb, b: int, k: int)
    requires 0 <= b < |s.bloktab| && s.bloktab[b].lcblknm != s.bloktab[b].fcblknm
    ensures s.BlokPlaced(b)
    ensures b <= k < s.End(s.bloktab[b].lcblknm) <==> s.Pair(b, k)
  {
    assert s.BlokPlaced(b);
    var i := s.bloktab[b].lcblknm;
    assert s.Bounded(i);
    if s.Pair(b, k) {
      assert s.BlokPlaced(k);
    }
    if b <= k < s.End(i) {
      assert s.First(i) <= k && s.bloktab[k].lcblknm == i;
    }
  }

  lemma TouchMore(s: Symb, contribs: set<int>, b: int, t: int, k: int)
    requires 0 <= b < |s.bloktab| && s.bloktab[b].lcblknm != s.bloktab[b].fcblknm
    ensures s.BlokPlaced(b)
    ensures Touches(s, contribs + {b}, t, k)
       <==> Touches(s, contribs, t, k) || (b <= k < s.End(s.bloktab[b].lcblknm) && s.Face(b, k) == t)
  {
    PairOfRun(s, b, k);
    if Touches(s, contribs, t, k) {
      var a :| a in contribs && s.Pair(a, k) && s.Face(a, k) == t;
      assert a in contribs + {b};
    }
    if s.Pair(b, k) && s.Face(b, k) == t {
      assert b in contribs + {b};
    }
  }

  lemma PartlyEnd(s: Symb, contribs: set<int>, b: int, t: int)
    requires 0 <= b < |s.bloktab| && s.bloktab[b].lcblknm != s.bloktab[b].fcblknm
    ensures s.BlokPlaced(b) && Partly(s, contribs, b, s.End(s.bloktab[b].lcblknm), t) == Touching(s, contribs + {b}, t)
  {
    hide Touches;
    assert s.BlokPlaced(b);
    forall k | 0 <= k < |s.bloktab|
      ensures Touches(s, contribs + {b}, t, k)
         <==> Touches(s, contribs, t, k) || (b <= k < s.End(s.bloktab[b].lcblknm) && s.Face(b, k) == t)
    {
      TouchMore(s, contribs, b, t, k);
    }
  }

  /** Hulls of column block `i` while the updates of `b` with the blocks below `e` are added. */
  ghost predicate RowsPartly(s: Symb, i: int, contribs: set<int>, b: int, e: int, rows: seq<Rows>) {
    && s.Bounded(i) && |rows| == s.End(i) - s.First(i)
    && (forall n :: 0 <= n < |rows| ==> RowsOK(s, Partly(s, contribs, b, e, s.First(i) + n), s.First(i) + n, rows[n]))
  }

  lemma RowsAdd(s: FilledSymb, i: int, contribs: set<int>, b: int, e: int, rows: seq<Rows>, n: int, r: Rows)
    requires RowsPartly(s, i, contribs, b, e, rows) && 0 <= b <= e < |s.bloktab|
    requires s.Face(b, e) == s.First(i) + n && 0 <= n < |rows|
    requires r == Rows(Imin(s.bloktab[e].frownum, rows[n].frownum), Imax(s.bloktab[e].lrownum, rows[n].lrownum))
    ensures RowsPartly(s, i, contribs, b, e + 1, rows[n := r])
  {
    hide Hull, Partly;
    var q := rows[n := r];
    forall m | 0 <= m < |rows|
      ensures RowsOK(s, Partly(s, contribs, b, e + 1, s.First(i) + m), s.First(i) + m, q[m])
    {
      var t := s.First(i) + m;
      assert RowsOK(s, Partly(s, contribs, b, e, t), t, rows[m]);
      PartlyNext(s, contribs, b, e, t);
      HullAdd(s, Partly(s, contribs, b, e, t), s.bloktab[t].lrownum + 1, s.bloktab[t].frownum - 1,
              rows[m].frownum, rows[m].lrownum, e);
    }
  }

  lemma RowsStart(s: Symb, i: int, contribs: set<int>, b: int, r: RecvCblk)
    requires IsRecv(s, i, contribs, r)
    ensures RowsPartly(s, i, contribs, b, b, r.bloktab)
  {
    forall n | 0 <= n < |r.bloktab|
      ensures RowsOK(s, Partly(s, contribs, b, b, s.First(i) + n), s.First(i) + n, r.bloktab[n])
    {
      PartlyStart(s, contribs, b, s.First(i) + n);
    }
  }

  lemma RowsDone(s: Symb, i: int, contribs: set<int>, b: int, r: RecvCblk, q: RecvCblk)
    requires IsRecv(s, i, contribs, r) && 0 <= b < |s.bloktab| && s.bloktab[b].lcblknm != s.bloktab[b].fcblknm
    requires s.BlokPlaced(b) && RowsPartly(s, i, contribs, b, s.End(s.bloktab[b].lcblknm), q.bloktab)
    requires q.fcolnum == Imin(s.bloktab[b].frownum, r.fcolnum) && q.lcolnum == Imax(s.bloktab[b].lrownum, r.lcolnum)
    ensures IsRecv(s, i, contribs + {b}, q)
  {
    hide Hull, Partly, Touching;
    HullAdd(s, contribs, s.cblktab[i].lcolnum + 1, s.cblktab[i].fcolnum - 1, r.fcolnum, r.lcolnum, b);
    forall n | 0 <= n < |q.bloktab|
      ensures RowsOK(s, Touching(s, contribs + {b}, s.First(i) + n), s.First(i) + n, q.bloktab[n])
    {
      PartlyEnd(s, contribs, b, s.First(i) + n);
    }
  }

  /** Add the contribution of block `blok`: its rows extend the columns, and every block
      from it down extends the rows of the block it lands in, found by moving forward. */
  method AddContrib(s: FilledSymb, rcblk: RecvCblk, blok: int, i: int, ghost contribs: set<int>) returns (r: RecvCblk)
    requires IsRecv(s, i, contribs, rcblk)
    requires 0 <= blok < |s.bloktab| && s.bloktab[blok].fcblknm == i != s.bloktab[blok].lcblknm
    ensures IsRecv(s, i, contribs + {blok}, r) && r.ownerid == rcblk.ownerid
  {
    hide IsRecv, RowsPartly;
    var cols := UpdateRows(Rows(rcblk.fcolnum, rcblk.lcolnum), s.bloktab[blok].frownum, s.bloktab[blok].lrownum);
    assert s.BlokPlaced(blok) && s.Bounded(i);
    var first, lblok := s.cblktab[i].bloknum, s.cblktab[s.bloktab[blok].lcblknm + 1].bloknum;
    var rows := rcblk.bloktab;
    RowsStart(s, i, contribs, blok, rcblk);
    assert |rows| == s.End(i) - s.First(i) by { RowsCount(s, i, contribs, blok, blok, rows); }
    var n := 0;
    for b := blok to lblok
      invariant 0 <= n < |rows| && |rows| == s.End(i) - s.First(i)
      invariant forall k :: b <= k < lblok ==> first + n <= s.Face(blok, k)
      invariant RowsPartly(s, i, contribs, blok, b, rows)
    {
      PairOfRun(s, blok, b);
      n := FindFacing(s, blok, b, first, n);
      var r := UpdateRows(rows[n], s.bloktab[b].frownum, s.bloktab[b].lrownum);
      RowsAdd(s, i, contribs, blok, b, rows, n, r);
      rows := rows[n := r];
      forall k | b < k < lblok
        ensures s.Face(blok, b) <= s.Face(blok, k)
      {
        PairOfRun(s, blok, k);
        FaceMonotone(s, blok, b, k);
      }
    }
    r := RecvCblk(rcblk.ownerid, cols.frownum, cols.lrownum, rows);
    RowsDone(s, i, contribs, blok, rcblk, r);
  }

  /** The block of the faced column block that holds block `b`, from the `n`-th on. */
  method FindFacing(s: FilledSymb, blok: int, b: int, first: int, n: int) returns (i: int)
    requires s.Pair(blok, b) && s.BlokPlaced(blok) && first == s.First(s.bloktab[blok].fcblknm)
    requires 0 <= n && first + n <= s.Face(blok, b)
    ensures first + i == s.Face(blok, b) && n <= i && first + i < s.End(s.bloktab[blok].fcblknm)
  {
    FaceReceives(s, blok, b);
    i := n;
    while !s.Inside(b, first + i)
      invariant n <= i && first + i <= s.Face(blok, b)
      decreases s.Face(blok, b) - i
    {
      i := i + 1;
      assert first + i < s.End(s.bloktab[blok].fcblknm);
    }
    assert s.BlokPlaced(first + i);
    assert s.Receives(blok, b, first + i);
    FaceIsReceiver(s, blok, b, first + i);
  }

  lemma RowsCount(s: Symb, i: int, contribs: set<int>, b: int, e: int, rows: seq<Rows>)
    requires RowsPartly(s, i, contribs, b, e, rows)
    ensures s.Bounded(i) && |rows| == s.End(i) - s.First(i)
  {
  }

  // ----- number of blocks -----

  /** The hull of the rows of block `t` is not empty and stays inside it. */
  predicate Kept(s: SymbolMatrix, t: int, rows: Rows)
    requires 0 <= t < |s.bloktab|
  {
    rows.frownum <= rows.lrownum && rows.frownum >= s.bloktab[t].frownum && rows.lrownum <= s.bloktab[t].lrownum
  }

  /** Blocks kept among the first `n` of a fan-in of column block `i`. */
  ghost function BlokNbr(s: SymbolMatrix, i: int, r: RecvCblk, n: int): (c: int)
    requires s.Bounded(i) && |r.bloktab| == s.End(i) - s.First(i) && 0 <= n <= |r.bloktab|
    ensures 0 <= c <= n
  {
    if n == 0 then 0 else BlokNbr(s, i, r, n - 1) + (if Kept(s, s.First(i) + n - 1, r.bloktab[n - 1]) then 1 else 0)
  }

  lemma TouchIsInside(s: FilledSymb, contribs: set<int>, t: int, k: int)
    requires Touches(s, contribs, t, k)
    ensures 0 <= k < |s.bloktab| && 0 <= t < |s.bloktab| && s.Inside(k, t)
    ensures s.bloktab[k].frownum <= s.bloktab[k].lrownum
  {
    var b :| b in contribs && s.Pair(b, k) && s.Face(b, k) == t;
    FaceReceives(s, b, k);
    assert s.BlokPlaced(k);
  }

  /** A block is kept exactly when some update lands in it. */
  lemma KeptIsTouched(s: FilledSymb, i: int, contribs: set<int>, r: RecvCblk, n: int)
    requires IsRecv(s, i, contribs, r) && 0 <= n < |r.bloktab|
    ensures Kept(s, s.First(i) + n, r.bloktab[n]) <==> Touching(s, contribs, s.First(i) + n) != {}
    ensures Kept(s, s.First(i) + n, r.bloktab[n]) <==> r.bloktab[n].frownum <= r.bloktab[n].lrownum
  {
    hide Touches;
    var t := s.First(i) + n;
    var x := Touching(s, contribs, t);
    assert RowsOK(s, x, t, r.bloktab[n]);
    assert s.BlokPlaced(t);
    forall k | k in x
      ensures s.Inside(k, t) && s.bloktab[k].frownum <= s.bloktab[k].lrownum
    {
      TouchIsInside(s, contribs, t, k);
    }
    if x != {} {
      var k :| k in x;
    }
  }

  lemma DiagIsTouched(s: FilledSymb, i: int, contribs: set<int>, b: int)
    requires 0 <= i < s.CblkNbr() && b in contribs && 0 <= b < |s.bloktab|
    requires s.bloktab[b].fcblknm == i != s.bloktab[b].lcblknm
    ensures b in Touching(s, contribs, s.First(i))
  {
    assert s.Bounded(i);
    assert s.BlokPlaced(b) && s.BlokPlaced(s.First(i));
    assert s.Receives(b, b, s.First(i));
    FaceIsReceiver(s, b, b, s.First(i));
    assert Touches(s, contribs, s.First(i), b);
  }

  /** A fan-in with some contribution keeps its diagonal block. */
  lemma {:induction false} SomeBlokKept(s: FilledSymb, i: int, contribs: set<int>, r: RecvCblk, n: int, b: int)
    requires s.Bounded(i) && |r.bloktab| == s.End(i) - s.First(i) && IsRecv(s, i, contribs, r) && 1 <= n <= |r.bloktab|
    requires b in contribs && 0 <= b < |s.bloktab| && s.bloktab[b].fcblknm == i != s.bloktab[b].lcblknm
    ensures BlokNbr(s, i, r, n) >= 1
  {
    hide IsRecv, Kept, Touching;
    if n > 1 {
      SomeBlokKept(s, i, contribs, r, n - 1, b);
    } else {
      DiagIsTouched(s, i, contribs, b);
      KeptIsTouched(s, i, contribs, r, 0);
    }
  }

  lemma RecvSize(s: Symb, i: int, contribs: set<int>, r: RecvCblk)
    requires IsRecv(s, i, contribs, r)
    ensures s.Bounded(i) && |r.bloktab| == s.End(i) - s.First(i)
  {
  }

  ghost function BlokNbrOf(s: SymbolMatrix, i: int, r: RecvCblk): (c: int)
    ensures c >= 0
  {
    if s.Bounded(i) && |r.bloktab| == s.End(i) - s.First(i) then BlokNbr(s, i, r, |r.bloktab|) else 0
  }

  lemma {:induction false} BlokNbrSame(s: SymbolMatrix, i: int, r: RecvCblk, q: RecvCblk, n: int)
    requires s.Bounded(i) && |r.bloktab| == s.End(i) - s.First(i) && 0 <= n <= |r.bloktab| && q.bloktab == r.bloktab
    ensures BlokNbr(s, i, r, n) == BlokNbr(s, i, q, n)
  {
    if n > 0 {
      BlokNbrSame(s, i, r, q, n - 1);
    }
  }

  method GetBloknbr(s: FilledSymb, i: int, r: RecvCblk, ghost contribs: set<int>) returns (bloknbr: int)
    requires IsRecv(s, i, contribs, r) && AllFace(s, i, contribs) && Any(contribs)
    ensures bloknbr == BlokNbrOf(s, i, r) >= 1
  {
    hide IsRecv;
    ghost var b :| b in contribs;
    bloknbr := 0;
    RecvSize(s, i, contribs, r);
    for j := s.cblktab[i].bloknum to s.cblktab[i + 1].bloknum
      invariant bloknbr == BlokNbr(s, i, r, j - s.cblktab[i].bloknum)
    {
      if Kept(s, j, r.bloktab[j - s.cblktab[i].bloknum]) {
        bloknbr := bloknbr + 1;
      }
    }
    SomeBlokKept(s, i, contribs, r, |r.bloktab|, b);
    assert bloknbr >= 1;
  }

  // ----- fan-in and receive lists -----

  /** The fan-in of column block `i`, kept for its owner: none without contribution. */
  ghost predicate FaninOf(s: Symb, i: int, ownerid: int, contribs: set<int>, list: seq<RecvCblk>) {
    if contribs == {} then list == []
    else Any(contribs) && |list| == 1 && list[0].ownerid == ownerid && IsRecv(s, i, contribs, list[0])
  }

  ghost predicate Owned(s: SymbolMatrix, owner: seq<int>) {
    |owner| == s.CblkNbr()
  }

  /** Owner of block `b`: that of its column block. */
  function BlokOwner(s: Symb, owner: seq<int>, b: int): int
    requires Owned(s, owner) && 0 <= b < |s.bloktab|
  {
    assert s.BlokPlaced(b);
    owner[s.bloktab[b].lcblknm]
  }

  ghost function From(s: Symb, owner: seq<int>, contribs: set<int>, q: int): set<int>
    requires Owned(s, owner)
  {
    set b | b in contribs && 0 <= b < |s.bloktab| && BlokOwner(s, owner, b) == q
  }

  ghost predicate RecvOK(s: Symb, i: int, owner: seq<int>, contribs: set<int>, r: RecvCblk)
    requires Owned(s, owner)
  {
    Any(From(s, owner, contribs, r.ownerid)) && IsRecv(s, i, From(s, owner, contribs, r.ownerid), r)
  }

  /** Some reception is tagged `q`. */
  ghost predicate Tagged(list: seq<RecvCblk>, q: int) {
    exists e :: 0 <= e < |list| && list[e].ownerid == q
  }

  /** One reception for each contributing process. */
  ghost predicate RecvsOf(s: Symb, i: int, owner: seq<int>, contribs: set<int>, list: seq<RecvCblk>)
    requires Owned(s, owner)
  {
    && (forall e :: 0 <= e < |list| ==> RecvOK(s, i, owner, contribs, list[e]))
    && (forall e, f :: 0 <= e < f < |list| ==> list[e].ownerid != list[f].ownerid)
    && (forall b :: b in contribs ==> 0 <= b < |s.bloktab| && Tagged(list, BlokOwner(s, owner, b)))
  }

  /** Register a contribution to the fan-in of the column block it faces. */
  method UpdateFanin(s: FilledSymb, ftgttab: array<seq<RecvCblk>>, blok: int, i: int, ownerid: int,
          ghost contribs: set<int>)
    requires 0 <= blok < |s.bloktab| && s.bloktab[blok].fcblknm == i != s.bloktab[blok].lcblknm
    requires 0 <= i < s.CblkNbr() == ftgttab.Length && FaninOf(s, i, ownerid, contribs, ftgttab[i])
    modifies ftgttab
    ensures FaninOf(s, i, ownerid, contribs + {blok}, ftgttab[i])
    ensures forall k :: 0 <= k < ftgttab.Length && k != i ==> ftgttab[k] == old(ftgttab[k])
  {
    hide IsRecv;
    if ftgttab[i] == [] {
      var r := CblkInit(s, i);
      ftgttab[i] := [r.(ownerid := ownerid)];
      InitTagged(s, i, r, ownerid);
    }
    assert ftgttab[i][0].ownerid == ownerid;
    var r := AddContrib(s, ftgttab[i][0], blok, i, contribs);
    ftgttab[i] := [r];
  }

  lemma InitTagged(s: Symb, i: int, r: RecvCblk, ownerid: int)
    requires IsRecv(s, i, {}, r)
    ensures IsRecv(s, i, {}, r.(ownerid := ownerid))
  {
  }

  lemma FromMore(s: Symb, owner: seq<int>, contribs: set<int>, b: int, q: int)
    requires Owned(s, owner) && 0 <= b < |s.bloktab|
    ensures From(s, owner, contribs + {b}, q)
         == if BlokOwner(s, owner, b) == q then From(s, owner, contribs, q) + {b} else From(s, owner, contribs, q)
  {
  }

  lemma NobodyTagged(s: Symb, i: int, owner: seq<int>, contribs: set<int>, list: seq<RecvCblk>, q: int)
    requires Owned(s, owner) && RecvsOf(s, i, owner, contribs, list) && !Tagged(list, q)
    ensures From(s, owner, contribs, q) == {}
  {
    forall b | b in contribs && 0 <= b < |s.bloktab|
      ensures BlokOwner(s, owner, b) != q
    {
      assert Tagged(list, BlokOwner(s, owner, b));
    }
  }

  /** Entry `e`, or a new last one, takes the contribution of `b`. */
  lemma RecvsMore(s: Symb, i: int, owner: seq<int>, contribs: set<int>, list: seq<RecvCblk>, b: int, e: int,
          r: RecvCblk, next: seq<RecvCblk>)
    requires Owned(s, owner) && RecvsOf(s, i, owner, contribs, list) && 0 <= b < |s.bloktab|
    requires r.ownerid == BlokOwner(s, owner, b) && IsRecv(s, i, From(s, owner, contribs, r.ownerid) + {b}, r)
    requires 0 <= e <= |list| && (e < |list| ==> list[e].ownerid == r.ownerid)
    requires forall f :: 0 <= f < e ==> list[f].ownerid != r.ownerid
    requires next == if e < |list| then list[e := r] else list + [r]
    ensures RecvsOf(s, i, owner, contribs + {b}, next)
  {
    hide IsRecv, From, BlokOwner;
    forall f | 0 <= f < |next|
      ensures RecvOK(s, i, owner, contribs + {b}, next[f])
    {
      FromMore(s, owner, contribs, b, next[f].ownerid);
      if f != e {
        assert RecvOK(s, i, owner, contribs, list[f]);
      }
    }
    forall a | a in contribs + {b}
      ensures 0 <= a < |s.bloktab| && Tagged(next, BlokOwner(s, owner, a))
    {
      if a in contribs {
        var f :| 0 <= f < |list| && list[f].ownerid == BlokOwner(s, owner, a);
        assert next[f].ownerid == list[f].ownerid;
      } else {
        assert next[e].ownerid == r.ownerid;
      }
    }
  }

  /** Register a contribution from process `ownerid` to the receptions of `i`. */
  method UpdateRecv(s: FilledSymb, ftgttab: array<seq<RecvCblk>>, blok: int, i: int, owner: seq<int>, ownerid: int,
          ghost contribs: set<int>)
    requires Owned(s, owner) && 0 <= blok < |s.bloktab| && s.bloktab[blok].fcblknm == i != s.bloktab[blok].lcblknm
    requires ownerid == BlokOwner(s, owner, blok)
    requires 0 <= i < s.CblkNbr() == ftgttab.Length && RecvsOf(s, i, owner, contribs, ftgttab[i])
    modifies ftgttab
    ensures RecvsOf(s, i, owner, contribs + {blok}, ftgttab[i]) && |ftgttab[i]| <= |old(ftgttab[i])| + 1
    ensures forall k :: 0 <= k < ftgttab.Length && k != i ==> ftgttab[k] == old(ftgttab[k])
  {
    hide IsRecv, From, BlokOwner;
    var list := ftgttab[i];
    var e := 0;
    while e < |list| && list[e].ownerid != ownerid
      invariant 0 <= e <= |list| && forall f :: 0 <= f < e ==> list[f].ownerid != ownerid
    {
      e := e + 1;
    }
    var rcblk;
    if e == |list| {
      rcblk := CblkInit(s, i);
      InitTagged(s, i, rcblk, ownerid);
      rcblk := rcblk.(ownerid := ownerid);
      NobodyTagged(s, i, owner, contribs, list, ownerid);
    } else {
      rcblk := list[e];
      assert RecvOK(s, i, owner, contribs, list[e]);
    }
    assert rcblk.ownerid == ownerid;
    var r := AddContrib(s, rcblk, blok, i, From(s, owner, contribs, ownerid));
    ftgttab[i] := if e == |list| then list + [r] else list[e := r];
    RecvsMore(s, i, owner, contribs, list, blok, e, r, ftgttab[i]);
  }

  // ----- agreement -----

  /** Off-diagonal blocks facing `i`, below block `hi`, that process `p` owns. */
  ghost function Sent(s: Symb, owner: seq<int>, p: int, i: int, hi: int): set<int>
    requires Owned(s, owner)
  {
    set b |
      0 <= b < |s.bloktab| && b < hi && s.bloktab[b].fcblknm == i != s.bloktab[b].lcblknm && BlokOwner(s, owner, b) == p
  }

  /** Off-diagonal blocks facing `i` that process `p` does not own. */
  ghost function Remote(s: Symb, owner: seq<int>, p: int, i: int): set<int>
    requires Owned(s, owner)
  {
    set b | 0 <= b < |s.bloktab| && s.bloktab[b].fcblknm == i != s.bloktab[b].lcblknm && BlokOwner(s, owner, b) != p
  }

  /** What `p` sends to the owner of `i` is what that owner expects from `p`: the fan-in
      exists exactly when the reception does, with the same columns, rows and blocks. */
  lemma SenderReceiverAgree(s: Symb, owner: seq<int>, i: int, p: int, fanin: seq<RecvCblk>, recvs: seq<RecvCblk>,
          e: int)
    requires Owned(s, owner) && 0 <= i < |owner| && p != owner[i]
    requires FaninOf(s, i, owner[i], Sent(s, owner, p, i, |s.bloktab|), fanin)
    requires RecvsOf(s, i, owner, Remote(s, owner, owner[i], i), recvs)
    ensures Tagged(recvs, p) <==> fanin != []
    ensures 0 <= e < |recvs| && recvs[e].ownerid == p ==> |fanin| == 1 && fanin[0] == recvs[e].(ownerid := owner[i])
  {
    hide IsRecv, BlokOwner;
    var remote := Remote(s, owner, owner[i], i);
    assert From(s, owner, remote, p) == Sent(s, owner, p, i, |s.bloktab|);
    if Tagged(recvs, p) {
      var f :| 0 <= f < |recvs| && recvs[f].ownerid == p;
      assert RecvOK(s, i, owner, remote, recvs[f]);
      if 0 <= e < |recvs| && recvs[e].ownerid == p {
        RecvUnique(s, i, From(s, owner, remote, p), recvs[f], fanin[0]);
      }
    } else {
      NobodyTagged(s, i, owner, remote, recvs, p);
    }
  }
}
