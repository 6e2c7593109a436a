/** The generation of the local solver matrix: what each column block stores, in the
    numbering that the counting pass chose. */
module SolverGenSpec {
  import opened Symbol
  import opened SolverRecv
  import opened SolverLocal

  // ----- runs laid end to end -----

  ghost function Joined<T>(parts: seq<seq<T>>, m: int): seq<T>
    requires 0 <= m <= |parts|
  {
    if m == 0 then [] else Joined(parts, m - 1) + parts[m - 1]
  }

  lemma JoinedNext<T>(parts: seq<seq<T>>, m: int)
    requires 0 <= m < |parts|
    ensures Joined(parts, m + 1) == Joined(parts, m) + parts[m]
  {
  }

  lemma {:induction false} JoinedPrefix<T>(parts: seq<seq<T>>, i: int, m: int)
    requires 0 <= i <= m <= |parts|
    ensures Joined(parts, i) <= Joined(parts, m)
    decreases m
  {
    if i < m {
      JoinedPrefix(parts, i, m - 1);
    }
  }

  /** Item `x` of run `i` stands after the runs before it. */
  lemma JoinedAt<T>(parts: seq<seq<T>>, m: int, i: int, x: int)
    requires 0 <= i < m <= |parts| && 0 <= x < |parts[i]|
    ensures |Joined(parts, i)| + x < |Joined(parts, m)| && Joined(parts, m)[|Joined(parts, i)| + x] == parts[i][x]
  {
    JoinedPrefix(parts, i + 1, m);
    JoinedNext(parts, i);
    assert Joined(parts, i + 1)[|Joined(parts, i)| + x] == parts[i][x];
  }

  lemma {:induction false} JoinedFind<T>(parts: seq<seq<T>>, m: int, y: int) returns (i: int, x: int)
    requires 0 <= m <= |parts| && 0 <= y < |Joined(parts, m)|
    ensures 0 <= i < m && 0 <= x < |parts[i]| && y == |Joined(parts, i)| + x
    decreases m
  {
    if y < |Joined(parts, m - 1)| {
      i, x := JoinedFind(parts, m - 1, y);
    } else {
      i, x := m - 1, y - |Joined(parts, m - 1)|;
    }
  }

  // ----- what is generated -----

  /** A column block is computed here, sent as a fan-in, or received. */
  datatype Role = Mine | Sending | Receiving

  datatype SolvCblk = SolvCblk(role: Role, tasks2d: bool, fblok: int, fcolnum: int, lcolnum: int, brownum: int,
      brown2d: int,
                               gcblknum: int, ownerid: int, bcscnum: int, lcolidx: int)

  datatype SolvBlok = SolvBlok(lcblknm: int, fcblknm: int, frownum: int, lrownum: int, gbloknm: int)

  /** A distributed symbol, its column blocks of 2D tasks, and the fan-ins and receptions
      of process `clustnum`. */
  datatype Local = Local(d: Dist, t2d: seq<bool>, f: seq<seq<RecvCblk>>)

  /** A fan-in or reception of column block `i`: the blocks it keeps are those whose hull
      is not empty, and the diagonal one is among them. */
  ghost predicate GoodRecv(s: SymbolMatrix, i: int, r: RecvCblk) {
    && s.Bounded(i) && |r.bloktab| == s.End(i) - s.First(i)
    && (forall n :: 0 <= n < |r.bloktab| ==> KeptOK(s, s.First(i) + n, r.bloktab[n]))
    && Kept(s, s.First(i), r.bloktab[0])
  }

  ghost predicate KeptOK(s: SymbolMatrix, t: int, rows: Rows) {
    0 <= t < |s.bloktab| && (Kept(s, t, rows) <==> rows.frownum <= rows.lrownum)
  }

  ghost predicate ListOK(d: Dist, list: seq<RecvCblk>, i: int)
    requires 0 <= i < d.s.CblkNbr()
  {
    && (forall e :: 0 <= e < |list| ==> GoodRecv(d.s, i, list[e]) && list[e].ownerid != d.clustnum)
    && (d.owner[i] != d.clustnum ==> |list| <= 1)
  }

  /** What block `j` of this process faces is stored here. */
  ghost predicate FacedStored(d: Dist, f: seq<seq<RecvCblk>>, j: int)
    requires |f| == d.s.CblkNbr() && 0 <= j < |d.s.bloktab|
  {
    assert d.s.BlokPlaced(j);
    BlokOwner(d.s, d.owner, j) == d.clustnum ==> Stored(d, f, d.s.bloktab[j].fcblknm)
  }

  ghost predicate LocalOK(l: Local) {
    && |l.t2d| == |l.f| == l.d.s.CblkNbr()
    && (forall i :: 0 <= i < |l.f| ==> ListOK(l.d, l.f[i], i))
    && (forall j :: 0 <= j < |l.d.s.bloktab| ==> FacedStored(l.d, l.f, j))
  }

  type Loc = l: Local | LocalOK(l) ghost witness Local(Distrib(SymbolMatrix([Cblk(0, 0, 0)], []), [], [], 0), [], [])

  ghost function Num(l: Loc, i: int): int
    requires 0 <= i < |l.f|
  {
    CblkNum(l.d, l.f, i)
  }

  /** Local number of symbol block `b`. */
  ghost function NumB(l: Loc, b: int): int
    requires 0 <= b < |l.d.s.bloktab|
  {
    assert l.d.s.BlokPlaced(b);
    BlokNum(l.d, l.f, l.d.s.bloktab[b].lcblknm, b)
  }

  ghost function Before(l: Loc, i: int): Counts
    requires 0 <= i <= |l.f|
  {
    Totals(l.d, l.f, i)
  }

  // ----- blocks -----

  /** First `m` blocks of the column block `i` of this process. */
  ghost function MineBloks(l: Loc, i: int, m: int): (b: seq<SolvBlok>)
    requires 0 <= i < |l.f| && 0 <= m <= l.d.s.End(i) - l.d.s.First(i)
    ensures |b| == m
  {
    assert l.d.s.Bounded(i);
    seq(m, x requires 0 <= x < m => MineBlok(l, i, l.d.s.First(i) + x))
  }

  ghost function MineBlok(l: Loc, i: int, j: int): SolvBlok
    requires 0 <= i < |l.f| && 0 <= j < |l.d.s.bloktab|
  {
    assert l.d.s.BlokPlaced(j);
    var b := l.d.s.bloktab[j];
    SolvBlok(Num(l, i), Num(l, b.fcblknm), b.frownum, b.lrownum, j)
  }

  /** Blocks kept among the first `m` of a fan-in or reception stored as column block `num`. */
  ghost function KeptBloks(s: SymbolMatrix, i: int, r: RecvCblk, num: int, m: int): (b: seq<SolvBlok>)
    requires GoodRecv(s, i, r) && 0 <= m <= |r.bloktab|
    ensures |b| == BlokNbr(s, i, r, m)
  {
    if m == 0 then []
    else
      var rows := r.bloktab[m - 1];
      KeptBloks(s, i, r, num, m - 1)
      + (if !Kept(s, s.First(i) + m - 1, rows) then []
         else [SolvBlok(num, -1, rows.frownum, rows.lrownum, s.First(i) + m - 1)])
  }

  /** Kept block `n` stands at its rank. */
  lemma {:induction false} KeptAt(s: SymbolMatrix, i: int, r: RecvCblk, num: int, m: int, n: int)
    requires GoodRecv(s, i, r) && 0 <= n < m <= |r.bloktab| && Kept(s, s.First(i) + n, r.bloktab[n])
    ensures var b := KeptBloks(s, i, r, num, m); var x := BlokNbr(s, i, r, n);
      x < |b| && b[x] == SolvBlok(num, -1, r.bloktab[n].frownum, r.bloktab[n].lrownum, s.First(i) + n)
    decreases m
  {
    hide Kept;
    if n < m - 1 {
      KeptAt(s, i, r, num, m - 1, n);
    }
  }

  lemma {:induction false} FirstKept(s: SymbolMatrix, i: int, r: RecvCblk, num: int, m: int)
    requires GoodRecv(s, i, r) && 1 <= m <= |r.bloktab|
    ensures |KeptBloks(s, i, r, num, m)| >= 1 && KeptBloks(s, i, r, num, m)[0].gbloknm == s.First(i)
  {
    KeptAt(s, i, r, num, m, 0);
    assert BlokNbr(s, i, r, 0) == 0;
  }

  /** The fan-in of column block `i`. */
  ghost function FaninBloks(l: Loc, i: int): (b: seq<SolvBlok>)
    requires 0 <= i < |l.f| && l.f[i] != []
    ensures |b| == BlokNbrOf(l.d.s, i, l.f[i][0])
  {
    assert ListOK(l.d, l.f[i], i);
    KeptBloks(l.d.s, i, l.f[i][0], Num(l, i), |l.f[i][0].bloktab|)
  }

  /** The same blocks, the first of which faces column block `num`. */
  ghost function Faced(b: seq<SolvBlok>, num: int): seq<SolvBlok> {
    if b == [] then b else b[0 := b[0].(fcblknm := num)]
  }

  /** Reception `e` of column block `i`: its diagonal block faces that column block. */
  ghost function RecvBlokSeq(l: Loc, i: int, e: int): (b: seq<SolvBlok>)
    requires 0 <= i < |l.f| && 0 <= e < |l.f[i]|
    ensures |b| == BlokNbrOf(l.d.s, i, l.f[i][e]) >= 1
    ensures b[0].gbloknm == l.d.s.First(i)
  {
    assert ListOK(l.d, l.f[i], i) && GoodRecv(l.d.s, i, l.f[i][e]);
    var r := l.f[i][e];
    FirstKept(l.d.s, i, r, Before(l, i).cblk + e, |r.bloktab|);
    Faced(KeptBloks(l.d.s, i, r, Before(l, i).cblk + e, |r.bloktab|), Num(l, i))
  }

  ghost function RecvsBloks(l: Loc, i: int, m: int): (b: seq<SolvBlok>)
    requires 0 <= i < |l.f| && 0 <= m <= |l.f[i]|
    ensures |b| == RecvBloks(l.d.s, i, l.f[i], m)
  {
    if m == 0 then [] else RecvsBloks(l, i, m - 1) + RecvBlokSeq(l, i, m - 1)
  }

  /** Blocks that column block `i` adds. */
  ghost function AddedBloks(l: Loc, i: int): (b: seq<SolvBlok>)
    requires 0 <= i < |l.f|
    ensures |b| == Adds(l.d, l.f[i], i).blok
  {
    assert l.d.s.Bounded(i);
    if l.d.owner[i] == l.d.clustnum then RecvsBloks(l, i, |l.f[i]|) + MineBloks(l, i, l.d.s.End(i) - l.d.s.First(i))
    else if l.f[i] != [] then FaninBloks(l, i)
    else []
  }

  ghost function BlokParts(l: Loc): (p: seq<seq<SolvBlok>>)
    ensures |p| == |l.f|
  {
    seq(|l.f|, i requires 0 <= i < |l.f| => AddedBloks(l, i))
  }

  // ----- rows of contributions -----

  /** Local numbers of the blocks of this process among the first `m` of `b`, of 2D tasks or not, in order. */
  ghost function Picked(l: Loc, b: seq<int>, m: int, two: bool): seq<int>
    requires ListsBloks(l.d.s, b) && 0 <= m <= |b|
  {
    if m == 0 then [] else Picked(l, b, m - 1, two) + (if Picks(l, b[m - 1], two) then [NumB(l, b[m - 1])] else [])
  }

  ghost predicate Picks(l: Loc, b: int, two: bool)
    requires 0 <= b < |l.d.s.bloktab|
  {
    assert l.d.s.BlokPlaced(b);
    BlokOwner(l.d.s, l.d.owner, b) == l.d.clustnum && l.t2d[l.d.s.bloktab[b].lcblknm] == two
  }

  lemma {:induction false} PickedNbr(l: Loc, b: seq<int>, m: int)
    requires ListsBloks(l.d.s, b) && 0 <= m <= |b|
    ensures |Picked(l, b, m, false)| + |Picked(l, b, m, true)| == LocalNbr(l.d.s, l.d.owner, l.d.clustnum, b, m)
  {
    if m > 0 {
      PickedNbr(l, b, m - 1);
    }
  }

  /** Contributions of this process to column block `i`: 1D ones, then 2D ones. */
  ghost function Contribs(l: Loc, i: int): (b: seq<int>)
    requires 0 <= i < |l.f|
    ensures |b| == LocalBrow(l.d, i)
  {
    assert BrowListOK(l.d.s, l.d.browtab[i], i);
    ListIsBloks(l.d.s, l.d.browtab[i], i);
    PickedNbr(l, l.d.browtab[i], |l.d.browtab[i]|);
    OneD(l, i) + Picked(l, l.d.browtab[i], |l.d.browtab[i]|, true)
  }

  ghost function OneD(l: Loc, i: int): seq<int>
    requires 0 <= i < |l.f|
  {
    assert BrowListOK(l.d.s, l.d.browtab[i], i);
    ListIsBloks(l.d.s, l.d.browtab[i], i);
    Picked(l, l.d.browtab[i], |l.d.browtab[i]|, false)
  }

  /** First blocks of the first `m` receptions of column block `i`. */
  ghost function RecvDiags(l: Loc, i: int, m: int): (b: seq<int>)
    requires 0 <= i < |l.f| && 0 <= m <= |l.f[i]|
    ensures |b| == m
  {
    seq(m, e requires 0 <= e < m => Before(l, i).blok + RecvBloks(l.d.s, i, l.f[i], e))
  }

  ghost function AddedBrow(l: Loc, i: int): (b: seq<int>)
    requires 0 <= i < |l.f|
    ensures |b| == Adds(l.d, l.f[i], i).brow
  {
    if l.d.owner[i] == l.d.clustnum then Contribs(l, i) + RecvDiags(l, i, |l.f[i]|)
    else if l.f[i] != [] then Contribs(l, i)
    else []
  }

  ghost function BrowParts(l: Loc): (p: seq<seq<int>>)
    ensures |p| == |l.f|
  {
    seq(|l.f|, i requires 0 <= i < |l.f| => AddedBrow(l, i))
  }

  // ----- column blocks -----

  /** Columns of the column blocks of this process below `i`. */
  ghost function Nodes(l: Loc, i: int): (c: int)
    requires 0 <= i <= |l.f|
    ensures 0 <= c && (i < |l.f| ==> c <= l.d.s.cblktab[i].fcolnum)
  {
    if i == 0 then 0
    else
      assert l.d.s.Abut(i - 1) && l.d.s.cblktab[i - 1].fcolnum <= l.d.s.cblktab[i - 1].lcolnum;
      var c := l.d.s.cblktab[i - 1];
      Nodes(l, i - 1) + (if l.d.owner[i - 1] == l.d.clustnum then c.lcolnum - c.fcolnum + 1 else 0)
  }

  /** Column blocks of this process below `i`. */
  ghost function MineNbr(l: Loc, i: int): (c: int)
    requires 0 <= i <= |l.f|
    ensures 0 <= c <= i
  {
    if i == 0 then 0 else MineNbr(l, i - 1) + (if l.d.owner[i - 1] == l.d.clustnum then 1 else 0)
  }

  ghost function RecvCblkOf(l: Loc, i: int, e: int): SolvCblk
    requires 0 <= i < |l.f| && 0 <= e < |l.f[i]|
  {
    var r, n := l.f[i][e], Before(l, i);
    SolvCblk(Receiving, l.t2d[i], n.blok + RecvBloks(l.d.s, i, l.f[i], e), r.fcolnum, r.lcolnum, n.brow, n.brow,
             i, r.ownerid, -(n.fanin + n.recv + e + 1), Nodes(l, i) + r.fcolnum - l.d.s.cblktab[i].fcolnum)
  }

  /** The column block that stands for `i`: its own data, or its fan-in. */
  ghost function Main(l: Loc, i: int): SolvCblk
    requires 0 <= i < |l.f| && Stored(l.d, l.f, i)
  {
    var n, c := Before(l, i), l.d.s.cblktab[i];
    if l.d.owner[i] == l.d.clustnum then
      SolvCblk(Mine, l.t2d[i], n.blok + RecvBloks(l.d.s, i, l.f[i], |l.f[i]|), c.fcolnum, c.lcolnum,
               n.brow, n.brow + |OneD(l, i)|,
               i, l.d.clustnum, MineNbr(l, i), Nodes(l, i))
    else
      var r := l.f[i][0];
      SolvCblk(Sending, l.t2d[i], n.blok, r.fcolnum, r.lcolnum, n.brow, n.brow + |OneD(l, i)|,
               i, r.ownerid, -(n.fanin + n.recv + 1), -1)
  }

  ghost function RecvCblks(l: Loc, i: int, m: int): (c: seq<SolvCblk>)
    requires 0 <= i < |l.f| && 0 <= m <= |l.f[i]|
    ensures |c| == m
  {
    seq(m, e requires 0 <= e < m => RecvCblkOf(l, i, e))
  }

  ghost function AddedCblks(l: Loc, i: int): (c: seq<SolvCblk>)
    requires 0 <= i < |l.f|
    ensures |c| == Adds(l.d, l.f[i], i).cblk
  {
    if l.d.owner[i] == l.d.clustnum then RecvCblks(l, i, |l.f[i]|) + [Main(l, i)]
    else if l.f[i] != [] then [Main(l, i)]
    else []
  }

  ghost function CblkParts(l: Loc): (p: seq<seq<SolvCblk>>)
    ensures |p| == |l.f|
  {
    seq(|l.f|, i requires 0 <= i < |l.f| => AddedCblks(l, i))
  }
}
