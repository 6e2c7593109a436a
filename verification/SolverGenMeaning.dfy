/** What the generated arrays hold, told from the distributed symbol: the columns and rows of
    fan-ins and receptions are the hulls of what is contributed, and the numbers kept with
    each column block are those of the symbol. */
module SolverGenMeaning {
  import opened Symbol
  import opened SolverRecv
  import opened SolverLocal
  import opened SolverGenSpec
  import opened SolverGenThm
  import opened SolverGen

  /** Off-diagonal block `b`, of process `p`, faces column block `i`. */
  ghost predicate Feeds(d: Dist, p: int, b: int, i: int) {
    && 0 <= b < |d.s.bloktab| && d.s.bloktab[b].fcblknm == i != d.s.bloktab[b].lcblknm
    && 0 <= d.s.bloktab[b].lcblknm < |d.owner| && d.owner[d.s.bloktab[b].lcblknm] == p
  }

  /** Columns `f` to `l` are those that process `p` contributes to `i`, and no more. */
  ghost predicate HullColumns(d: Dist, p: int, i: int, f: int, l: int) {
    && (forall b :: Feeds(d, p, b, i) ==> f <= d.s.bloktab[b].frownum && d.s.bloktab[b].lrownum <= l)
    && (exists b :: Feeds(d, p, b, i) && d.s.bloktab[b].frownum == f)
    && (exists b :: Feeds(d, p, b, i) && d.s.bloktab[b].lrownum == l)
  }

  /** An update of process `p` with the rows of block `k` lands in block `t` of column block `i`. */
  ghost predicate Lands(d: Dist, p: int, i: int, k: int, t: int) {
    0 <= k < |d.s.bloktab| && exists b :: Feeds(d, p, b, i) && d.s.Pair(b, k) && d.s.Face(b, k) == t
  }

  /** Rows `f` to `l` are those that process `p` contributes to block `t` of `i`, and no more. */
  ghost predicate HullRows(d: Dist, p: int, i: int, t: int, f: int, l: int) {
    && (forall k :: Lands(d, p, i, k, t) ==> f <= d.s.bloktab[k].frownum && d.s.bloktab[k].lrownum <= l)
    && (exists k :: Lands(d, p, i, k, t) && d.s.bloktab[k].frownum == f)
    && (exists k :: Lands(d, p, i, k, t) && d.s.bloktab[k].lrownum == l)
  }

  // ----- hulls -----

  /** `x` is what process `p` contributes to column block `i`. */
  ghost predicate Contributed(d: Dist, p: int, i: int, x: set<int>) {
    forall b :: b in x <==> Feeds(d, p, b, i)
  }

  lemma ColumnsTight(d: Dist, p: int, i: int, x: set<int>, r: RecvCblk)
    requires IsRecv(d.s, i, x, r) && Contributed(d, p, i, x) && Any(x)
    ensures HullColumns(d, p, i, r.fcolnum, r.lcolnum)
  {
    var b :| b in x;
    assert Feeds(d, p, b, i) && d.s.BlokPlaced(b);
    var f :| f in x && 0 <= f < |d.s.bloktab| && d.s.bloktab[f].frownum == r.fcolnum;
    assert Feeds(d, p, f, i);
    var l :| l in x && 0 <= l < |d.s.bloktab| && d.s.bloktab[l].lrownum == r.lcolnum;
    assert Feeds(d, p, l, i);
  }

  lemma LandsIsTouch(d: Dist, p: int, i: int, x: set<int>, k: int, t: int)
    requires Contributed(d, p, i, x)
    ensures k in Touching(d.s, x, t) <==> Lands(d, p, i, k, t)
  {
    hide SymbolMatrix.Face;
    if Lands(d, p, i, k, t) {
      var b :| Feeds(d, p, b, i) && d.s.Pair(b, k) && d.s.Face(b, k) == t;
      assert b in x;
    }
    if k in Touching(d.s, x, t) {
      var b :| b in x && d.s.Pair(b, k) && d.s.Face(b, k) == t;
      assert Feeds(d, p, b, i);
    }
  }

  lemma RowsTight(d: Dist, p: int, i: int, x: set<int>, r: RecvCblk, n: int)
    requires IsRecv(d.s, i, x, r) && Contributed(d, p, i, x) && 0 <= n < |r.bloktab|
    requires Kept(d.s, d.s.First(i) + n, r.bloktab[n])
    ensures HullRows(d, p, i, d.s.First(i) + n, r.bloktab[n].frownum, r.bloktab[n].lrownum)
  {
    hide Lands, Touching, Feeds, Touches;
    var t, rows := d.s.First(i) + n, r.bloktab[n];
    var touching := Touching(d.s, x, t);
    assert RowsOK(d.s, touching, t, rows);
    forall k ensures k in touching <==> Lands(d, p, i, k, t) {
      LandsIsTouch(d, p, i, x, k, t);
    }
    KeptHull(d.s, touching, t, rows);
    var f :| f in touching && 0 <= f < |d.s.bloktab| && d.s.bloktab[f].frownum == rows.frownum;
    var l :| l in touching && 0 <= l < |d.s.bloktab| && d.s.bloktab[l].lrownum == rows.lrownum;
    assert Lands(d, p, i, f, t) && Lands(d, p, i, l, t);
  }

  lemma KeptHull(s: SymbolMatrix, x: set<int>, t: int, rows: Rows)
    requires RowsOK(s, x, t, rows) && Kept(s, t, rows)
    ensures exists k :: k in x && 0 <= k < |s.bloktab| && s.bloktab[k].frownum == rows.frownum
    ensures exists k :: k in x && 0 <= k < |s.bloktab| && s.bloktab[k].lrownum == rows.lrownum
    ensures forall k :: k in x ==> 0 <= k < |s.bloktab| && rows.frownum <= s.bloktab[k].frownum
    ensures forall k :: k in x ==> 0 <= k < |s.bloktab| && s.bloktab[k].lrownum <= rows.lrownum
  {
  }

  // ----- blocks kept -----

  lemma {:induction false} KeptFrom(s: SymbolMatrix, i: int, r: RecvCblk, num: int, m: int, x: int) returns (n: int)
    requires GoodRecv(s, i, r) && 0 <= m <= |r.bloktab| && 0 <= x < |KeptBloks(s, i, r, num, m)|
    ensures 0 <= n < m && Kept(s, s.First(i) + n, r.bloktab[n]) && BlokNbr(s, i, r, n) == x
    ensures KeptBloks(s, i, r, num, m)[x]
         == SolvBlok(num, -1, r.bloktab[n].frownum, r.bloktab[n].lrownum, s.First(i) + n)
    decreases m
  {
    hide Kept;
    if x < |KeptBloks(s, i, r, num, m - 1)| {
      n := KeptFrom(s, i, r, num, m - 1, x);
    } else {
      n := m - 1;
    }
  }

  /** Each block kept holds the rows that land in a block of `i`. */
  ghost predicate TightBlok(d: Dist, p: int, i: int, num: int, b: SolvBlok)
    requires d.s.Bounded(i)
  {
    && b.lcblknm == num && d.s.First(i) <= b.gbloknm < d.s.End(i)
    && HullRows(d, p, i, b.gbloknm, b.frownum, b.lrownum)
  }

  lemma KeptTight(d: Dist, p: int, i: int, x: set<int>, r: RecvCblk, num: int, y: int)
    requires IsRecv(d.s, i, x, r) && Contributed(d, p, i, x) && GoodRecv(d.s, i, r)
    requires 0 <= y < |KeptBloks(d.s, i, r, num, |r.bloktab|)|
    ensures TightBlok(d, p, i, num, KeptBloks(d.s, i, r, num, |r.bloktab|)[y])
    ensures KeptBloks(d.s, i, r, num, |r.bloktab|)[y].fcblknm == -1
  {
    hide IsRecv, KeptBloks, Kept, HullRows;
    var n := KeptFrom(d.s, i, r, num, |r.bloktab|, y);
    RowsTight(d, p, i, x, r, n);
  }

  /** Blocks are kept in the order of the symbol. */
  lemma KeptOrder(s: SymbolMatrix, i: int, r: RecvCblk, num: int, y: int, z: int)
    requires GoodRecv(s, i, r) && 0 <= y < z < |KeptBloks(s, i, r, num, |r.bloktab|)|
    ensures KeptBloks(s, i, r, num, |r.bloktab|)[y].gbloknm < KeptBloks(s, i, r, num, |r.bloktab|)[z].gbloknm
  {
    hide KeptBloks, Kept, BlokNbr;
    var n := KeptFrom(s, i, r, num, |r.bloktab|, y);
    var k := KeptFrom(s, i, r, num, |r.bloktab|, z);
    if k <= n {
      BlokNbrGrows(s, i, r, k, n);
    }
  }

  /** A block where something lands is kept. */
  lemma KeptHolds(d: Dist, p: int, i: int, x: set<int>, r: RecvCblk, num: int, k: int, t: int) returns (y: int)
    requires IsRecv(d.s, i, x, r) && Contributed(d, p, i, x) && GoodRecv(d.s, i, r)
    requires d.s.First(i) <= t < d.s.End(i) && Lands(d, p, i, k, t)
    ensures 0 <= y < |KeptBloks(d.s, i, r, num, |r.bloktab|)|
    ensures KeptBloks(d.s, i, r, num, |r.bloktab|)[y].gbloknm == t
  {
    hide IsRecv, KeptBloks, Kept, Lands, Touching;
    LandsIsTouch(d, p, i, x, k, t);
    var n := t - d.s.First(i);
    KeptIsTouched(d.s, i, x, r, n);
    KeptAt(d.s, i, r, num, |r.bloktab|, n);
    y := BlokNbr(d.s, i, r, n);
  }

  // ----- fan-ins -----

  /** What the matrix is generated from is a complete count. */
  ghost predicate Ready(m: SolverMatrix)
    reads m, m.cblktab, m.bloktab, m.browtab, m.browind, m.gcbl2loc
  {
    m.Complete() && Registered(m.l.d, m.l.f, |m.l.f|)
  }

  lemma FaninIs(d: Dist, f: seq<seq<RecvCblk>>, i: int) returns (x: set<int>)
    requires Registered(d, f, |f|) && 0 <= i < |f| && d.owner[i] != d.clustnum && f[i] != []
    ensures |f[i]| == 1 && f[i][0].ownerid == d.owner[i] && IsRecv(d.s, i, x, f[i][0])
    ensures Contributed(d, d.clustnum, i, x) && Any(x)
  {
    hide IsRecv;
    x := Sent(d.s, d.owner, d.clustnum, i, |d.s.bloktab|);
    assert FaninOf(d.s, i, d.owner[i], x, f[i]);
    forall b ensures b in x <==> Feeds(d, d.clustnum, b, i) {
      if 0 <= b < |d.s.bloktab| {
        assert d.s.BlokPlaced(b);
      }
    }
  }

  /** A stored fan-in has the columns that this process contributes, and no more, and names
      the owner of the column block. */
  lemma FaninColumns(m: SolverMatrix, i: int)
    requires Ready(m) && 0 <= i < |m.l.f| && m.l.d.owner[i] != m.l.d.clustnum && m.gcbl2loc[i] >= 0
    ensures 0 <= m.gcbl2loc[i] < m.nbr.cblk
    ensures var c := m.cblktab[m.gcbl2loc[i]];
      && c.role == Sending && HullColumns(m.l.d, m.l.d.clustnum, i, c.fcolnum, c.lcolnum)
      && c.gcblknum == i && c.ownerid == m.l.d.owner[i] && c.tasks2d == m.l.t2d[i]
  {
    hide HullColumns, IsRecv, Registered, Totals, Inverse, CblkNum;
    CblkFound(m, i);
    var x := FaninIs(m.l.d, m.l.f, i);
    ColumnsTight(m.l.d, m.l.d.clustnum, i, x, m.l.f[i][0]);
  }

  /** Each block of a stored fan-in holds the rows that land in one block of the symbol; it
      faces nothing here. */
  lemma FaninRows(m: SolverMatrix, i: int, y: int)
    requires Ready(m) && 0 <= i < |m.l.f| && m.l.d.owner[i] != m.l.d.clustnum && m.l.f[i] != []
    requires 0 <= y < BlokNbrOf(m.l.d.s, i, m.l.f[i][0])
    ensures 0 <= m.gcbl2loc[i] < m.nbr.cblk && m.l.d.s.Bounded(i)
    ensures var z := m.cblktab[m.gcbl2loc[i]].fblok + y;
      0 <= z < m.nbr.blok && TightBlok(m.l.d, m.l.d.clustnum, i, m.gcbl2loc[i], m.bloktab[z])
      && m.bloktab[z].fcblknm == -1
  {
    hide IsRecv, Registered, Totals, Inverse, CblkNum, KeptBloks, TightBlok, BlokNbrOf, Main, AllBloks, GoodRecv;
    CblkFound(m, i);
    var x := FaninIs(m.l.d, m.l.f, i);
    FaninGood(m.l, i);
    FaninBlokRun(m.l, i, y);
    assert m.bloktab[..m.nbr.blok][Main(m.l, i).fblok + y] == FaninBloks(m.l, i)[y];
    KeptTight(m.l.d, m.l.d.clustnum, i, x, m.l.f[i][0], Num(m.l, i), y);
  }

  lemma FaninGood(l: Loc, i: int)
    requires 0 <= i < |l.f| && l.f[i] != []
    ensures GoodRecv(l.d.s, i, l.f[i][0]) && l.d.s.Bounded(i)
    ensures FaninBloks(l, i) == KeptBloks(l.d.s, i, l.f[i][0], Num(l, i), |l.f[i][0].bloktab|)
    ensures |FaninBloks(l, i)| == BlokNbrOf(l.d.s, i, l.f[i][0])
  {
    hide KeptBloks, BlokNbrOf, CblkNum;
    assert ListOK(l.d, l.f[i], i) && GoodRecv(l.d.s, i, l.f[i][0]);
  }

  /** They come in the order of the symbol. */
  lemma FaninOrder(m: SolverMatrix, i: int, y: int, z: int)
    requires Ready(m) && 0 <= i < |m.l.f| && m.l.d.owner[i] != m.l.d.clustnum && m.l.f[i] != []
    requires 0 <= y < z < BlokNbrOf(m.l.d.s, i, m.l.f[i][0])
    ensures 0 <= m.gcbl2loc[i] < m.nbr.cblk
    ensures var f := m.cblktab[m.gcbl2loc[i]].fblok;
      0 <= f + y < m.nbr.blok && 0 <= f + z < m.nbr.blok && m.bloktab[f + y].gbloknm < m.bloktab[f + z].gbloknm
  {
    hide Registered, Totals, Inverse, CblkNum, KeptBloks, BlokNbrOf, Main, AllBloks, GoodRecv;
    CblkFound(m, i);
    FaninGood(m.l, i);
    FaninBlokRun(m.l, i, y);
    FaninBlokRun(m.l, i, z);
    assert m.bloktab[..m.nbr.blok][Main(m.l, i).fblok + y] == FaninBloks(m.l, i)[y];
    assert m.bloktab[..m.nbr.blok][Main(m.l, i).fblok + z] == FaninBloks(m.l, i)[z];
    KeptOrder(m.l.d.s, i, m.l.f[i][0], Num(m.l, i), y, z);
  }

  /** Every block where something of this process lands is stored in the fan-in. */
  lemma FaninHolds(m: SolverMatrix, i: int, k: int, t: int) returns (y: int)
    requires Ready(m) && 0 <= i < |m.l.f| && m.l.d.owner[i] != m.l.d.clustnum && m.l.f[i] != []
    requires m.l.d.s.Bounded(i) && m.l.d.s.First(i) <= t < m.l.d.s.End(i)
    requires Lands(m.l.d, m.l.d.clustnum, i, k, t)
    ensures 0 <= y < BlokNbrOf(m.l.d.s, i, m.l.f[i][0]) && 0 <= m.gcbl2loc[i] < m.nbr.cblk
    ensures var z := m.cblktab[m.gcbl2loc[i]].fblok + y; 0 <= z < m.nbr.blok && m.bloktab[z].gbloknm == t
  {
    hide IsRecv, Registered, Totals, Inverse, CblkNum, KeptBloks, BlokNbrOf, Main, AllBloks, GoodRecv, Lands;
    CblkFound(m, i);
    var x := FaninIs(m.l.d, m.l.f, i);
    FaninGood(m.l, i);
    y := KeptHolds(m.l.d, m.l.d.clustnum, i, x, m.l.f[i][0], Num(m.l, i), k, t);
    FaninBlokRun(m.l, i, y);
    assert m.bloktab[..m.nbr.blok][Main(m.l, i).fblok + y] == FaninBloks(m.l, i)[y];
  }

  /** The fan-in exists as soon as a block of this process faces the column block, and only then. */
  lemma FaninExists(m: SolverMatrix, i: int)
    requires Ready(m) && 0 <= i < |m.l.f| && m.l.d.owner[i] != m.l.d.clustnum
    ensures m.gcbl2loc[i] >= 0 <==> exists b :: Feeds(m.l.d, m.l.d.clustnum, b, i)
  {
    hide IsRecv, Totals, Inverse, CblkNum;
    var d := m.l.d;
    var x := Sent(d.s, d.owner, d.clustnum, i, |d.s.bloktab|);
    assert FaninOf(d.s, i, d.owner[i], x, m.l.f[i]);
    forall b ensures b in x <==> Feeds(d, d.clustnum, b, i) {
      if 0 <= b < |d.s.bloktab| {
        assert d.s.BlokPlaced(b);
      }
    }
    if m.l.f[i] != [] {
      CblkFound(m, i);
      assert Any(x);
    }
  }

  // ----- receptions -----

  lemma RecvIs(d: Dist, f: seq<seq<RecvCblk>>, i: int, e: int) returns (x: set<int>)
    requires Registered(d, f, |f|) && 0 <= i < |f| && d.owner[i] == d.clustnum && 0 <= e < |f[i]|
    ensures IsRecv(d.s, i, x, f[i][e]) && f[i][e].ownerid != d.clustnum
    ensures Contributed(d, f[i][e].ownerid, i, x) && Any(x)
  {
    hide IsRecv;
    var remote, q := Remote(d.s, d.owner, d.clustnum, i), f[i][e].ownerid;
    assert RecvOK(d.s, i, d.owner, remote, f[i][e]);
    x := From(d.s, d.owner, remote, q);
    var a :| a in x;
    assert d.s.BlokPlaced(a);
    forall b ensures b in x <==> Feeds(d, q, b, i) {
      if 0 <= b < |d.s.bloktab| {
        assert d.s.BlokPlaced(b);
      }
    }
  }

  /** Place of reception `e` of column block `i`. */
  ghost function RecvPlace(m: SolverMatrix, i: int, e: int): int
    requires 0 <= i < |m.l.f| == m.gcbl2loc.Length
    reads m.gcbl2loc
  {
    m.gcbl2loc[i] - |m.l.f[i]| + e
  }

  /** A stored reception has the columns that its process contributes, and no more; its columns
      stand in the owned column block where they do in the symbol. */
  lemma RecvColumns(m: SolverMatrix, i: int, e: int)
    requires Ready(m) && 0 <= i < |m.l.f| && m.l.d.owner[i] == m.l.d.clustnum && 0 <= e < |m.l.f[i]|
    ensures 0 <= RecvPlace(m, i, e) < m.gcbl2loc[i] < m.nbr.cblk
    ensures var c, main := m.cblktab[RecvPlace(m, i, e)], m.cblktab[m.gcbl2loc[i]];
      && c.role == Receiving && c.ownerid == m.l.f[i][e].ownerid != m.l.d.clustnum
      && HullColumns(m.l.d, c.ownerid, i, c.fcolnum, c.lcolnum)
      && c.lcolidx - main.lcolidx == c.fcolnum - main.fcolnum
      && c.gcblknum == i && c.tasks2d == m.l.t2d[i]
  {
    hide HullColumns, IsRecv, Registered, Totals, Inverse, CblkNum, OneD;
    CblkFound(m, i);
    RecvFound(m, i, e);
    var x := RecvIs(m.l.d, m.l.f, i, e);
    ColumnsTight(m.l.d, m.l.f[i][e].ownerid, i, x, m.l.f[i][e]);
  }

  lemma RecvGood(l: Loc, i: int, e: int)
    requires 0 <= i < |l.f| && 0 <= e < |l.f[i]|
    ensures GoodRecv(l.d.s, i, l.f[i][e]) && l.d.s.Bounded(i)
    ensures RecvBlokSeq(l, i, e)
         == Faced(KeptBloks(l.d.s, i, l.f[i][e], Before(l, i).cblk + e, |l.f[i][e].bloktab|), Num(l, i))
    ensures |RecvBlokSeq(l, i, e)| == BlokNbrOf(l.d.s, i, l.f[i][e])
  {
    hide KeptBloks, BlokNbrOf, CblkNum, Totals;
    assert ListOK(l.d, l.f[i], i) && GoodRecv(l.d.s, i, l.f[i][e]);
  }

  lemma RecvPlaceIs(m: SolverMatrix, i: int, e: int)
    requires m.Complete() && 0 <= i < |m.l.f| && m.l.d.owner[i] == m.l.d.clustnum && 0 <= e < |m.l.f[i]|
    ensures RecvPlace(m, i, e) == Before(m.l, i).cblk + e
  {
    hide Inverse, Totals;
  }

  /** Each block of a stored reception holds the rows that land in one block of the symbol; the
      first faces the owned column block, the others nothing. */
  lemma RecvRows(m: SolverMatrix, i: int, e: int, y: int)
    requires Ready(m) && 0 <= i < |m.l.f| && m.l.d.owner[i] == m.l.d.clustnum && 0 <= e < |m.l.f[i]|
    requires 0 <= y < BlokNbrOf(m.l.d.s, i, m.l.f[i][e])
    ensures 0 <= RecvPlace(m, i, e) < m.nbr.cblk && m.l.d.s.Bounded(i)
    ensures var c := m.cblktab[RecvPlace(m, i, e)];
      var z := c.fblok + y;
      && 0 <= z < m.nbr.blok && TightBlok(m.l.d, c.ownerid, i, RecvPlace(m, i, e), m.bloktab[z])
      && m.bloktab[z].fcblknm == (if y == 0 then m.gcbl2loc[i] else -1)
  {
    hide IsRecv, Registered, Totals, Inverse, CblkNum, KeptBloks, HullRows, BlokNbrOf, AllBloks, GoodRecv, RecvBloks;
    CblkFound(m, i);
    RecvFound(m, i, e);
    RecvPlaceIs(m, i, e);
    var x := RecvIs(m.l.d, m.l.f, i, e);
    RecvGood(m.l, i, e);
    RecvBlokRun(m.l, i, e, y);
    assert m.bloktab[..m.nbr.blok][RecvCblkOf(m.l, i, e).fblok + y] == RecvBlokSeq(m.l, i, e)[y];
    KeptTight(m.l.d, m.l.f[i][e].ownerid, i, x, m.l.f[i][e], Before(m.l, i).cblk + e, y);
  }

  /** They come in the order of the symbol. */
  lemma RecvOrder(m: SolverMatrix, i: int, e: int, y: int, z: int)
    requires Ready(m) && 0 <= i < |m.l.f| && m.l.d.owner[i] == m.l.d.clustnum && 0 <= e < |m.l.f[i]|
    requires 0 <= y < z < BlokNbrOf(m.l.d.s, i, m.l.f[i][e])
    ensures 0 <= RecvPlace(m, i, e) < m.nbr.cblk
    ensures var f := m.cblktab[RecvPlace(m, i, e)].fblok;
      0 <= f + y < m.nbr.blok && 0 <= f + z < m.nbr.blok && m.bloktab[f + y].gbloknm < m.bloktab[f + z].gbloknm
  {
    hide Registered, Totals, Inverse, CblkNum, KeptBloks, BlokNbrOf, AllBloks, GoodRecv, RecvBloks;
    RecvFound(m, i, e);
    RecvGood(m.l, i, e);
    RecvBlokRun(m.l, i, e, y);
    RecvBlokRun(m.l, i, e, z);
    assert m.bloktab[..m.nbr.blok][RecvCblkOf(m.l, i, e).fblok + y] == RecvBlokSeq(m.l, i, e)[y];
    assert m.bloktab[..m.nbr.blok][RecvCblkOf(m.l, i, e).fblok + z] == RecvBlokSeq(m.l, i, e)[z];
    KeptOrder(m.l.d.s, i, m.l.f[i][e], Before(m.l, i).cblk + e, y, z);
  }

  /** Every block where something of another process lands is stored in its reception. */
  lemma RecvHolds(m: SolverMatrix, i: int, e: int, k: int, t: int) returns (y: int)
    requires Ready(m) && 0 <= i < |m.l.f| && m.l.d.owner[i] == m.l.d.clustnum && 0 <= e < |m.l.f[i]|
    requires m.l.d.s.Bounded(i) && m.l.d.s.First(i) <= t < m.l.d.s.End(i)
    requires Lands(m.l.d, m.l.f[i][e].ownerid, i, k, t)
    ensures 0 <= y < BlokNbrOf(m.l.d.s, i, m.l.f[i][e]) && 0 <= RecvPlace(m, i, e) < m.nbr.cblk
    ensures var z := m.cblktab[RecvPlace(m, i, e)].fblok + y; 0 <= z < m.nbr.blok && m.bloktab[z].gbloknm == t
  {
    hide IsRecv, Registered, Totals, Inverse, CblkNum, KeptBloks, BlokNbrOf, AllBloks, GoodRecv, Lands, RecvBloks;
    CblkFound(m, i);
    RecvFound(m, i, e);
    var x := RecvIs(m.l.d, m.l.f, i, e);
    RecvGood(m.l, i, e);
    y := KeptHolds(m.l.d, m.l.f[i][e].ownerid, i, x, m.l.f[i][e], Before(m.l, i).cblk + e, k, t);
    RecvBlokRun(m.l, i, e, y);
    assert m.bloktab[..m.nbr.blok][RecvCblkOf(m.l, i, e).fblok + y] == RecvBlokSeq(m.l, i, e)[y];
  }

  /** Each other process with a block that faces the column block has one reception. */
  lemma RecvExists(m: SolverMatrix, i: int, b: int, q: int) returns (e: int)
    requires Ready(m) && 0 <= i < |m.l.f| && m.l.d.owner[i] == m.l.d.clustnum
    requires Feeds(m.l.d, q, b, i) && q != m.l.d.clustnum
    ensures 0 <= e < |m.l.f[i]| && m.l.f[i][e].ownerid == q
    ensures forall g :: 0 <= g < |m.l.f[i]| && m.l.f[i][g].ownerid == q ==> g == e
  {
    hide IsRecv, Totals, Inverse, CblkNum;
    var d := m.l.d;
    assert d.s.BlokPlaced(b);
    assert b in Remote(d.s, d.owner, d.clustnum, i);
    assert Tagged(m.l.f[i], q);
    e :| 0 <= e < |m.l.f[i]| && m.l.f[i][e].ownerid == q;
  }

  // ----- owned column blocks -----

  /** An owned column block keeps the columns of the symbol. */
  lemma MineColumns(m: SolverMatrix, i: int)
    requires m.Complete() && 0 <= i < |m.l.f| && m.l.d.owner[i] == m.l.d.clustnum
    ensures 0 <= m.gcbl2loc[i] < m.nbr.cblk
    ensures var c := m.cblktab[m.gcbl2loc[i]];
      && c.role == Mine && c.fcolnum == m.l.d.s.cblktab[i].fcolnum && c.lcolnum == m.l.d.s.cblktab[i].lcolnum
      && c.gcblknum == i && c.ownerid == m.l.d.clustnum && c.tasks2d == m.l.t2d[i]
  {
    hide Totals, Inverse, CblkNum, OneD;
    CblkFound(m, i);
  }

  lemma {:induction false} NoneBetween(l: Loc, i: int, k: int)
    requires 0 <= i <= k <= |l.f| && forall x :: i <= x < k ==> l.d.owner[x] != l.d.clustnum
    ensures MineNbr(l, k) == MineNbr(l, i) && Nodes(l, k) == Nodes(l, i)
    decreases k
  {
    if i < k {
      NoneBetween(l, i, k - 1);
    }
  }

  /** Owned column blocks are numbered from 0 and their columns laid end to end. */
  lemma FirstMine(m: SolverMatrix, i: int)
    requires m.Complete() && 0 <= i < |m.l.f| && m.l.d.owner[i] == m.l.d.clustnum
    requires forall x :: 0 <= x < i ==> m.l.d.owner[x] != m.l.d.clustnum
    ensures 0 <= m.gcbl2loc[i] < m.nbr.cblk
    ensures m.cblktab[m.gcbl2loc[i]].bcscnum == 0 && m.cblktab[m.gcbl2loc[i]].lcolidx == 0
  {
    hide Totals, Inverse, CblkNum, OneD;
    CblkFound(m, i);
    NoneBetween(m.l, 0, i);
  }

  lemma NextMine(m: SolverMatrix, i: int, k: int)
    requires m.Complete() && 0 <= i < k < |m.l.f| && m.l.d.owner[i] == m.l.d.owner[k] == m.l.d.clustnum
    requires forall x :: i < x < k ==> m.l.d.owner[x] != m.l.d.clustnum
    ensures 0 <= m.gcbl2loc[i] < m.nbr.cblk && 0 <= m.gcbl2loc[k] < m.nbr.cblk
    ensures var b, c := m.cblktab[m.gcbl2loc[i]], m.cblktab[m.gcbl2loc[k]];
      c.bcscnum == b.bcscnum + 1 && c.lcolidx == b.lcolidx + b.lcolnum - b.fcolnum + 1
  {
    hide Totals, Inverse, CblkNum, OneD;
    CblkFound(m, i);
    CblkFound(m, k);
    NoneBetween(m.l, i + 1, k);
  }

  // ----- numbers of the others -----

  /** The column block at place `x` stands for some `i`: its own data or fan-in, or a reception. */
  lemma CblkFrom(m: SolverMatrix, x: int) returns (i: int, e: int)
    requires m.Complete() && 0 <= x < m.nbr.cblk
    ensures 0 <= i < |m.l.f| && Stored(m.l.d, m.l.f, i) && 0 <= e < Adds(m.l.d, m.l.f[i], i).cblk
    ensures x == Before(m.l, i).cblk + e && m.cblktab[x] == AddedCblks(m.l, i)[e]
  {
    hide Totals, Inverse, CblkNum, Main, RecvCblkOf, Joined;
    assert m.cblktab[x] == m.cblktab[..m.nbr.cblk][x] == AllCblks(m.l)[x];
    i, e := JoinedFind(CblkParts(m.l), |m.l.f|, x);
    SizesCounted(m.l, i);
    JoinedAt(CblkParts(m.l), |m.l.f|, i, e);
  }

  /** A fan-in or reception has a negative number, below those of the ones before it. */
  lemma OtherNumber(l: Loc, i: int, e: int)
    requires 0 <= i < |l.f| && Stored(l.d, l.f, i) && 0 <= e < Adds(l.d, l.f[i], i).cblk
    ensures var c := AddedCblks(l, i)[e];
      && (c.role == Mine ==> c.bcscnum >= 0)
      && (c.role != Mine ==> c.bcscnum == -(Before(l, i).fanin + Before(l, i).recv + e + 1))
      && (c.role != Mine ==> Before(l, i + 1).fanin + Before(l, i + 1).recv >= -c.bcscnum)
  {
    hide Totals, OneD, Nodes, CblkNum, RecvBloks;
    BeforeNext(l, i);
  }

  /** The number of an owned column block is never negative, that of any other always is, and
      no two of the others share one. */
  lemma BcscApart(m: SolverMatrix, x: int, z: int)
    requires m.Complete() && 0 <= x < z < m.nbr.cblk
    ensures var a, b := m.cblktab[x], m.cblktab[z];
      && (a.role == Mine ==> a.bcscnum >= 0) && (a.role != Mine ==> a.bcscnum < 0)
      && (a.role != Mine && b.role != Mine ==> b.bcscnum < a.bcscnum)
  {
    hide Totals, Inverse, CblkNum, AddedCblks, Adds;
    var i, e := CblkFrom(m, x);
    var k, g := CblkFrom(m, z);
    OtherNumber(m.l, i, e);
    OtherNumber(m.l, k, g);
    CountsNonNegative(m.l, i);
    PlacesOrder(m.l, i, e, k, g);
    if i < k {
      TotalsGrow(m.l, i + 1, k);
      CountsGrow(m.l, i + 1, k);
    }
  }

  lemma {:induction false} CountsNonNegative(l: Loc, i: int)
    requires 0 <= i <= |l.f|
    ensures Before(l, i).fanin >= 0 && Before(l, i).recv >= 0
  {
    if i > 0 {
      CountsNonNegative(l, i - 1);
    }
  }

  lemma {:induction false} CountsGrow(l: Loc, i: int, k: int)
    requires 0 <= i <= k <= |l.f|
    ensures Before(l, i).fanin + Before(l, i).recv <= Before(l, k).fanin + Before(l, k).recv
    decreases k
  {
    if i < k {
      CountsGrow(l, i, k - 1);
    }
  }

  lemma PlacesOrder(l: Loc, i: int, e: int, k: int, g: int)
    requires 0 <= i < |l.f| && 0 <= k < |l.f|
    requires 0 <= e < Adds(l.d, l.f[i], i).cblk && 0 <= g < Adds(l.d, l.f[k], k).cblk
    requires Before(l, i).cblk + e < Before(l, k).cblk + g
    ensures i < k || (i == k && e < g)
  {
    hide Totals, Adds;
    if k < i {
      BeforeNext(l, k);
      TotalsGrow(l, k + 1, i);
    }
  }
}
