/** What the generated solver matrix guarantees: its sizes are those counted, local
    numbers lead to the right column blocks and blocks, and no contribution is listed twice. */
module SolverGenThm {
  import opened Symbol
  import opened SolverRecv
  import opened SolverLocal
  import opened SolverGenSpec

  // ----- sizes -----

  lemma {:induction false} SizesCounted(l: Loc, i: int)
    requires 0 <= i <= |l.f|
    ensures |Joined(CblkParts(l), i)| == Before(l, i).cblk
    ensures |Joined(BlokParts(l), i)| == Before(l, i).blok
    ensures |Joined(BrowParts(l), i)| == Before(l, i).brow
  {
    hide Adds, Main, AddedCblks, AddedBloks, AddedBrow;
    if i > 0 {
      SizesCounted(l, i - 1);
    }
  }

  ghost function AllCblks(l: Loc): (c: seq<SolvCblk>)
    ensures |c| == Before(l, |l.f|).cblk
  {
    SizesCounted(l, |l.f|);
    Joined(CblkParts(l), |l.f|)
  }

  ghost function AllBloks(l: Loc): (b: seq<SolvBlok>)
    ensures |b| == Before(l, |l.f|).blok
  {
    SizesCounted(l, |l.f|);
    Joined(BlokParts(l), |l.f|)
  }

  ghost function AllBrow(l: Loc): (b: seq<int>)
    ensures |b| == Before(l, |l.f|).brow
  {
    SizesCounted(l, |l.f|);
    Joined(BrowParts(l), |l.f|)
  }

  // ----- positions -----

  /** The local number of a stored column block is where it stands. */
  lemma CblkAt(l: Loc, i: int, m: int)
    requires 0 <= i < m <= |l.f| && Stored(l.d, l.f, i)
    ensures 0 <= Num(l, i) < |Joined(CblkParts(l), m)| && Joined(CblkParts(l), m)[Num(l, i)] == Main(l, i)
  {
    hide Main, Joined, Totals;
    SizesCounted(l, i);
    var x := if l.d.owner[i] == l.d.clustnum then |l.f[i]| else 0;
    JoinedAt(CblkParts(l), m, i, x);
    assert CblkParts(l)[i][x] == Main(l, i);
  }

  /** Receptions stand just before their column block. */
  lemma RecvCblkAt(l: Loc, i: int, e: int)
    requires 0 <= i < |l.f| && l.d.owner[i] == l.d.clustnum && 0 <= e < |l.f[i]|
    ensures var x := Num(l, i) - |l.f[i]| + e;
      0 <= x < |AllCblks(l)| && AllCblks(l)[x] == RecvCblkOf(l, i, e)
  {
    hide Main, Joined, Totals, RecvCblkOf;
    SizesCounted(l, i);
    JoinedAt(CblkParts(l), |l.f|, i, e);
    assert CblkParts(l)[i][e] == RecvCblkOf(l, i, e);
  }

  /** The local number of a block of this process is where it stands. */
  lemma BlokAt(l: Loc, i: int, j: int, m: int)
    requires 0 <= i < m <= |l.f| && l.d.owner[i] == l.d.clustnum && l.d.s.First(i) <= j < l.d.s.End(i)
    ensures 0 <= j < |l.d.s.bloktab| && l.d.s.bloktab[j].lcblknm == i
    ensures 0 <= NumB(l, j) < |Joined(BlokParts(l), m)| && Joined(BlokParts(l), m)[NumB(l, j)] == MineBlok(l, i, j)
  {
    hide MineBlok, Joined, Totals, RecvBloks;
    OwnBlok(l.d.s, l.d.owner, i, j);
    SizesCounted(l, i);
    var x := |RecvsBloks(l, i, |l.f[i]|)| + j - l.d.s.First(i);
    JoinedAt(BlokParts(l), m, i, x);
    assert BlokParts(l)[i][x] == MineBlok(l, i, j);
  }

  /** The local number of a block kept by a fan-in is where it stands. */
  lemma FaninBlokAt(l: Loc, i: int, j: int)
    requires 0 <= i < |l.f| && l.d.owner[i] != l.d.clustnum && l.f[i] != [] && l.d.s.First(i) <= j < l.d.s.End(i)
    ensures 0 <= j < |l.d.s.bloktab| && l.d.s.bloktab[j].lcblknm == i && GoodRecv(l.d.s, i, l.f[i][0])
    ensures var rows := l.f[i][0].bloktab[j - l.d.s.First(i)];
      if Kept(l.d.s, j, rows)
      then 0 <= NumB(l, j) < |AllBloks(l)| && AllBloks(l)[NumB(l, j)]
          == SolvBlok(Num(l, i), -1, rows.frownum, rows.lrownum, j)
      else NumB(l, j) == -1
  {
    hide Joined, Totals, BlokNbr, Kept, KeptOK;
    OwnBlok(l.d.s, l.d.owner, i, j);
    assert ListOK(l.d, l.f[i], i) && GoodRecv(l.d.s, i, l.f[i][0]);
    var r, n := l.f[i][0], j - l.d.s.First(i);
    if Kept(l.d.s, j, r.bloktab[n]) {
      SizesCounted(l, i);
      KeptAt(l.d.s, i, r, Num(l, i), |r.bloktab|, n);
      assert BlokParts(l)[i] == FaninBloks(l, i);
      JoinedAt(BlokParts(l), |l.f|, i, BlokNbr(l.d.s, i, r, n));
    }
  }

  /** The contributions listed for `i` start at its `brownum`. */
  lemma BrowAt(l: Loc, i: int, x: int)
    requires 0 <= i < |l.f| && Stored(l.d, l.f, i) && 0 <= x < |AddedBrow(l, i)|
    ensures 0 <= Main(l, i).brownum + x < |AllBrow(l)| && AllBrow(l)[Main(l, i).brownum + x] == AddedBrow(l, i)[x]
  {
    hide Joined, Totals, AddedBrow;
    SizesCounted(l, i);
    JoinedAt(BrowParts(l), |l.f|, i, x);
  }

  // ----- contributions -----

  /** Symbol block behind local block `y`. */
  ghost function Origin(l: Loc, y: int): int
    requires 0 <= y < |AllBloks(l)|
  {
    AllBloks(l)[y].gbloknm
  }

  /** Local block `y` comes from symbol block `b`. */
  ghost predicate ComesFrom(l: Loc, y: int, b: int) {
    0 <= y < |AllBloks(l)| && Origin(l, y) == b && 0 <= b < |l.d.s.bloktab|
  }

  lemma NumComesFrom(l: Loc, b: int)
    requires 0 <= b < |l.d.s.bloktab| && BlokOwner(l.d.s, l.d.owner, b) == l.d.clustnum
    ensures ComesFrom(l, NumB(l, b), b)
  {
    assert l.d.s.BlokPlaced(b);
    BlokAt(l, l.d.s.bloktab[b].lcblknm, b, |l.f|);
  }

  lemma {:induction false} PickedFrom(l: Loc, b: seq<int>, m: int, two: bool, x: int) returns (a: int)
    requires ListsBloks(l.d.s, b) && 0 <= m <= |b| && 0 <= x < |Picked(l, b, m, two)|
    ensures 0 <= a < m && Picks(l, b[a], two) && Picked(l, b, m, two)[x] == NumB(l, b[a])
  {
    if x < |Picked(l, b, m - 1, two)| {
      a := PickedFrom(l, b, m - 1, two, x);
    } else {
      a := m - 1;
    }
  }

  /** A list without repetition is picked without repetition. */
  lemma {:induction false} PickedApart(l: Loc, b: seq<int>, m: int, two: bool, x: int, z: int)
    requires ListsBloks(l.d.s, b) && 0 <= m <= |b| && (forall a, c :: 0 <= a < c < |b| ==> b[a] != b[c])
    requires 0 <= x < z < |Picked(l, b, m, two)|
    ensures Picked(l, b, m, two)[x] != Picked(l, b, m, two)[z]
  {
    hide NumB, Picks;
    if z < |Picked(l, b, m - 1, two)| {
      PickedApart(l, b, m - 1, two, x, z);
    } else {
      var a := PickedFrom(l, b, m - 1, two, x);
      PicksOwned(l, b[a], two);
      PicksOwned(l, b[m - 1], two);
      NumComesFrom(l, b[a]);
      NumComesFrom(l, b[m - 1]);
      assert b[a] != b[m - 1];
    }
  }

  lemma PicksOwned(l: Loc, b: int, two: bool)
    requires 0 <= b < |l.d.s.bloktab| && Picks(l, b, two)
    ensures BlokOwner(l.d.s, l.d.owner, b) == l.d.clustnum && !Picks(l, b, !two)
  {
  }

  /** A contribution to `i` comes from an off-diagonal block facing it. */
  lemma ContribFrom(l: Loc, i: int, x: int) returns (b: int, two: bool)
    requires 0 <= i < |l.f| && 0 <= x < |Contribs(l, i)|
    ensures Faces(l.d.s, b, i) && Picks(l, b, two) && two == (x >= |OneD(l, i)|)
    ensures Contribs(l, i)[x] == NumB(l, b) && ComesFrom(l, NumB(l, b), b)
  {
    hide NumB, Picks, Picked, LocalNbr, LocalBrow, AllBloks, BlokOwner;
    var list := l.d.browtab[i];
    assert BrowListOK(l.d.s, list, i);
    ListIsBloks(l.d.s, list, i);
    var a;
    if x < |OneD(l, i)| {
      a := PickedFrom(l, list, |list|, false, x);
      two := false;
    } else {
      a := PickedFrom(l, list, |list|, true, x - |OneD(l, i)|);
      two := true;
    }
    b := list[a];
    assert Faces(l.d.s, list[a], i);
    PicksOwned(l, b, two);
    NumComesFrom(l, b);
  }

  lemma ContribsApart(l: Loc, i: int, x: int, z: int)
    requires 0 <= i < |l.f| && 0 <= x < z < |Contribs(l, i)|
    ensures Contribs(l, i)[x] != Contribs(l, i)[z]
  {
    hide NumB, Picks, Picked, LocalNbr, LocalBrow, AllBloks;
    var list := l.d.browtab[i];
    assert BrowListOK(l.d.s, list, i);
    ListIsBloks(l.d.s, list, i);
    var n := |OneD(l, i)|;
    if z < n {
      PickedApart(l, list, |list|, false, x, z);
    } else if x >= n {
      PickedApart(l, list, |list|, true, x - n, z - n);
    } else {
      var b, two := ContribFrom(l, i, x);
      var c, three := ContribFrom(l, i, z);
      PicksOwned(l, b, two);
    }
  }

  lemma {:induction false} RecvsBloksAt(l: Loc, i: int, m: int, e: int, x: int)
    requires 0 <= i < |l.f| && 0 <= e < m <= |l.f[i]| && 0 <= x < |RecvBlokSeq(l, i, e)|
    ensures var y := RecvBloks(l.d.s, i, l.f[i], e) + x;
      0 <= y < |RecvsBloks(l, i, m)| && RecvsBloks(l, i, m)[y] == RecvBlokSeq(l, i, e)[x]
    decreases m
  {
    hide RecvBlokSeq;
    if e < m - 1 {
      RecvsBloksAt(l, i, m - 1, e, x);
    }
  }

  /** The blocks of reception `e` of `i` stand from its first block on. */
  lemma RecvBlokRun(l: Loc, i: int, e: int, x: int)
    requires 0 <= i < |l.f| && l.d.owner[i] == l.d.clustnum && 0 <= e < |l.f[i]| && 0 <= x < |RecvBlokSeq(l, i, e)|
    ensures var y := RecvCblkOf(l, i, e).fblok + x;
      0 <= y < |AllBloks(l)| && AllBloks(l)[y] == RecvBlokSeq(l, i, e)[x]
  {
    hide Joined, Totals, RecvBlokSeq, RecvBloks;
    assert l.d.s.Bounded(i);
    SizesCounted(l, i);
    RecvsBloksAt(l, i, |l.f[i]|, e, x);
    var y := RecvBloks(l.d.s, i, l.f[i], e) + x;
    assert BlokParts(l)[i][y] == RecvBlokSeq(l, i, e)[x];
    JoinedAt(BlokParts(l), |l.f|, i, y);
  }

  /** So do the blocks of a fan-in. */
  lemma FaninBlokRun(l: Loc, i: int, x: int)
    requires 0 <= i < |l.f| && l.d.owner[i] != l.d.clustnum && l.f[i] != [] && 0 <= x < |FaninBloks(l, i)|
    ensures var y := Main(l, i).fblok + x;
      0 <= y < |AllBloks(l)| && AllBloks(l)[y] == FaninBloks(l, i)[x]
  {
    hide Joined, Totals, FaninBloks, OneD;
    SizesCounted(l, i);
    assert BlokParts(l)[i] == FaninBloks(l, i);
    JoinedAt(BlokParts(l), |l.f|, i, x);
  }

  /** The first block of a reception of `i` comes from the diagonal block of `i`. */
  lemma RecvDiagFrom(l: Loc, i: int, e: int)
    requires 0 <= i < |l.f| && l.d.owner[i] == l.d.clustnum && 0 <= e < |l.f[i]|
    ensures ComesFrom(l, RecvDiags(l, i, |l.f[i]|)[e], l.d.s.First(i))
  {
    hide Joined, Totals, RecvBlokSeq, RecvBloks;
    assert l.d.s.Bounded(i);
    RecvBlokRun(l, i, e, 0);
  }

  lemma {:induction false} RecvBloksGrow(l: Loc, i: int, e: int, g: int)
    requires 0 <= i < |l.f| && 0 <= e < g <= |l.f[i]|
    ensures RecvBloks(l.d.s, i, l.f[i], e) < RecvBloks(l.d.s, i, l.f[i], g)
    decreases g
  {
    var b := RecvBlokSeq(l, i, g - 1);
    if e < g - 1 {
      RecvBloksGrow(l, i, e, g - 1);
    }
  }

  /** Entry `x` of the contributions listed for `i`: an off-diagonal block facing `i`, or
      the diagonal block of a reception. */
  lemma EntryFrom(l: Loc, i: int, x: int) returns (b: int)
    requires 0 <= i < |l.f| && 0 <= x < |AddedBrow(l, i)|
    ensures ComesFrom(l, AddedBrow(l, i)[x], b) && l.d.s.bloktab[b].fcblknm == i
    ensures l.d.s.bloktab[b].lcblknm == i <==> x >= |Contribs(l, i)|
  {
    hide NumB, Picks, Contribs, RecvDiags, ComesFrom;
    if x < |Contribs(l, i)| {
      var two;
      b, two := ContribFrom(l, i, x);
      assert Faces(l.d.s, b, i);
    } else {
      b := l.d.s.First(i);
      RecvDiagFrom(l, i, x - |Contribs(l, i)|);
      assert l.d.s.Bounded(i);
      assert l.d.s.BlokPlaced(b);
    }
  }

  lemma EntriesApart(l: Loc, i: int, x: int, z: int)
    requires 0 <= i < |l.f| && 0 <= x < z < |AddedBrow(l, i)|
    ensures AddedBrow(l, i)[x] != AddedBrow(l, i)[z]
  {
    hide Contribs, ComesFrom, RecvBloks;
    var n := |Contribs(l, i)|;
    var b := EntryFrom(l, i, x);
    var c := EntryFrom(l, i, z);
    if z < n {
      ContribsApart(l, i, x, z);
    } else if x >= n {
      RecvBloksGrow(l, i, x - n, z - n);
    } else if AddedBrow(l, i)[x] == AddedBrow(l, i)[z] {
      SameOrigin(l, AddedBrow(l, i)[x], b, c);
    }
  }

  lemma SameOrigin(l: Loc, y: int, b: int, c: int)
    requires ComesFrom(l, y, b) && ComesFrom(l, y, c)
    ensures b == c
  {
  }

  /** No block is listed twice, in one column block or in two. */
  lemma BrowApart(l: Loc, x: int, z: int)
    requires 0 <= x < z < |AllBrow(l)|
    ensures AllBrow(l)[x] != AllBrow(l)[z]
  {
    hide Joined, AddedBrow, ComesFrom, Totals;
    SizesCounted(l, |l.f|);
    var i, p := JoinedFind(BrowParts(l), |l.f|, x);
    var j, q := JoinedFind(BrowParts(l), |l.f|, z);
    JoinedAt(BrowParts(l), |l.f|, i, p);
    JoinedAt(BrowParts(l), |l.f|, j, q);
    if i == j {
      EntriesApart(l, i, p, q);
    } else {
      var b := EntryFrom(l, i, p);
      var c := EntryFrom(l, j, q);
      if AllBrow(l)[x] == AllBrow(l)[z] {
        SameOrigin(l, AllBrow(l)[x], b, c);
      }
    }
  }

  lemma {:induction false} PickedAll(l: Loc, b: seq<int>, m: int, two: bool, a: int)
    requires ListsBloks(l.d.s, b) && 0 <= a < m <= |b| && Picks(l, b[a], two)
    ensures NumB(l, b[a]) in Picked(l, b, m, two)
    decreases m
  {
    hide NumB, Picks;
    if a < m - 1 {
      PickedAll(l, b, m - 1, two, a);
    }
  }

  /** Every block of this process is listed by the column block it faces. */
  lemma EveryBlokListed(l: Loc, i: int, b: int)
    requires 0 <= i < |l.f| && Faces(l.d.s, b, i) && BlokOwner(l.d.s, l.d.owner, b) == l.d.clustnum
    ensures Stored(l.d, l.f, i) && NumB(l, b) in Contribs(l, i)
  {
    hide NumB;
    var list := l.d.browtab[i];
    assert FacedStored(l.d, l.f, b);
    assert BrowListOK(l.d.s, list, i);
    ListIsBloks(l.d.s, list, i);
    assert l.d.s.BlokPlaced(b);
    var a :| 0 <= a < |list| && list[a] == b;
    PickedAll(l, list, |list|, l.t2d[l.d.s.bloktab[b].lcblknm], a);
  }

  /** A block of this process faces a column block stored at or after its own. */
  lemma FacedNumbered(l: Loc, i: int, j: int)
    requires 0 <= i < |l.f| && l.d.owner[i] == l.d.clustnum && l.d.s.First(i) <= j < l.d.s.End(i)
    ensures 0 <= j < |l.d.s.bloktab| && 0 <= l.d.s.bloktab[j].fcblknm < |l.f|
    ensures 0 <= Num(l, i) <= Num(l, l.d.s.bloktab[j].fcblknm)
  {
    OwnBlok(l.d.s, l.d.owner, i, j);
    assert FacedStored(l.d, l.f, j);
    NumsGrow(l, i, l.d.s.bloktab[j].fcblknm);
  }

  lemma NumsGrow(l: Loc, i: int, k: int)
    requires 0 <= i <= k < |l.f| && l.d.owner[i] == l.d.clustnum && Stored(l.d, l.f, k)
    ensures 0 <= Num(l, i) <= Num(l, k)
  {
    hide Totals, Main, Joined, RecvBloks, LocalBrow;
    TotalsGrow(l, i, k);
    CblkAt(l, i, |l.f|);
  }

  lemma {:induction false} TotalsGrow(l: Loc, i: int, k: int)
    requires 0 <= i <= k <= |l.f|
    ensures Before(l, i).cblk <= Before(l, k).cblk && Before(l, i).blok <= Before(l, k).blok
    ensures Before(l, i).brow <= Before(l, k).brow
    ensures i < k ==> Before(l, i).cblk + Adds(l.d, l.f[i], i).cblk <= Before(l, k).cblk
    decreases k
  {
    hide Adds;
    if i < k {
      TotalsGrow(l, i, k - 1);
      var c, b, w := AddedCblks(l, k - 1), AddedBloks(l, k - 1), AddedBrow(l, k - 1);
    }
  }

  lemma {:induction false} PickedPrefix(l: Loc, b: seq<int>, j: int, m: int, two: bool)
    requires ListsBloks(l.d.s, b) && 0 <= j <= m <= |b|
    ensures Picked(l, b, j, two) <= Picked(l, b, m, two)
    decreases m
  {
    if j < m {
      PickedPrefix(l, b, j, m - 1, two);
    }
  }

  /** Where a block facing `i` is listed once those before it are. */
  lemma ContribNext(l: Loc, i: int, j: int, two: bool)
    requires 0 <= i < |l.f| && Stored(l.d, l.f, i) && 0 <= j < |l.d.browtab[i]|
    requires ListsBloks(l.d.s, l.d.browtab[i]) && Picks(l, l.d.browtab[i][j], two)
    ensures var x := (if two then |OneD(l, i)| else 0) + |Picked(l, l.d.browtab[i], j, two)|;
      x < |AddedBrow(l, i)| && AddedBrow(l, i)[x] == NumB(l, l.d.browtab[i][j])
  {
    hide NumB, Picks;
    var list := l.d.browtab[i];
    PickedPrefix(l, list, j + 1, |list|, two);
    var p := Picked(l, list, |list|, two);
    var x := |Picked(l, list, j, two)|;
    assert p[x] == NumB(l, list[j]);
    assert Contribs(l, i)[(if two then |OneD(l, i)| else 0) + x] == p[x];
  }

  /** A block facing `i` belongs to a column block already generated. */
  lemma SourceReady(l: Loc, i: int, b: int)
    requires 0 <= i < |l.f| && Faces(l.d.s, b, i)
    ensures 0 <= l.d.s.bloktab[b].lcblknm < i
    ensures var k := l.d.s.bloktab[b].lcblknm; var c := Joined(CblkParts(l), i);
      if Stored(l.d, l.f, k) then
        0 <= Num(l, k) < |c| && c[Num(l, k)].tasks2d == l.t2d[k]
        && c[Num(l, k)].role == (if BlokOwner(l.d.s, l.d.owner, b) == l.d.clustnum then Mine else Sending)
      else Num(l, k) < 0 && BlokOwner(l.d.s, l.d.owner, b) != l.d.clustnum
  {
    hide Joined, Totals;
    assert l.d.s.BlokPlaced(b);
    var k := l.d.s.bloktab[b].lcblknm;
    if Stored(l.d, l.f, k) {
      CblkAt(l, k, i);
    }
  }

  /** The block of this process that faces `i` is already generated. */
  lemma SourceBlok(l: Loc, i: int, b: int)
    requires 0 <= i < |l.f| && Faces(l.d.s, b, i) && BlokOwner(l.d.s, l.d.owner, b) == l.d.clustnum
    ensures 0 <= NumB(l, b) < |Joined(BlokParts(l), i)| == Before(l, i).blok
    ensures 0 <= l.d.s.bloktab[b].lcblknm < i
    ensures Joined(BlokParts(l), i)[NumB(l, b)] == MineBlok(l, l.d.s.bloktab[b].lcblknm, b)
  {
    hide Joined, Totals, MineBlok, NumB;
    assert l.d.s.BlokPlaced(b);
    SizesCounted(l, i);
    BlokAt(l, l.d.s.bloktab[b].lcblknm, b, i);
  }

  /** Entry `x` of column block `i` is not listed before. */
  lemma NotListed(l: Loc, i: int, x: int, z: int)
    requires 0 <= i < |l.f| && 0 <= x < |AddedBrow(l, i)|
    requires 0 <= z < |Joined(BrowParts(l), i)| + x
    ensures |Joined(BrowParts(l), i)| + x < |AllBrow(l)|
    ensures (Joined(BrowParts(l), i) + AddedBrow(l, i)[..x])[z] != AddedBrow(l, i)[x]
  {
    hide Joined, AddedBrow;
    SizesCounted(l, |l.f|);
    JoinedAt(BrowParts(l), |l.f|, i, x);
    JoinedPrefix(BrowParts(l), i + 1, |l.f|);
    JoinedNext(BrowParts(l), i);
    BrowApart(l, z, |Joined(BrowParts(l), i)| + x);
  }

  /** When every column block is computed here, right-hand side indices are column numbers. */
  lemma {:induction false} AllMine(l: Loc, i: int)
    requires 0 <= i < |l.f| && forall k :: 0 <= k < i ==> l.d.owner[k] == l.d.clustnum
    ensures Nodes(l, i) == l.d.s.cblktab[i].fcolnum
  {
    if i > 0 {
      AllMine(l, i - 1);
      assert l.d.s.Abut(i - 1);
    }
  }

  // ----- what the counting pass leaves -----

  lemma GoodHull(s: FilledSymb, i: int, contribs: set<int>, r: RecvCblk)
    requires IsRecv(s, i, contribs, r) && AllFace(s, i, contribs) && Any(contribs)
    ensures GoodRecv(s, i, r)
  {
    hide IsRecv, Kept, Touching;
    RecvSize(s, i, contribs, r);
    var b :| b in contribs;
    DiagIsTouched(s, i, contribs, b);
    KeptIsTouched(s, i, contribs, r, 0);
    forall n | 0 <= n < |r.bloktab|
      ensures KeptOK(s, s.First(i) + n, r.bloktab[n])
    {
      KeptIsTouched(s, i, contribs, r, n);
    }
  }

  /** Receptions and fan-ins of a complete count are what the generation needs. */
  lemma CountedIsLocal(d: Dist, t2d: seq<bool>, f: seq<seq<RecvCblk>>)
    requires |t2d| == d.s.CblkNbr() && Registered(d, f, d.s.CblkNbr())
    ensures LocalOK(Local(d, t2d, f))
  {
    hide IsRecv, GoodRecv, Sent, Remote, BlokOwner;
    forall i | 0 <= i < |f|
      ensures ListOK(d, f[i], i)
    {
      ListIsOK(d, f, i);
    }
    forall j | 0 <= j < |d.s.bloktab|
      ensures FacedStored(d, f, j)
    {
      FacedIsStored(d, f, j);
    }
  }

  lemma ListIsOK(d: Dist, f: seq<seq<RecvCblk>>, i: int)
    requires Registered(d, f, d.s.CblkNbr()) && 0 <= i < |f|
    ensures ListOK(d, f[i], i)
  {
    hide IsRecv, GoodRecv;
    if d.owner[i] == d.clustnum {
      forall e | 0 <= e < |f[i]|
        ensures GoodRecv(d.s, i, f[i][e]) && f[i][e].ownerid != d.clustnum
      {
        var remote := Remote(d.s, d.owner, d.clustnum, i);
        assert RecvOK(d.s, i, d.owner, remote, f[i][e]);
        GoodHull(d.s, i, From(d.s, d.owner, remote, f[i][e].ownerid), f[i][e]);
      }
    } else {
      var sent := Sent(d.s, d.owner, d.clustnum, i, |d.s.bloktab|);
      assert FaninOf(d.s, i, d.owner[i], sent, f[i]);
      if f[i] != [] {
        GoodHull(d.s, i, sent, f[i][0]);
      }
    }
  }

  lemma FacedIsStored(d: Dist, f: seq<seq<RecvCblk>>, j: int)
    requires Registered(d, f, d.s.CblkNbr()) && 0 <= j < |d.s.bloktab|
    ensures FacedStored(d, f, j)
  {
    assert d.s.BlokPlaced(j);
    var k := d.s.bloktab[j].fcblknm;
    if BlokOwner(d.s, d.owner, j) == d.clustnum && d.owner[k] != d.clustnum {
      var sent := Sent(d.s, d.owner, d.clustnum, k, |d.s.bloktab|);
      assert FaninOf(d.s, k, d.owner[k], sent, f[k]);
      assert j in sent;
    }
  }

  // ----- between processes -----

  ghost predicate SameRows(a: SolvBlok, b: SolvBlok) {
    a.frownum == b.frownum && a.lrownum == b.lrownum && a.gbloknm == b.gbloknm
  }

  lemma {:induction false} KeptSame(s: SymbolMatrix, i: int, r: RecvCblk, q: RecvCblk, num: int, num': int, m: int)
    requires GoodRecv(s, i, r) && GoodRecv(s, i, q) && r.bloktab == q.bloktab && 0 <= m <= |r.bloktab|
    ensures |KeptBloks(s, i, r, num, m)| == |KeptBloks(s, i, q, num', m)|
    ensures forall x :: 0 <= x < |KeptBloks(s, i, r, num, m)| ==>
      SameRows(KeptBloks(s, i, r, num, m)[x], KeptBloks(s, i, q, num', m)[x])
  {
    hide Kept;
    if m > 0 {
      KeptSame(s, i, r, q, num, num', m - 1);
    }
  }

  /** The blocks of a fan-in are those of the reception with the same hulls. */
  lemma FaninIsReception(here: Loc, there: Loc, i: int, e: int)
    requires here.d.s == there.d.s && 0 <= i < |here.f| && here.f[i] != [] && 0 <= e < |there.f[i]|
    requires here.f[i][0].bloktab == there.f[i][e].bloktab
    ensures |FaninBloks(here, i)| == |RecvBlokSeq(there, i, e)|
    ensures forall x :: 0 <= x < |FaninBloks(here, i)| ==> SameRows(FaninBloks(here, i)[x], RecvBlokSeq(there, i, e)[x])
  {
    hide KeptBloks, GoodRecv, Totals, CblkNum, BlokNbrOf;
    assert ListOK(here.d, here.f[i], i) && ListOK(there.d, there.f[i], i);
    assert GoodRecv(here.d.s, i, here.f[i][0]) && GoodRecv(here.d.s, i, there.f[i][e]);
    KeptSame(here.d.s, i, here.f[i][0], there.f[i][e], Num(here, i), Before(there, i).cblk + e, |here.f[i][0].bloktab|);
  }
}
