/** The generation pass: column blocks, blocks and contributions are written in arrays of
    the counted sizes, one column block after the other. */
module SolverGen {
  import opened Symbol
  import opened SolverRecv
  import opened SolverLocal
  import opened SolverGenSpec
  import opened SolverGenThm

  /** The local numbers of the counting pass. */
  ghost predicate NumsOK(l: Loc, cblklocalnum: seq<int>, bloklocalnum: seq<int>) {
    && |cblklocalnum| == |l.f| && |bloklocalnum| == |l.d.s.bloktab|
    && (forall k :: 0 <= k < |l.f| ==> cblklocalnum[k] == Num(l, k))
    && (forall b :: 0 <= b < |l.d.s.bloktab| ==> BlokNumOK(l, bloklocalnum, b))
  }

  ghost predicate BlokNumOK(l: Loc, bloklocalnum: seq<int>, b: int)
    requires 0 <= b < |l.d.s.bloktab| == |bloklocalnum|
  {
    assert l.d.s.BlokPlaced(b);
    Stored(l.d, l.f, l.d.s.bloktab[b].lcblknm) ==> bloklocalnum[b] == NumB(l, b)
  }

  lemma CountedNums(l: Loc, cblknum: seq<int>, bloknum: seq<int>)
    requires Numbered(l.d, l.f, cblknum, bloknum, |l.f|)
    ensures NumsOK(l, cblknum, bloknum)
  {
    hide BlokNum, CblkNum;
    forall k | 0 <= k < |l.f|
      ensures cblknum[k] == Num(l, k)
    {
      assert CblkNumbered(l.d, l.f, cblknum, bloknum, k);
    }
    forall b | 0 <= b < |l.d.s.bloktab|
      ensures BlokNumOK(l, bloknum, b)
    {
      assert l.d.s.BlokPlaced(b);
      assert CblkNumbered(l.d, l.f, cblknum, bloknum, l.d.s.bloktab[b].lcblknm);
    }
  }

  /** Entry `x` of `brow` is a block below `bound` that points back to `x`. */
  ghost predicate Inverse(browind: seq<int>, brow: seq<int>, bound: int) {
    bound <= |browind| && forall x :: 0 <= x < |brow| ==> PointsBack(browind, brow[x], bound, x)
  }

  ghost predicate PointsBack(browind: seq<int>, y: int, bound: int, x: int) {
    0 <= y < bound && y < |browind| && browind[y] == x
  }

  class SolverMatrix {
    const l: Loc
    const nbr: Counts              // what the counting pass predicts
    const cblktab: array<SolvCblk>
    const bloktab: array<SolvBlok>
    const browind: array<int>      // place of each block in the list of contributions
    const browtab: array<int>
    const gcbl2loc: array<int>
    var cnt: Counts                // what is generated so far
    var nodenbr: int
    var bcscidx: int

    /** Arrays of the counted sizes, with one more entry for the closing column block and block. */
    constructor (l: Loc, nbr: Counts)
      requires nbr == Before(l, |l.f|)
      ensures this.l == l && this.nbr == nbr && Allocated()
      ensures fresh(cblktab) && fresh(bloktab) && fresh(browind) && fresh(browtab) && fresh(gcbl2loc)
      ensures cnt == Counts(0, 0, 0, 0, 0) && nodenbr == 0 && bcscidx == 0
      ensures forall k :: 0 <= k < gcbl2loc.Length ==> gcbl2loc[k] == -1
    {
      SizesCounted(l, |l.f|);
      this.l := l;
      this.nbr := nbr;
      cblktab := new SolvCblk[nbr.cblk + 1](_ => SolvCblk(Mine, false, 0, 0, 0, 0, 0, 0, 0, 0, 0));
      bloktab := new SolvBlok[nbr.blok + 1](_ => SolvBlok(0, 0, 0, 0, 0));
      browind := new int[nbr.blok + 1](_ => -1);
      browtab := new int[nbr.brow](_ => 0);
      gcbl2loc := new int[|l.f|](_ => -1);
      cnt := Counts(0, 0, 0, 0, 0);
      nodenbr, bcscidx := 0, 0;
    }

    ghost predicate Allocated() {
      && nbr == Before(l, |l.f|)
      && cblktab.Length == nbr.cblk + 1 && bloktab.Length == browind.Length == nbr.blok + 1
      && browtab.Length == nbr.brow && gcbl2loc.Length == |l.f|
      && browind != browtab && browtab != gcbl2loc && browind != gcbl2loc
    }

    // ----- blocks -----

    /** Write the blocks kept by a fan-in or reception of `i` from place `at` on. */
    method RegisterRemote(i: int, r: RecvCblk, lcblknm: int, at: int, cblklocalnum: seq<int>) returns (next: int)
      requires Allocated() && 0 <= i < |l.f| == |cblklocalnum| && GoodRecv(l.d.s, i, r)
      requires 0 <= at && at + BlokNbrOf(l.d.s, i, r) <= nbr.blok
      modifies bloktab, browind
      ensures next == at + BlokNbrOf(l.d.s, i, r) && at < next
      ensures |KeptBloks(l.d.s, i, r, lcblknm, |r.bloktab|)| == next - at
      ensures bloktab[..next] == old(bloktab[..at])
          + Faced(KeptBloks(l.d.s, i, r, lcblknm, |r.bloktab|), cblklocalnum[i])
      ensures forall x :: 0 <= x < at ==> browind[x] == old(browind[x])
    {
      hide Kept;
      var first := l.d.s.cblktab[i].bloknum;
      next := at;
      for j := first to l.d.s.cblktab[i + 1].bloknum
        invariant at <= next == at + BlokNbr(l.d.s, i, r, j - first) <= nbr.blok
        invariant bloktab[..next] == old(bloktab[..at]) + KeptBloks(l.d.s, i, r, lcblknm, j - first)
        invariant forall x :: 0 <= x < at ==> browind[x] == old(browind[x])
      {
        var rows := r.bloktab[j - first];
        assert KeptOK(l.d.s, l.d.s.First(i) + (j - first), rows);
        BlokNbrGrows(l.d.s, i, r, j - first + 1, |r.bloktab|);
        if rows.lrownum - rows.frownum + 1 >= 1 {
          ghost var was := bloktab[..next];
          bloktab[next] := SolvBlok(lcblknm, -1, rows.frownum, rows.lrownum, j);
          browind[next] := -1;
          assert bloktab[..next] == was;
          next := next + 1;
        }
      }
      FirstKept(l.d.s, i, r, lcblknm, |r.bloktab|);
      DiagFaces(l.d.s, i);
      ghost var was := bloktab[..next];
      bloktab[at] := bloktab[at].(fcblknm := cblklocalnum[l.d.s.bloktab[first].fcblknm]);
      assert bloktab[..next] == was[at := bloktab[at]];
    }

    /** Write the blocks of the column block `i` of this process from place `at` on. */
    method RegisterLocal(i: int, lcblknm: int, at: int, cblklocalnum: seq<int>, ghost bloklocalnum: seq<int>)
        returns (next: int)
      requires Allocated() && 0 <= i < |l.f| && l.d.owner[i] == l.d.clustnum && NumsOK(l, cblklocalnum, bloklocalnum)
      requires lcblknm == Num(l, i) && 0 <= at && at + l.d.s.End(i) - l.d.s.First(i) <= nbr.blok
      modifies bloktab, browind
      ensures next == at + l.d.s.End(i) - l.d.s.First(i) && at < next
      ensures bloktab[..next] == old(bloktab[..at]) + MineBloks(l, i, l.d.s.End(i) - l.d.s.First(i))
      ensures forall x :: 0 <= x < at ==> browind[x] == old(browind[x])
    {
      hide CblkNum;
      assert l.d.s.Bounded(i);
      var first := l.d.s.cblktab[i].bloknum;
      next := at;
      for j := first to l.d.s.cblktab[i + 1].bloknum
        invariant next == at + j - first
        invariant bloktab[..next] == old(bloktab[..at]) + MineBloks(l, i, j - first)
        invariant forall x :: 0 <= x < at ==> browind[x] == old(browind[x])
      {
        var b := l.d.s.bloktab[j];
        FacedNumbered(l, i, j);
        var fcblknm := cblklocalnum[b.fcblknm];
        assert fcblknm >= 0 && lcblknm <= fcblknm;
        ghost var was := bloktab[..next];
        bloktab[next] := SolvBlok(lcblknm, fcblknm, b.frownum, b.lrownum, j);
        browind[next] := -1;
        assert bloktab[..next] == was;
        assert MineBloks(l, i, j - first + 1) == MineBloks(l, i, j - first) + [MineBlok(l, i, j)];
        next := next + 1;
      }
    }

    // ----- column blocks -----

    /** The arrays hold the column blocks `c`, the blocks `b`, and as many of each. */
    ghost predicate Holds(c: seq<SolvCblk>, b: seq<SolvBlok>)
      reads cblktab, bloktab, `cnt
    {
      && cnt.cblk == |c| < cblktab.Length && cblktab[..|c|] == c
      && cnt.blok == |b| < bloktab.Length && bloktab[..|b|] == b
    }

    /** Write reception `e` of the column block `i` of this process. */
    method AddRecv(i: int, e: int, cblklocalnum: seq<int>)
      requires Allocated() && 0 <= i < |l.f| == |cblklocalnum| && 0 <= e < |l.f[i]| && cblklocalnum[i] == Num(l, i)
      requires l.d.owner[i] == l.d.clustnum && nodenbr == Nodes(l, i)
      requires Holds(Joined(CblkParts(l), i) + RecvCblks(l, i, e), Joined(BlokParts(l), i) + RecvsBloks(l, i, e))
      requires cnt == Plus(Before(l, i), Counts(e, RecvBloks(l.d.s, i, l.f[i], e), 0, e, 0))
      modifies cblktab, bloktab, browind, `cnt
      ensures Holds(Joined(CblkParts(l), i) + RecvCblks(l, i, e + 1), Joined(BlokParts(l), i) + RecvsBloks(l, i, e + 1))
      ensures cnt == Plus(Before(l, i), Counts(e + 1, RecvBloks(l.d.s, i, l.f[i], e + 1), 0, e + 1, 0))
      ensures forall x :: 0 <= x < old(cnt.blok) ==> browind[x] == old(browind[x])
    {
      hide GoodRecv, Joined, Totals, KeptBloks, BlokNbrOf, CblkNum;
      var r := l.f[i][e];
      assert ListOK(l.d, l.f[i], i) && GoodRecv(l.d.s, i, r);
      assert r.ownerid != l.d.clustnum;
      ghost var c, b := cblktab[..cnt.cblk], bloktab[..cnt.blok];
      RecvFits(l, i, e);
      var next := RegisterRemote(i, r, cnt.cblk, cnt.blok, cblklocalnum);
      cblktab[cnt.cblk] := SolvCblk(Receiving, l.t2d[i], cnt.blok, r.fcolnum, r.lcolnum, cnt.brow, cnt.brow,
                                    i, r.ownerid, -(cnt.fanin + cnt.recv + 1),
                                    nodenbr + r.fcolnum - l.d.s.cblktab[i].fcolnum);
      assert cblktab[cnt.cblk] == RecvCblkOf(l, i, e);
      assert RecvCblks(l, i, e + 1) == RecvCblks(l, i, e) + [RecvCblkOf(l, i, e)];
      assert cblktab[..cnt.cblk] == c;
      cnt := cnt.(cblk := cnt.cblk + 1, blok := next, recv := cnt.recv + 1);
    }

    /** Write all receptions of the column block `i` of this process. */
    method AddRecvs(i: int, cblklocalnum: seq<int>)
      requires Allocated() && 0 <= i < |l.f| == |cblklocalnum| && cblklocalnum[i] == Num(l, i)
      requires l.d.owner[i] == l.d.clustnum && nodenbr == Nodes(l, i)
      requires Holds(Joined(CblkParts(l), i), Joined(BlokParts(l), i)) && cnt == Before(l, i)
      modifies cblktab, bloktab, browind, `cnt
      ensures Holds(Joined(CblkParts(l), i) + RecvCblks(l, i, |l.f[i]|),
                    Joined(BlokParts(l), i) + RecvsBloks(l, i, |l.f[i]|))
      ensures cnt == Plus(Before(l, i), Counts(|l.f[i]|, RecvBloks(l.d.s, i, l.f[i], |l.f[i]|), 0, |l.f[i]|, 0))
      ensures forall x :: 0 <= x < old(cnt.blok) ==> browind[x] == old(browind[x])
    {
      hide RecvBloks, Joined, Totals, CblkNum;
      NoneReceived(l, i);
      for e := 0 to |l.f[i]|
        invariant Holds(Joined(CblkParts(l), i) + RecvCblks(l, i, e), Joined(BlokParts(l), i) + RecvsBloks(l, i, e))
        invariant cnt == Plus(Before(l, i), Counts(e, RecvBloks(l.d.s, i, l.f[i], e), 0, e, 0))
        invariant cnt.blok >= old(cnt.blok)
        invariant forall x :: 0 <= x < old(cnt.blok) ==> browind[x] == old(browind[x])
      {
        RecvBlokNonNegative(l, i, e);
        AddRecv(i, e, cblklocalnum);
      }
    }

    /** Write the column block `i` of this process after its receptions. */
    method AddMine(i: int, cblklocalnum: seq<int>, ghost bloklocalnum: seq<int>)
      requires Allocated() && 0 <= i < |l.f| && NumsOK(l, cblklocalnum, bloklocalnum)
      requires l.d.owner[i] == l.d.clustnum && nodenbr == Nodes(l, i) && bcscidx == MineNbr(l, i)
      requires Holds(Joined(CblkParts(l), i), Joined(BlokParts(l), i)) && cnt == Before(l, i)
      modifies cblktab, bloktab, browind, `cnt, `nodenbr, `bcscidx
      ensures Holds(Joined(CblkParts(l), i) + RecvCblks(l, i, |l.f[i]|) + [Main(l, i).(brown2d := 0)],
                    Joined(BlokParts(l), i + 1))
      ensures cnt == Before(l, i + 1).(brow := Before(l, i).brow)
      ensures nodenbr == Nodes(l, i + 1) && bcscidx == MineNbr(l, i + 1)
      ensures forall x :: 0 <= x < old(cnt.blok) ==> browind[x] == old(browind[x])
    {
      hide RecvBloks, Joined, Totals, CblkNum, RecvCblks, RecvsBloks;
      hide MineBloks, BlokParts, CblkParts, Main, Nodes, MineNbr, BlokNbrOf;
      AddRecvs(i, cblklocalnum);
      ghost var c := cblktab[..cnt.cblk];
      MineFits(l, i);
      var next := RegisterLocal(i, cnt.cblk, cnt.blok, cblklocalnum, bloklocalnum);
      MineMade(l, i);
      var b := l.d.s.cblktab[i];
      cblktab[cnt.cblk] := SolvCblk(Mine, l.t2d[i], cnt.blok, b.fcolnum, b.lcolnum, cnt.brow, 0, i, l.d.clustnum,
                                    bcscidx, nodenbr);
      assert cblktab[..cnt.cblk] == c;
      assert nodenbr <= b.fcolnum;
      nodenbr, bcscidx := nodenbr + b.lcolnum - b.fcolnum + 1, bcscidx + 1;
      cnt := cnt.(cblk := cnt.cblk + 1, blok := next);
    }

    /** Write the fan-in of the column block `i` of another process. */
    method AddFanin(i: int, cblklocalnum: seq<int>)
      requires Allocated() && 0 <= i < |l.f| == |cblklocalnum| && l.d.owner[i] != l.d.clustnum && l.f[i] != []
      requires Holds(Joined(CblkParts(l), i), Joined(BlokParts(l), i)) && cnt == Before(l, i)
      modifies cblktab, bloktab, browind, `cnt
      ensures Holds(Joined(CblkParts(l), i) + [Main(l, i).(brown2d := 0)], Joined(BlokParts(l), i + 1))
      ensures cnt == Before(l, i + 1).(brow := Before(l, i).brow)
      ensures forall x :: 0 <= x < old(cnt.blok) ==> browind[x] == old(browind[x])
    {
      hide Joined, Totals, KeptBloks, BlokNbrOf;
      var r := l.f[i][0];
      assert ListOK(l.d, l.f[i], i) && GoodRecv(l.d.s, i, r);
      assert r.ownerid != l.d.clustnum;
      ghost var c, b := cblktab[..cnt.cblk], bloktab[..cnt.blok];
      FaninFits(l, i);
      var next := RegisterRemote(i, r, cnt.cblk, cnt.blok, cblklocalnum);
      FaninFirst(l, i);
      ghost var kept := bloktab[..next];
      bloktab[cnt.blok] := bloktab[cnt.blok].(fcblknm := -1);
      assert bloktab[..next] == kept[cnt.blok := bloktab[cnt.blok]];
      assert bloktab[..next] == b + FaninBloks(l, i);
      cblktab[cnt.cblk] := SolvCblk(Sending, l.t2d[i], cnt.blok, r.fcolnum, r.lcolnum, cnt.brow, 0,
                                    i, r.ownerid, -(cnt.fanin + cnt.recv + 1), -1);
      assert cblktab[..cnt.cblk] == c;
      cnt := cnt.(cblk := cnt.cblk + 1, blok := next, fanin := cnt.fanin + 1);
      JoinedNext(BlokParts(l), i);
    }

    // ----- contributions -----

    /** The first `x` contributions of `i` are listed after those of the column blocks before it. */
    ghost predicate Lists(i: int, x: int, bound: int)
      reads browtab, browind
      requires 0 <= i < |l.f| && 0 <= x <= |AddedBrow(l, i)|
    {
      var w := Joined(BrowParts(l), i) + AddedBrow(l, i)[..x];
      |w| <= browtab.Length && browtab[..|w|] == w && Inverse(browind[..], w, bound)
    }

    /** List block `y` as the next contribution of `i`. */
    method StoreContrib(i: int, x: int, y: int, brownum: int, ghost bound: int)
      requires Allocated() && 0 <= i < |l.f| && 0 <= x < |AddedBrow(l, i)| && y == AddedBrow(l, i)[x]
      requires brownum == |Joined(BrowParts(l), i)| && 0 <= y < bound <= browind.Length
      requires Lists(i, x, bound)
      modifies browtab, browind
      ensures Lists(i, x + 1, bound)
    {
      hide Joined, AddedBrow;
      ghost var w := Joined(BrowParts(l), i) + AddedBrow(l, i)[..x];
      ghost var back := browind[..];
      forall z | 0 <= z < |w|
        ensures w[z] != y
      {
        NotListed(l, i, x, z);
      }
      Room(l, i, x);
      browtab[brownum + x] := y;
      browind[y] := brownum + x;
      ghost var w' := Joined(BrowParts(l), i) + AddedBrow(l, i)[..x + 1];
      assert w' == w + [y];
      assert browtab[..|w'|] == w';
      forall z | 0 <= z < |w'|
        ensures PointsBack(browind[..], w'[z], bound, z)
      {
        if z < |w| {
          assert PointsBack(back, w[z], bound, z);
        }
      }
    }

    /** The column blocks and blocks before `i` are generated. */
    ghost predicate Generated(i: int)
      reads cblktab, bloktab
      requires 0 <= i <= |l.f|
    {
      Joined(CblkParts(l), i) <= cblktab[..] && Joined(BlokParts(l), i) <= bloktab[..]
    }

    /** First pass over the contributions to `i`: 1D ones are listed, 2D ones left in
        `browtmp` for the second pass, the others dropped. */
    method FirstPass(i: int, browtmp: array<int>, cblklocalnum: seq<int>, bloklocalnum: seq<int>, brownum: int)
        returns (brownbr: int, j1d: int, j2d: int)
      requires Allocated() && 0 <= i < |l.f| && Stored(l.d, l.f, i) && NumsOK(l, cblklocalnum, bloklocalnum)
      requires Generated(i) && ListsBloks(l.d.s, l.d.browtab[i]) && browtmp[..] == l.d.browtab[i]
      requires browtmp != browtab && browtmp != browind
      requires brownum == |Joined(BrowParts(l), i)| && Lists(i, 0, Before(l, i).blok)
      modifies browtmp, browtab, browind
      ensures brownbr == LocalBrow(l.d, i) && j1d == |OneD(l, i)| <= |AddedBrow(l, i)|
      ensures Lists(i, j1d, Before(l, i).blok)
      ensures forall k :: 0 <= k < browtmp.Length ==> Marked(l, l.d.browtab[i][k], browtmp[k])
      ensures if j2d == -1 then Picked(l, l.d.browtab[i], |l.d.browtab[i]|, true) == []
              else 0 <= j2d < browtmp.Length && Picked(l, l.d.browtab[i], j2d, true) == []
    {
      hide Joined, AddedBrow, Contribs, NumB, Totals, Stored, CblkNum, Picked, LocalNbr, Lists, OneD, Picks, BlokOwner;
      ghost var list := l.d.browtab[i];
      ghost var bound := Before(l, i).blok;
      assert BrowListOK(l.d.s, list, i);
      brownbr, j1d, j2d := browtmp.Length, 0, -1;
      PassStarts(l, list);
      for j := 0 to browtmp.Length
        invariant brownbr == |list| - j + LocalNbr(l.d.s, l.d.owner, l.d.clustnum, list, j)
        invariant j1d == |Picked(l, list, j, false)| <= |AddedBrow(l, i)| && Lists(i, j1d, bound)
        invariant forall k :: j <= k < browtmp.Length ==> browtmp[k] == list[k]
        invariant forall k :: 0 <= k < j ==> Marked(l, list[k], browtmp[k])
        invariant if j2d == -1 then Picked(l, list, j, true) == []
                  else 0 <= j2d < j && Picked(l, list, j2d, true) == []
      {
        var b := browtmp[j];
        assert Faces(l.d.s, list[j], i) && b == list[j];
        assert l.d.s.BlokPlaced(b) && BlokNumOK(l, bloklocalnum, b);
        var lcblknm := cblklocalnum[l.d.s.bloktab[b].lcblknm];
        var role, tasks2d := SourceRole(i, b, lcblknm);
        PickCases(l, b);
        PassStep(l, list, j);
        if lcblknm < 0 {
          browtmp[j] := -2;
          brownbr := brownbr - 1;
        } else if role == Sending {
          browtmp[j] := -3;
          brownbr := brownbr - 1;
        } else if tasks2d {
          j2d := if j2d == -1 then j else j2d;
        } else {
          ListContrib(i, j, j1d, b, lcblknm, bloklocalnum, brownum, false);
          browtmp[j] := -1;
          j1d := j1d + 1;
        }
      }
      PassEnds(l, i);
    }

    /** What the column block of block `b` is, when it is stored. */
    method SourceRole(i: int, b: int, lcblknm: int) returns (role: Role, tasks2d: bool)
      requires Allocated() && 0 <= i < |l.f| && Generated(i) && Faces(l.d.s, b, i)
      requires l.d.s.BlokPlaced(b) && lcblknm == Num(l, l.d.s.bloktab[b].lcblknm)
      ensures lcblknm < 0 ==> BlokOwner(l.d.s, l.d.owner, b) != l.d.clustnum
      ensures lcblknm >= 0 ==> role == if BlokOwner(l.d.s, l.d.owner, b) == l.d.clustnum then Mine else Sending
      ensures lcblknm >= 0 ==> tasks2d == l.t2d[l.d.s.bloktab[b].lcblknm]
    {
      hide Joined, Totals, BlokOwner;
      SourceReady(l, i, b);
      role, tasks2d := Receiving, false;
      if lcblknm >= 0 {
        StoredNum(l, l.d.s.bloktab[b].lcblknm);
        var browcblk := cblktab[lcblknm];
        assert browcblk == Joined(CblkParts(l), i)[lcblknm];
        assert browcblk.role != Receiving;
        role, tasks2d := browcblk.role, browcblk.tasks2d;
      }
    }

    /** List block `b`, the `j`-th that faces `i`, as its contribution `x`. */
    method ListContrib(i: int, j: int, x: int, b: int, lcblknm: int, bloklocalnum: seq<int>, brownum: int,
            ghost two: bool)
      requires Allocated() && 0 <= i < |l.f| && Stored(l.d, l.f, i) && Generated(i)
      requires ListsBloks(l.d.s, l.d.browtab[i]) && 0 <= j < |l.d.browtab[i]| && b == l.d.browtab[i][j]
      requires |bloklocalnum| == |l.d.s.bloktab| && Faces(l.d.s, b, i) && BlokNumOK(l, bloklocalnum, b)
      requires l.d.s.BlokPlaced(b) && lcblknm == Num(l, l.d.s.bloktab[b].lcblknm)
      requires Picks(l, b, two)
      requires x == (if two then |OneD(l, i)| else 0) + |Picked(l, l.d.browtab[i], j, two)| <= |AddedBrow(l, i)|
      requires brownum == |Joined(BrowParts(l), i)| && Lists(i, x, Before(l, i).blok)
      modifies browtab, browind
      ensures x < |AddedBrow(l, i)| && Lists(i, x + 1, Before(l, i).blok)
    {
      hide Joined, Totals, Picked, AddedBrow, NumB, CblkNum, Lists, OneD;
      PickCases(l, b);
      SourceBlok(l, i, b);
      ContribNext(l, i, j, two);
      BlokBound(l, i);
      var lbloknm := bloklocalnum[b];
      assert bloktab[lbloknm] == Joined(BlokParts(l), i)[lbloknm];
      assert bloktab[lbloknm].lcblknm == lcblknm && bloktab[lbloknm].frownum == l.d.s.bloktab[b].frownum
          && bloktab[lbloknm].lrownum == l.d.s.bloktab[b].lrownum;
      StoreContrib(i, x, lbloknm, brownum, Before(l, i).blok);
    }

    /** Second pass: 2D contributions are listed after the 1D ones. */
    method SecondPass(i: int, browtmp: array<int>, cblklocalnum: seq<int>, bloklocalnum: seq<int>, brownum: int,
            j1d: int, j2d: int)
        returns (last: int)
      requires Allocated() && 0 <= i < |l.f| && Stored(l.d, l.f, i) && NumsOK(l, cblklocalnum, bloklocalnum)
      requires Generated(i) && ListsBloks(l.d.s, l.d.browtab[i]) && browtmp.Length == |l.d.browtab[i]|
      requires forall k :: 0 <= k < browtmp.Length ==> Marked(l, l.d.browtab[i][k], browtmp[k])
      requires browtmp != browtab && browtmp != browind && j1d == |OneD(l, i)| <= |AddedBrow(l, i)|
      requires brownum == |Joined(BrowParts(l), i)| && Lists(i, j1d, Before(l, i).blok)
      requires 0 <= j2d < browtmp.Length && Picked(l, l.d.browtab[i], j2d, true) == []
      modifies browtab, browind
      ensures last == |Contribs(l, i)| <= |AddedBrow(l, i)| && Lists(i, last, Before(l, i).blok)
    {
      hide Joined, AddedBrow, Contribs, NumB, Totals, Stored, CblkNum, Picked, LocalNbr, Lists, OneD, Picks, BlokOwner;
      ghost var list := l.d.browtab[i];
      assert BrowListOK(l.d.s, list, i);
      last := j1d;
      for j := j2d to browtmp.Length
        invariant last == j1d + |Picked(l, list, j, true)| <= |AddedBrow(l, i)| && Lists(i, last, Before(l, i).blok)
        invariant forall k :: 0 <= k < browtmp.Length ==> Marked(l, list[k], browtmp[k])
      {
        PassStep(l, list, j);
        assert Marked(l, list[j], browtmp[j]);
        assert Faces(l.d.s, list[j], i);
        if browtmp[j] >= 0 {
          var b := browtmp[j];
          assert l.d.s.BlokPlaced(b) && BlokNumOK(l, bloklocalnum, b);
          var lcblknm := cblklocalnum[l.d.s.bloktab[b].lcblknm];
          var role, _ := SourceRole(i, b, lcblknm);
          PickCases(l, b);
          assert lcblknm >= 0 && role == Mine by {
            SourceReady(l, i, b);
          }
          ListContrib(i, j, last, b, lcblknm, bloklocalnum, brownum, true);
          last := last + 1;
        }
      }
      PassEnds(l, i);
    }

    /** List the contributions to `i`, 1D ones first, in the order of the symbol. */
    method ReorderBrowtab(i: int, num: int, cblklocalnum: seq<int>, bloklocalnum: seq<int>, brownum: int)
        returns (brownbr: int)
      requires Allocated() && 0 <= i < |l.f| && Stored(l.d, l.f, i) && NumsOK(l, cblklocalnum, bloklocalnum)
      requires Generated(i) && |Joined(CblkParts(l), i)| <= num < cblktab.Length
      requires cblktab[num] == Main(l, i).(brown2d := 0)
      requires brownum == Main(l, i).brownum == |Joined(BrowParts(l), i)| && Lists(i, 0, Before(l, i).blok)
      modifies browtab, browind, cblktab
      ensures brownbr == |Contribs(l, i)| <= |AddedBrow(l, i)| && Lists(i, brownbr, Before(l, i).blok)
      ensures cblktab[num] == Main(l, i)
      ensures forall x :: 0 <= x < cblktab.Length && x != num ==> cblktab[x] == old(cblktab[x])
    {
      hide Joined, AddedBrow, Contribs, Totals, Stored, CblkNum, Lists, OneD, Picked, Adds;
      PassEnds(l, i);
      ghost var list := l.d.browtab[i];
      OneDFirst(l, i);
      brownbr := |l.d.browtab[i]|;
      if brownbr == 0 {
        cblktab[num] := cblktab[num].(brown2d := brownum + brownbr);
        PassStarts(l, list);
        return;
      }
      var browtmp := new int[brownbr](k requires 0 <= k < |l.d.browtab[i]| => l.d.browtab[i][k]);
      assert browtmp[..] == list;
      var j1d, j2d;
      brownbr, j1d, j2d := FirstPass(i, browtmp, cblklocalnum, bloklocalnum, brownum);
      assert j1d <= brownbr;
      cblktab[num] := cblktab[num].(brown2d := brownum + j1d);
      ghost var c := cblktab[..];
      assert Generated(i);
      if j2d != -1 {
        j1d := SecondPass(i, browtmp, cblklocalnum, bloklocalnum, brownum, j1d, j2d);
      }
      assert j1d == brownbr;
    }

    /** List the diagonal blocks of the receptions of `i` after its other contributions. */
    method AddDiags(i: int, num: int, brownum: int, brownbr: int) returns (last: int)
      requires Allocated() && 0 <= i < |l.f| && l.d.owner[i] == l.d.clustnum && num == Num(l, i) < cblktab.Length
      requires brownbr == |Contribs(l, i)| && brownum == |Joined(BrowParts(l), i)|
      requires |l.f[i]| <= num && forall e :: 0 <= e < |l.f[i]| ==> cblktab[num - |l.f[i]| + e] == RecvCblkOf(l, i, e)
      requires brownbr <= |AddedBrow(l, i)| && Lists(i, brownbr, Before(l, i + 1).blok)
      modifies browtab, browind
      ensures last == |AddedBrow(l, i)| && Lists(i, last, Before(l, i + 1).blok)
    {
      hide Joined, Contribs, Totals, Lists, RecvBloks, CblkNum;
      last := brownbr;
      MineFits(l, i);
      BlokBound(l, i + 1);
      var recvcnt := |l.f[i]|;
      for e := 0 to recvcnt
        invariant last == brownbr + e <= |AddedBrow(l, i)| && Lists(i, last, Before(l, i + 1).blok)
      {
        var fblok := cblktab[num - recvcnt + e].fblok;
        DiagListed(l, i, e);
        StoreContrib(i, last, fblok, brownum, Before(l, i + 1).blok);
        last := last + 1;
      }
    }

    // ----- the whole pass -----

    /** Contributions to the column blocks before `i` are listed. */
    ghost predicate ListsUpTo(i: int, bound: int)
      reads browtab, browind
      requires 0 <= i <= |l.f|
    {
      var w := Joined(BrowParts(l), i);
      |w| <= browtab.Length && browtab[..|w|] == w && Inverse(browind[..], w, bound)
    }

    /** The column blocks before `i` are generated, at the numbers that were counted. */
    ghost predicate Built(i: int)
      reads this, cblktab, bloktab, browtab, browind, gcbl2loc
    {
      && Allocated() && 0 <= i <= |l.f| && cnt == Before(l, i)
      && Holds(Joined(CblkParts(l), i), Joined(BlokParts(l), i))
      && ListsUpTo(i, Before(l, i).blok)
      && nodenbr == Nodes(l, i) && bcscidx == MineNbr(l, i)
      && (forall k :: 0 <= k < |l.f| ==> gcbl2loc[k] == if k < i && Stored(l.d, l.f, k) then Num(l, k) else -1)
    }

    /** Writes from `bound` on keep the list. */
    lemma ListsKept(i: int, bound: int, back: seq<int>)
      requires 0 <= i < |l.f| && Inverse(back, Joined(BrowParts(l), i), bound)
      requires |Joined(BrowParts(l), i)| <= browtab.Length
      requires browtab[..|Joined(BrowParts(l), i)|] == Joined(BrowParts(l), i)
      requires browind.Length >= bound && forall x :: 0 <= x < bound ==> browind[x] == back[x]
      ensures Lists(i, 0, bound)
    {
      hide Joined;
      var w := Joined(BrowParts(l), i);
      assert w + AddedBrow(l, i)[..0] == w;
      forall x | 0 <= x < |w|
        ensures PointsBack(browind[..], w[x], bound, x)
      {
        assert PointsBack(back, w[x], bound, x);
      }
    }

    /** What was there stays a prefix of the arrays. */
    lemma GeneratedKept(i: int, c: seq<SolvCblk>)
      requires Allocated() && 0 <= i < |l.f| && Stored(l.d, l.f, i)
      requires Holds(c + [Main(l, i).(brown2d := 0)], Joined(BlokParts(l), i + 1)) && Joined(CblkParts(l), i) <= c
      ensures Generated(i) && |Joined(CblkParts(l), i)| <= |c| < cblktab.Length
      ensures cblktab[|c|] == Main(l, i).(brown2d := 0)
      ensures cblktab[..|c|] == c && bloktab[..cnt.blok] == Joined(BlokParts(l), i + 1)
    {
      hide Joined, Totals, Main;
      JoinedPrefix(BlokParts(l), i, i + 1);
      assert cblktab[..|c| + 1][|c|] == Main(l, i).(brown2d := 0);
      assert cblktab[..|c|] == cblktab[..|c| + 1][..|c|];
      assert Joined(BlokParts(l), i) <= bloktab[..cnt.blok] <= bloktab[..];
      assert Joined(CblkParts(l), i) <= cblktab[..|c|] <= cblktab[..];
    }

    lemma ListsWiden(i: int, x: int, bound: int, wider: int)
      requires 0 <= i < |l.f| && 0 <= x <= |AddedBrow(l, i)| && Lists(i, x, bound) && bound <= wider <= browind.Length
      ensures Lists(i, x, wider)
    {
      var w := Joined(BrowParts(l), i) + AddedBrow(l, i)[..x];
      forall z | 0 <= z < |w|
        ensures PointsBack(browind[..], w[z], wider, z)
      {
        assert PointsBack(browind[..], w[z], bound, z);
      }
    }

    lemma BrowNext(i: int, bound: int)
      requires 0 <= i < |l.f| && Lists(i, |AddedBrow(l, i)|, bound)
      ensures ListsUpTo(i + 1, bound)
    {
      JoinedNext(BrowParts(l), i);
      assert AddedBrow(l, i)[..|AddedBrow(l, i)|] == AddedBrow(l, i);
    }

    /** The receptions stand before the column block. */
    lemma ReceivedAt(i: int, c: seq<SolvCblk>)
      requires Allocated() && 0 <= i < |l.f| && |c| < cblktab.Length && cblktab[..|c|] == c
      requires c == Joined(CblkParts(l), i) + RecvCblks(l, i, |l.f[i]|)
      ensures forall e :: 0 <= e < |l.f[i]| ==> cblktab[|c| - |l.f[i]| + e] == RecvCblkOf(l, i, e)
    {
      hide Joined, RecvCblkOf;
      forall e | 0 <= e < |l.f[i]|
        ensures cblktab[|c| - |l.f[i]| + e] == RecvCblkOf(l, i, e)
      {
        assert cblktab[..|c|][|c| - |l.f[i]| + e] == RecvCblks(l, i, |l.f[i]|)[e];
      }
    }

    /** Write the stored column block `i` and its blocks. */
    method RegisterCblk(i: int, cblklocalnum: seq<int>, bloklocalnum: seq<int>) returns (num: int)
      requires Built(i) && i < |l.f| && Stored(l.d, l.f, i) && NumsOK(l, cblklocalnum, bloklocalnum)
      modifies this, cblktab, bloktab, browind
      ensures num == Num(l, i) && cnt == Before(l, i + 1).(brow := Before(l, i).brow)
      ensures Allocated() && Holds(CblksBefore(l, i) + [Main(l, i).(brown2d := 0)], Joined(BlokParts(l), i + 1))
      ensures Lists(i, 0, Before(l, i).blok)
      ensures nodenbr == Nodes(l, i + 1) && bcscidx == MineNbr(l, i + 1)
    {
      hide Joined, Totals, Inverse, CblkNum, RecvBloks, OneD, Main, RecvCblkOf, AddedBrow, Adds;
      ghost var bound, back := Before(l, i).blok, browind[..];
      BlokBound(l, i + 1);
      BoundGrows(l, i);
      if l.d.owner[i] == l.d.clustnum {
        AddMine(i, cblklocalnum, bloklocalnum);
      } else {
        AddFanin(i, cblklocalnum);
      }
      ListsKept(i, bound, back);
      MainPlace(l, i);
      num := cnt.cblk - 1;
    }

    /** List the contributions to the column block `i` just written. */
    method ListCblk(i: int, num: int, cblklocalnum: seq<int>, bloklocalnum: seq<int>) returns (brownbr: int)
      requires Allocated() && 0 <= i < |l.f| && Stored(l.d, l.f, i) && NumsOK(l, cblklocalnum, bloklocalnum)
      requires num == Num(l, i) && cnt == Before(l, i + 1).(brow := Before(l, i).brow)
      requires Holds(CblksBefore(l, i) + [Main(l, i).(brown2d := 0)], Joined(BlokParts(l), i + 1))
      requires Lists(i, 0, Before(l, i).blok)
      modifies browtab, browind, cblktab
      ensures Holds(Joined(CblkParts(l), i + 1), Joined(BlokParts(l), i + 1))
      ensures brownbr == |AddedBrow(l, i)| && ListsUpTo(i + 1, Before(l, i + 1).blok)
    {
      hide Joined, Totals, Inverse, CblkNum, RecvBloks, Contribs, OneD;
      hide Main, RecvCblkOf, AddedBrow, Adds, Lists, Stored, ListsUpTo, NumsOK;
      SizesCounted(l, i);
      BlokBound(l, i + 1);
      BoundGrows(l, i);
      MainPlace(l, i);
      ghost var c := CblksBefore(l, i);
      GeneratedKept(i, c);
      brownbr := ReorderBrowtab(i, num, cblklocalnum, bloklocalnum, cnt.brow);
      assert cblktab[..num] == c;
      ListsWiden(i, brownbr, Before(l, i).blok, Before(l, i + 1).blok);
      if l.d.owner[i] == l.d.clustnum {
        ReceivedAt(i, c);
        brownbr := AddDiags(i, num, cnt.brow, brownbr);
      }
      assert cblktab[..num + 1] == c + [Main(l, i)];
      BrowNext(i, Before(l, i + 1).blok);
    }

    /** Generate the stored column block `i`. */
    method GenerateCblk(i: int, cblklocalnum: seq<int>, bloklocalnum: seq<int>)
      requires Built(i) && i < |l.f| && Stored(l.d, l.f, i) && NumsOK(l, cblklocalnum, bloklocalnum)
      modifies this, cblktab, bloktab, browtab, browind, gcbl2loc
      ensures Built(i + 1)
    {
      hide Joined, Totals, Inverse, CblkNum, Main, AddedBrow, Lists, ListsUpTo, Stored;
      MainPlace(l, i);
      var num := RegisterCblk(i, cblklocalnum, bloklocalnum);
      assert num == cblklocalnum[i];
      var brownbr := ListCblk(i, num, cblklocalnum, bloklocalnum);
      gcbl2loc[i] := num;
      cnt := cnt.(brow := cnt.brow + brownbr);
    }

    /** Everything the counting pass announced is there, and nothing else but the closing entries. */
    ghost predicate Complete()
      reads this, cblktab, bloktab, browtab, browind, gcbl2loc
    {
      && Allocated() && cnt == nbr && nbr.cblk >= 0 && nbr.blok >= 0
      && cblktab[..nbr.cblk] == AllCblks(l) && bloktab[..nbr.blok] == AllBloks(l) && browtab[..] == AllBrow(l)
      && Inverse(browind[..], browtab[..], nbr.blok)
      && (forall k :: 0 <= k < |l.f| ==> gcbl2loc[k] == if Stored(l.d, l.f, k) then Num(l, k) else -1)
    }

    ghost predicate ClosedBy(c: SolvCblk)
      reads this
    {
      c.gcblknum == -1 && c.brownum == nbr.brow && c.fblok == nbr.blok && c.lcolidx == nodenbr
    }

    /** Closing column block and block, so that loops may read one entry ahead. */
    method Close()
      requires Built(|l.f|)
      modifies cblktab, bloktab, browind
      ensures Complete() && unchanged(this)
      ensures nbr.cblk > 0 ==> ClosedBy(cblktab[nbr.cblk])
    {
      hide Joined, Totals, CblkNum, Stored;
      SizesCounted(l, |l.f|);
      ghost var back := browind[..];
      ghost var c, b := cblktab[..cnt.cblk], bloktab[..cnt.blok];
      if cnt.cblk > 0 {
        var next := cblktab[cnt.cblk - 1].lcolnum + 1;
        cblktab[cnt.cblk] := SolvCblk(Mine, false, cnt.blok, next, next, cnt.brow, 0, -1, l.d.clustnum, -1, nodenbr);
        if nbr.blok > 0 {
          var cblknbr := |l.d.s.cblktab| - 1;
          bloktab[cnt.blok] := SolvBlok(cblknbr + 1, cblknbr + 1, next, next, -1);
          browind[cnt.blok] := -1;
        }
      }
      assert cblktab[..cnt.cblk] == c && bloktab[..cnt.blok] == b;
      assert browtab[..] == browtab[..nbr.brow];
      forall x | 0 <= x < nbr.brow
        ensures PointsBack(browind[..], browtab[x], nbr.blok, x)
      {
        assert PointsBack(back, AllBrow(l)[x], nbr.blok, x);
      }
    }

    /** Generate all column blocks that are stored. */
    method GenerateAll(cblklocalnum: seq<int>, bloklocalnum: seq<int>)
      requires Built(0) && NumsOK(l, cblklocalnum, bloklocalnum)
      modifies this, cblktab, bloktab, browtab, browind, gcbl2loc
      ensures Built(|l.f|)
    {
      hide Allocated, Holds, ListsUpTo, Nodes, MineNbr, NumsOK, Totals, Joined;
      for i := 0 to |l.f|
        invariant Built(i)
      {
        if l.d.owner[i] == l.d.clustnum || l.f[i] != [] {
          GenerateCblk(i, cblklocalnum, bloklocalnum);
        } else {
          SkipOne(i);
        }
      }
    }

    /** A column block that is not stored adds nothing. */
    lemma SkipOne(i: int)
      requires Built(i) && i < |l.f| && !Stored(l.d, l.f, i)
      ensures Built(i + 1)
    {
      hide Joined, Totals, Inverse, CblkNum;
      BeforeNext(l, i);
      JoinedNext(CblkParts(l), i);
      JoinedNext(BlokParts(l), i);
      JoinedNext(BrowParts(l), i);
    }

    lemma NothingBuilt()
      requires Allocated() && cnt == Counts(0, 0, 0, 0, 0) && nodenbr == 0 && bcscidx == 0
      requires forall k :: 0 <= k < gcbl2loc.Length ==> gcbl2loc[k] == -1
      ensures Built(0)
    {
      SizesCounted(l, |l.f|);
    }
  }

  lemma PassStarts(l: Loc, b: seq<int>)
    requires ListsBloks(l.d.s, b)
    ensures Picked(l, b, 0, false) == Picked(l, b, 0, true) == [] && LocalNbr(l.d.s, l.d.owner, l.d.clustnum, b, 0) == 0
  {
  }

  lemma PassStep(l: Loc, b: seq<int>, j: int)
    requires ListsBloks(l.d.s, b) && 0 <= j < |b|
    ensures forall two ::
      Picked(l, b, j + 1, two) == Picked(l, b, j, two) + if Picks(l, b[j], two) then [NumB(l, b[j])] else []
    ensures LocalNbr(l.d.s, l.d.owner, l.d.clustnum, b, j + 1)
         == LocalNbr(l.d.s, l.d.owner, l.d.clustnum, b, j)
          + if BlokOwner(l.d.s, l.d.owner, b[j]) == l.d.clustnum then 1 else 0
  {
  }

  lemma PassEnds(l: Loc, i: int)
    requires 0 <= i < |l.f|
    ensures BrowListOK(l.d.s, l.d.browtab[i], i) && ListsBloks(l.d.s, l.d.browtab[i])
    ensures LocalBrow(l.d, i) == LocalNbr(l.d.s, l.d.owner, l.d.clustnum, l.d.browtab[i], |l.d.browtab[i]|)
    ensures OneD(l, i) == Picked(l, l.d.browtab[i], |l.d.browtab[i]|, false)
    ensures Contribs(l, i) == OneD(l, i) + Picked(l, l.d.browtab[i], |l.d.browtab[i]|, true)
  {
    assert BrowListOK(l.d.s, l.d.browtab[i], i);
    ListIsBloks(l.d.s, l.d.browtab[i], i);
  }

  lemma OneDFirst(l: Loc, i: int)
    requires 0 <= i < |l.f| && Stored(l.d, l.f, i)
    ensures |OneD(l, i)| <= |Contribs(l, i)| <= |AddedBrow(l, i)|
    ensures Main(l, i).brown2d == Main(l, i).brownum + |OneD(l, i)|
    ensures |Contribs(l, i)| == LocalBrow(l.d, i)
  {
  }

  /** The diagonal block of reception `e` of `i` is the next one to list. */
  lemma DiagListed(l: Loc, i: int, e: int)
    requires 0 <= i < |l.f| && 0 <= e < |l.f[i]| && l.d.owner[i] == l.d.clustnum
    ensures var x := |Contribs(l, i)| + e;
      && x < |AddedBrow(l, i)| && AddedBrow(l, i)[x] == RecvCblkOf(l, i, e).fblok
      && 0 <= RecvCblkOf(l, i, e).fblok < Before(l, i + 1).blok
  {
    hide Totals, RecvBloks, Contribs;
    RecvBloksGrow(l, i, e, |l.f[i]|);
    MineFits(l, i);
    SizesCounted(l, i);
    assert l.d.s.Bounded(i);
    var b := RecvsBloks(l, i, e);
  }

  /** What stands before the column block `i`, its receptions included. */
  ghost function CblksBefore(l: Loc, i: int): (c: seq<SolvCblk>)
    requires 0 <= i < |l.f| && Stored(l.d, l.f, i)
    ensures |c| == Num(l, i) && Joined(CblkParts(l), i + 1) == c + [Main(l, i)] && Joined(CblkParts(l), i) <= c
    ensures l.d.owner[i] == l.d.clustnum ==> c == Joined(CblkParts(l), i) + RecvCblks(l, i, |l.f[i]|)
    ensures l.d.owner[i] != l.d.clustnum ==> c == Joined(CblkParts(l), i)
  {
    hide Joined, Totals, Main, RecvCblkOf;
    SizesCounted(l, i);
    JoinedNext(CblkParts(l), i);
    if l.d.owner[i] == l.d.clustnum then Joined(CblkParts(l), i) + RecvCblks(l, i, |l.f[i]|)
        else Joined(CblkParts(l), i)
  }

  lemma MainPlace(l: Loc, i: int)
    requires 0 <= i < |l.f| && Stored(l.d, l.f, i)
    ensures Before(l, i + 1).cblk - 1 == Num(l, i)
    ensures Main(l, i).brownum == Before(l, i).brow
    ensures Before(l, i).brow + |AddedBrow(l, i)| == Before(l, i + 1).brow
    ensures l.d.owner[i] != l.d.clustnum ==> |AddedBrow(l, i)| == |Contribs(l, i)|
  {
    hide Totals, Contribs;
    BeforeNext(l, i);
  }

  lemma BoundGrows(l: Loc, i: int)
    requires 0 <= i < |l.f|
    ensures Before(l, i).blok <= Before(l, i + 1).blok
  {
    hide Totals;
    TotalsGrow(l, i, i + 1);
  }

  lemma StoredNum(l: Loc, k: int)
    requires 0 <= k < |l.f| && Num(l, k) >= 0
    ensures Stored(l.d, l.f, k)
  {
  }

  lemma BlokBound(l: Loc, i: int)
    requires 0 <= i <= |l.f|
    ensures Before(l, i).blok <= Before(l, |l.f|).blok
  {
    TotalsGrow(l, i, |l.f|);
  }

  /** What the first pass leaves of block `b`: itself when it is a 2D contribution, or a mark. */
  ghost predicate Marked(l: Loc, b: int, v: int) {
    0 <= b < |l.d.s.bloktab| && if Picks(l, b, true) then v == b else v < 0
  }

  lemma PickCases(l: Loc, b: int)
    requires 0 <= b < |l.d.s.bloktab|
    ensures var k := l.d.s.bloktab[b].lcblknm;
      && 0 <= k < |l.f| && (BlokOwner(l.d.s, l.d.owner, b) == l.d.clustnum ==> Stored(l.d, l.f, k))
      && (Picks(l, b, true) <==> BlokOwner(l.d.s, l.d.owner, b) == l.d.clustnum && l.t2d[k])
      && (Picks(l, b, false) <==> BlokOwner(l.d.s, l.d.owner, b) == l.d.clustnum && !l.t2d[k])
  {
    assert l.d.s.BlokPlaced(b);
  }

  lemma Room(l: Loc, i: int, x: int)
    requires 0 <= i < |l.f| && 0 <= x < |AddedBrow(l, i)|
    ensures |Joined(BrowParts(l), i)| + x < Before(l, |l.f|).brow
  {
    hide AddedBrow, Joined, Totals;
    SizesCounted(l, |l.f|);
    JoinedAt(BrowParts(l), |l.f|, i, x);
  }

  lemma NoneReceived(l: Loc, i: int)
    requires 0 <= i < |l.f|
    ensures RecvCblks(l, i, 0) == [] && RecvsBloks(l, i, 0) == [] && RecvBloks(l.d.s, i, l.f[i], 0) == 0
  {
  }

  lemma RecvBlokNonNegative(l: Loc, i: int, e: int)
    requires 0 <= i < |l.f| && 0 <= e < |l.f[i]|
    ensures RecvBloks(l.d.s, i, l.f[i], e) <= RecvBloks(l.d.s, i, l.f[i], e + 1)
  {
  }

  lemma MineFits(l: Loc, i: int)
    requires 0 <= i < |l.f| && l.d.owner[i] == l.d.clustnum
    ensures Num(l, i) == Before(l, i).cblk + |l.f[i]|
    ensures Before(l, i).blok + RecvBloks(l.d.s, i, l.f[i], |l.f[i]|)
        + l.d.s.End(i) - l.d.s.First(i) <= Before(l, |l.f|).blok
    ensures Before(l, i).blok + RecvBloks(l.d.s, i, l.f[i], |l.f[i]|) + l.d.s.End(i) - l.d.s.First(i)
        == Before(l, i + 1).blok
    ensures Before(l, i + 1).cblk == Before(l, i).cblk + |l.f[i]| + 1 <= Before(l, |l.f|).cblk
    ensures Before(l, i + 1).recv == Before(l, i).recv + |l.f[i]| && Before(l, i + 1).fanin == Before(l, i).fanin
  {
    hide Totals;
    TotalsGrow(l, i + 1, |l.f|);
    BeforeNext(l, i);
  }

  /** What the column block `i` of this process adds. */
  lemma MineMade(l: Loc, i: int)
    requires 0 <= i < |l.f| && l.d.owner[i] == l.d.clustnum
    ensures var b, n := l.d.s.cblktab[i], Before(l, i);
      && Main(l, i) == SolvCblk(Mine, l.t2d[i], n.blok + RecvBloks(l.d.s, i, l.f[i], |l.f[i]|), b.fcolnum, b.lcolnum,
                                n.brow, Main(l, i).brown2d, i, l.d.clustnum, MineNbr(l, i), Nodes(l, i))
      && Nodes(l, i + 1) == Nodes(l, i) + b.lcolnum - b.fcolnum + 1 && MineNbr(l, i + 1) == MineNbr(l, i) + 1
      && Joined(BlokParts(l), i + 1)
         == (Joined(BlokParts(l), i) + RecvsBloks(l, i, |l.f[i]|)) + MineBloks(l, i, l.d.s.End(i) - l.d.s.First(i))
  {
    hide Joined, Totals, RecvsBloks, MineBloks, OneD;
    JoinedNext(BlokParts(l), i);
    assert BlokParts(l)[i] == RecvsBloks(l, i, |l.f[i]|) + MineBloks(l, i, l.d.s.End(i) - l.d.s.First(i));
  }

  lemma FaninFits(l: Loc, i: int)
    requires 0 <= i < |l.f| && l.d.owner[i] != l.d.clustnum && l.f[i] != []
    ensures Num(l, i) == Before(l, i).cblk
    ensures Before(l, i + 1).blok == Before(l, i).blok + BlokNbrOf(l.d.s, i, l.f[i][0]) <= Before(l, |l.f|).blok
    ensures Before(l, i + 1).cblk == Before(l, i).cblk + 1 <= Before(l, |l.f|).cblk
    ensures Before(l, i + 1).recv == Before(l, i).recv && Before(l, i + 1).fanin == Before(l, i).fanin + 1
  {
    hide Totals;
    TotalsGrow(l, i + 1, |l.f|);
    BeforeNext(l, i);
  }

  /** The first block kept by a fan-in faces nothing. */
  lemma FaninFirst(l: Loc, i: int)
    requires 0 <= i < |l.f| && l.f[i] != []
    ensures GoodRecv(l.d.s, i, l.f[i][0]) && |FaninBloks(l, i)| >= 1 && FaninBloks(l, i)[0].fcblknm == -1
  {
    assert ListOK(l.d, l.f[i], i);
    var r := l.f[i][0];
    assert GoodRecv(l.d.s, i, r);
    KeptAt(l.d.s, i, r, Num(l, i), |r.bloktab|, 0);
    assert BlokNbr(l.d.s, i, r, 0) == 0;
  }

  /** There is room for the receptions and the blocks of `i`. */
  lemma RecvFits(l: Loc, i: int, e: int)
    requires 0 <= i < |l.f| && 0 <= e < |l.f[i]| && l.d.owner[i] == l.d.clustnum
    ensures Before(l, i).cblk + e + 1 < Before(l, |l.f|).cblk + 1
    ensures Before(l, i).blok + RecvBloks(l.d.s, i, l.f[i], e) + BlokNbrOf(l.d.s, i, l.f[i][e]) <= Before(l, |l.f|).blok
    ensures RecvBloks(l.d.s, i, l.f[i], e + 1) == RecvBloks(l.d.s, i, l.f[i], e) + BlokNbrOf(l.d.s, i, l.f[i][e])
  {
    hide Totals, BlokNbrOf;
    TotalsGrow(l, i + 1, |l.f|);
    BeforeNext(l, i);
    assert l.d.s.Bounded(i);
    if e + 1 < |l.f[i]| {
      RecvBloksGrow(l, i, e + 1, |l.f[i]|);
    }
  }

  lemma BeforeNext(l: Loc, i: int)
    requires 0 <= i < |l.f|
    ensures Before(l, i + 1) == Plus(Before(l, i), Adds(l.d, l.f[i], i))
  {
  }

  lemma DiagFaces(s: Symb, i: int)
    requires 0 <= i < s.CblkNbr()
    ensures s.Bounded(i) && s.bloktab[s.First(i)].fcblknm == i
  {
    assert s.Bounded(i);
    assert s.BlokPlaced(s.First(i));
  }

  lemma {:induction false} BlokNbrGrows(s: SymbolMatrix, i: int, r: RecvCblk, m: int, n: int)
    requires s.Bounded(i) && |r.bloktab| == s.End(i) - s.First(i) && 0 <= m <= n <= |r.bloktab|
    ensures BlokNbr(s, i, r, m) <= BlokNbr(s, i, r, n)
    decreases n
  {
    if m < n {
      BlokNbrGrows(s, i, r, m, n - 1);
    }
  }

  /** Count, allocate, generate: what one process stores of a distributed symbol. */
  method SolverMatrixGen(d: Dist, t2d: seq<bool>) returns (m: SolverMatrix)
    requires |t2d| == d.s.CblkNbr()
    ensures fresh(m) && m.l.d == d && m.l.t2d == t2d
    ensures Registered(d, m.l.f, d.s.CblkNbr()) && m.Complete()
  {
    hide Registered, Numbered, LocalOK, Totals;
    var cblklocalnum, bloklocalnum := new int[d.s.CblkNbr()], new int[|d.s.bloktab|];
    var ftgttab := new seq<RecvCblk>[d.s.CblkNbr()](_ => []);
    var n := FillLocalnums(d, cblklocalnum, bloklocalnum, ftgttab);
    var f := ftgttab[..];
    CountedIsLocal(d, t2d, f);
    var l: Loc := Local(d, t2d, f);
    var cblks, bloks := cblklocalnum[..], bloklocalnum[..];
    CountedNums(l, cblks, bloks);
    m := new SolverMatrix(l, n);
    m.NothingBuilt();
    m.GenerateAll(cblks, bloks);
    m.Close();
  }

  /** A stored column block is found at its local number. */
  lemma CblkFound(m: SolverMatrix, i: int)
    requires m.Complete() && 0 <= i < |m.l.f| && Stored(m.l.d, m.l.f, i)
    ensures 0 <= m.gcbl2loc[i] < m.nbr.cblk && m.cblktab[m.gcbl2loc[i]] == Main(m.l, i)
  {
    hide Main, CblkNum, Inverse, Totals;
    CblkAt(m.l, i, |m.l.f|);
    assert m.cblktab[..m.nbr.cblk][m.gcbl2loc[i]] == Main(m.l, i);
  }

  /** Its receptions are found just before it. */
  lemma RecvFound(m: SolverMatrix, i: int, e: int)
    requires m.Complete() && 0 <= i < |m.l.f| && m.l.d.owner[i] == m.l.d.clustnum && 0 <= e < |m.l.f[i]|
    ensures var x := m.gcbl2loc[i] - |m.l.f[i]| + e; 0 <= x < m.nbr.cblk && m.cblktab[x] == RecvCblkOf(m.l, i, e)
  {
    hide Main, RecvCblkOf, CblkNum, Inverse, Totals;
    RecvCblkAt(m.l, i, e);
    assert m.cblktab[..m.nbr.cblk][m.gcbl2loc[i] - |m.l.f[i]| + e] == RecvCblkOf(m.l, i, e);
  }

  /** A block of this process is found at its local number, with the column blocks it
      belongs to and faces. */
  lemma BlokFound(m: SolverMatrix, b: int)
    requires m.Complete() && 0 <= b < |m.l.d.s.bloktab| && BlokOwner(m.l.d.s, m.l.d.owner, b) == m.l.d.clustnum
    ensures m.l.d.s.BlokPlaced(b) && 0 <= NumB(m.l, b) < m.nbr.blok
    ensures var y := m.bloktab[NumB(m.l, b)]; var o := m.l.d.s.bloktab[b];
      y == SolvBlok(m.gcbl2loc[o.lcblknm], m.gcbl2loc[o.fcblknm], o.frownum, o.lrownum, b)
  {
    hide NumB, CblkNum, Inverse, Totals;
    assert m.l.d.s.BlokPlaced(b);
    assert FacedStored(m.l.d, m.l.f, b);
    BlokAt(m.l, m.l.d.s.bloktab[b].lcblknm, b, |m.l.f|);
    assert m.bloktab[..m.nbr.blok][NumB(m.l, b)] == MineBlok(m.l, m.l.d.s.bloktab[b].lcblknm, b);
  }

  /** Where block `b` is listed by the column block `i` it faces. */
  lemma ContribPlace(l: Loc, i: int, b: int) returns (p: int)
    requires 0 <= i < |l.f| && Faces(l.d.s, b, i) && BlokOwner(l.d.s, l.d.owner, b) == l.d.clustnum
    ensures Stored(l.d, l.f, i) && 0 <= p < LocalBrow(l.d, i) && 0 <= l.d.s.bloktab[b].lcblknm < |l.f|
    ensures p < |AddedBrow(l, i)| && AddedBrow(l, i)[p] == NumB(l, b)
    ensures p < |OneD(l, i)| <==> !l.t2d[l.d.s.bloktab[b].lcblknm]
  {
    hide NumB, Picks, OneD, BlokOwner, LocalBrow;
    EveryBlokListed(l, i, b);
    OneDFirst(l, i);
    p :| 0 <= p < |Contribs(l, i)| && Contribs(l, i)[p] == NumB(l, b);
    var a, two := ContribFrom(l, i, p);
    NumComesFrom(l, b);
    SameOrigin(l, NumB(l, b), a, b);
    PickCases(l, b);
  }

  /** The place `x` is in the list of `c`, in its 2D part or not. */
  ghost predicate InPart(c: SolvCblk, x: int, size: int, two: bool) {
    c.brownum <= x < c.brownum + size && (x < c.brown2d <==> !two)
  }

  /** Every off-diagonal block of this process knows its place in the list of the column
      block it faces: in its 1D part or its 2D part, as its own column block tells. */
  lemma ContribFound(m: SolverMatrix, i: int, b: int)
    requires m.Complete() && 0 <= i < |m.l.f| && Faces(m.l.d.s, b, i)
    requires BlokOwner(m.l.d.s, m.l.d.owner, b) == m.l.d.clustnum
    ensures Stored(m.l.d, m.l.f, i) && 0 <= NumB(m.l, b) < m.nbr.blok && 0 <= m.l.d.s.bloktab[b].lcblknm < |m.l.f|
    ensures 0 <= m.browind[NumB(m.l, b)] < m.browtab.Length && m.browtab[m.browind[NumB(m.l, b)]] == NumB(m.l, b)
    ensures 0 <= m.gcbl2loc[i] < m.nbr.cblk
    ensures InPart(m.cblktab[m.gcbl2loc[i]], m.browind[NumB(m.l, b)], LocalBrow(m.l.d, i),
                   m.l.t2d[m.l.d.s.bloktab[b].lcblknm])
  {
    hide NumB, OneD, AddedBrow, BlokOwner, LocalBrow, Totals, CblkNum;
    FacesStored(m.l, i, b);
    CblkFound(m, i);
    var p := ContribPlace(m.l, i, b);
    BrowAt(m.l, i, p);
    OneDFirst(m.l, i);
    var x := Main(m.l, i).brownum + p;
    assert m.browtab[..][x] == NumB(m.l, b);
    assert PointsBack(m.browind[..], m.browtab[..][x], m.nbr.blok, x);
  }

  lemma FacesStored(l: Loc, i: int, b: int)
    requires 0 <= i < |l.f| && Faces(l.d.s, b, i) && BlokOwner(l.d.s, l.d.owner, b) == l.d.clustnum
    ensures Stored(l.d, l.f, i)
  {
    assert FacedStored(l.d, l.f, b);
  }

  /** Number of the reception of column block `i` tagged `p`. */
  ghost predicate TaggedAt(m: SolverMatrix, i: int, e: int, p: int)
    requires 0 <= i < |m.l.f|
  {
    0 <= e < |m.l.f[i]| && m.l.f[i][e].ownerid == p
  }

  /** What one process stores to send is what the other stores to receive: same columns,
      and the same blocks one after the other. */
  lemma SentIsReceived(here: SolverMatrix, there: SolverMatrix, i: int, e: int, x: int)
    requires here.Complete() && there.Complete() && here.l.d.s == there.l.d.s && here.l.d.owner == there.l.d.owner
    requires 0 <= i < |here.l.f| && here.l.d.owner[i] == there.l.d.clustnum != here.l.d.clustnum
    requires Registered(here.l.d, here.l.f, |here.l.f|) && Registered(there.l.d, there.l.f, |there.l.f|)
    requires TaggedAt(there, i, e, here.l.d.clustnum)
    ensures Stored(here.l.d, here.l.f, i) && 0 <= here.gcbl2loc[i] < here.nbr.cblk
    ensures 0 <= there.gcbl2loc[i] - |there.l.f[i]| + e < there.nbr.cblk
    ensures var snd, rcv := here.cblktab[here.gcbl2loc[i]], there.cblktab[there.gcbl2loc[i] - |there.l.f[i]| + e];
      && snd.role == Sending && rcv.role == Receiving && rcv.ownerid == here.l.d.clustnum
      && snd.fcolnum == rcv.fcolnum && snd.lcolnum == rcv.lcolnum
      && (0 <= x < BlokNbrOf(here.l.d.s, i, here.l.f[i][0]) ==>
            && 0 <= snd.fblok + x < here.nbr.blok && 0 <= rcv.fblok + x < there.nbr.blok
            && SameRows(here.bloktab[snd.fblok + x], there.bloktab[rcv.fblok + x]))
  {
    hide FaninBloks, RecvBlokSeq, Totals, Inverse, CblkNum, BlokNbrOf, Registered;
    hide OneD, Nodes, RecvBloks, MineNbr, AllBloks, AllCblks, AllBrow;
    ProcessesAgree(here.l.d, there.l.d, here.l.f, there.l.f, i, e);
    CblkFound(here, i);
    RecvFound(there, i, e);
    if 0 <= x < BlokNbrOf(here.l.d.s, i, here.l.f[i][0]) {
      FaninIsReception(here.l, there.l, i, e);
      FaninBlokRun(here.l, i, x);
      RecvBlokRun(there.l, i, e, x);
      assert here.bloktab[..here.nbr.blok][Main(here.l, i).fblok + x] == FaninBloks(here.l, i)[x];
      assert there.bloktab[..there.nbr.blok][RecvCblkOf(there.l, i, e).fblok + x] == RecvBlokSeq(there.l, i, e)[x];
    }
  }

  /** A process has something to send for `i` if and only if its owner expects it. */
  lemma SentIfExpected(here: SolverMatrix, there: SolverMatrix, i: int)
    requires here.Complete() && there.Complete() && here.l.d.s == there.l.d.s && here.l.d.owner == there.l.d.owner
    requires 0 <= i < |here.l.f| && here.l.d.owner[i] == there.l.d.clustnum != here.l.d.clustnum
    requires Registered(here.l.d, here.l.f, |here.l.f|) && Registered(there.l.d, there.l.f, |there.l.f|)
    ensures here.gcbl2loc[i] >= 0 <==> exists e :: TaggedAt(there, i, e, here.l.d.clustnum)
  {
    hide Totals, Inverse, CblkNum, BlokNbrOf, Registered;
    ProcessesAgree(here.l.d, there.l.d, here.l.f, there.l.f, i, 0);
    if Tagged(there.l.f[i], here.l.d.clustnum) {
      var e :| 0 <= e < |there.l.f[i]| && there.l.f[i][e].ownerid == here.l.d.clustnum;
      assert TaggedAt(there, i, e, here.l.d.clustnum);
      CblkFound(here, i);
    }
  }
}
