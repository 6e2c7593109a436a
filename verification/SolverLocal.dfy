/** Local numbering of one process: which column blocks it stores, what it receives
    and sends, and how many column blocks, blocks and row entries that makes. */
module SolverLocal {
  import opened Symbol
  import opened SolverRecv

  // ----- contributions listed by faced column block -----

  /** Block `j` is an off-diagonal block facing `i`. */
  ghost predicate Faces(s: SymbolMatrix, j: int, i: int) {
    0 <= j < |s.bloktab| && s.bloktab[j].fcblknm == i != s.bloktab[j].lcblknm
  }

  /** `l` lists once each off-diagonal block facing `i`. */
  ghost predicate BrowListOK(s: SymbolMatrix, l: seq<int>, i: int) {
    && (forall a, b :: 0 <= a < b < |l| ==> l[a] != l[b])
    && (forall a :: 0 <= a < |l| ==> Faces(s, l[a], i))
    && (forall j :: Faces(s, j, i) ==> j in l)
  }

  ghost predicate ListsBloks(s: SymbolMatrix, l: seq<int>) {
    forall a :: 0 <= a < |l| ==> 0 <= l[a] < |s.bloktab|
  }

  ghost predicate BrowOK(s: SymbolMatrix, browtab: seq<seq<int>>) {
    |browtab| == s.CblkNbr() && forall i :: 0 <= i < |browtab| ==> BrowListOK(s, browtab[i], i)
  }

  /** Entries of `l` below `m` that process `p` owns. */
  ghost function LocalNbr(s: Symb, owner: seq<int>, p: int, l: seq<int>, m: int): (c: int)
    requires Owned(s, owner) && 0 <= m <= |l| && ListsBloks(s, l)
    ensures 0 <= c <= m
  {
    if m == 0 then 0 else LocalNbr(s, owner, p, l, m - 1) + (if BlokOwner(s, owner, l[m - 1]) == p then 1 else 0)
  }

  /** Entries of `l` below `m` that process `p` does not own. */
  ghost function RemoteSeen(s: Symb, owner: seq<int>, p: int, l: seq<int>, m: int): (x: set<int>)
    requires Owned(s, owner) && 0 <= m <= |l| && ListsBloks(s, l)
    ensures forall b :: b in x ==> b in l && 0 <= b < |s.bloktab| && BlokOwner(s, owner, b) != p
    ensures forall a :: 0 <= a < m && BlokOwner(s, owner, l[a]) != p ==> l[a] in x
  {
    if m == 0 then {} else
    RemoteSeen(s, owner, p, l, m - 1) + (if BlokOwner(s, owner, l[m - 1]) != p then {l[m - 1]} else {})
  }

  lemma AllRemoteSeen(s: Symb, owner: seq<int>, p: int, l: seq<int>, i: int)
    requires Owned(s, owner) && BrowListOK(s, l, i)
    ensures RemoteSeen(s, owner, p, l, |l|) == Remote(s, owner, p, i)
  {
    hide BlokOwner;
    forall b | b in Remote(s, owner, p, i)
      ensures b in RemoteSeen(s, owner, p, l, |l|)
    {
      assert Faces(s, b, i);
      assert b in l;
    }
    forall b | b in l
      ensures Faces(s, b, i)
    {
    }
  }

  /** Register the remote contributions to the owned column block `i`. */
  method RegisterRecvs(s: FilledSymb, ftgttab: array<seq<RecvCblk>>, l: seq<int>, i: int, owner: seq<int>,
          clustnum: int)
      returns (brownbr: int)
    requires Owned(s, owner) && 0 <= i < s.CblkNbr() == ftgttab.Length && BrowListOK(s, l, i) && ftgttab[i] == []
    modifies ftgttab
    ensures RecvsOf(s, i, owner, Remote(s, owner, clustnum, i), ftgttab[i])
    ensures ListsBloks(s, l) && brownbr == LocalNbr(s, owner, clustnum, l, |l|)
    ensures brownbr + |ftgttab[i]| <= |l|
    ensures forall k :: 0 <= k < ftgttab.Length && k != i ==> ftgttab[k] == old(ftgttab[k])
  {
    hide RecvsOf, BlokOwner, Remote;
    brownbr := |l|;
    NoRecvs(s, i, owner);
    for j := 0 to |l|
      invariant brownbr - (|l| - j) == LocalNbr(s, owner, clustnum, l, j)
      invariant brownbr + |ftgttab[i]| <= |l|
      invariant RecvsOf(s, i, owner, RemoteSeen(s, owner, clustnum, l, j), ftgttab[i])
      invariant forall k :: 0 <= k < ftgttab.Length && k != i ==> ftgttab[k] == old(ftgttab[k])
    {
      var k := l[j];
      assert Faces(s, k, i);
      var c := BlokOwner(s, owner, k);
      assert i == s.bloktab[k].fcblknm;
      ghost var seen := RemoteSeen(s, owner, clustnum, l, j);
      assert RemoteSeen(s, owner, clustnum, l, j + 1) == if c != clustnum then seen + {k} else seen;
      if c != clustnum {
        UpdateRecv(s, ftgttab, k, i, owner, c, seen);
        brownbr := brownbr - 1;
      }
      assert brownbr >= 0;
    }
    AllRemoteSeen(s, owner, clustnum, l, i);
  }

  lemma NoRecvs(s: Symb, i: int, owner: seq<int>)
    requires Owned(s, owner)
    ensures RecvsOf(s, i, owner, {}, [])
  {
  }

  // ----- fan-ins sent -----

  /** Fan-ins of process `p` once the blocks below `e` are seen. */
  ghost predicate FaninsUpTo(s: Symb, owner: seq<int>, p: int, e: int, ftgt: seq<seq<RecvCblk>>)
    requires Owned(s, owner) && |ftgt| == |owner|
  {
    forall k :: 0 <= k < |ftgt| && owner[k] != p ==> FaninOf(s, k, owner[k], Sent(s, owner, p, k, e), ftgt[k])
  }

  lemma SentMore(s: Symb, owner: seq<int>, p: int, k: int, e: int)
    requires Owned(s, owner) && 0 <= e < |s.bloktab|
    ensures Sent(s, owner, p, k, e + 1)
         == if s.bloktab[e].fcblknm == k != s.bloktab[e].lcblknm && BlokOwner(s, owner, e) == p
            then Sent(s, owner, p, k, e) + {e} else Sent(s, owner, p, k, e)
  {
  }

  /** Register block `j` of an owned column block to the fan-in of the one it faces. */
  method RegisterFanin(s: FilledSymb, ftgttab: array<seq<RecvCblk>>, i: int, j: int, owner: seq<int>, clustnum: int)
    requires Owned(s, owner) && 0 <= i < s.CblkNbr() == ftgttab.Length && owner[i] == clustnum
    requires s.First(i) <= j < s.End(i) && FaninsUpTo(s, owner, clustnum, j, ftgttab[..])
    modifies ftgttab
    ensures FaninsUpTo(s, owner, clustnum, j + 1, ftgttab[..])
    ensures forall k :: 0 <= k < ftgttab.Length && (owner[k] == clustnum || k <= i) ==> ftgttab[k] == old(ftgttab[k])
  {
    hide FaninOf, Sent, BlokOwner;
    OwnBlok(s, owner, i, j);
    var fcblknum := s.bloktab[j].fcblknm;
    var fc := owner[fcblknum];
    forall k | 0 <= k < |owner| && owner[k] != clustnum
      ensures Sent(s, owner, clustnum, k, j + 1)
           == if k == fcblknum then Sent(s, owner, clustnum, k, j) + {j} else Sent(s, owner, clustnum, k, j)
    {
      SentMore(s, owner, clustnum, k, j);
    }
    ghost var ftgt := ftgttab[..];
    if fc != clustnum {
      UpdateFanin(s, ftgttab, j, fcblknum, fc, Sent(s, owner, clustnum, fcblknum, j));
    }
    forall k | 0 <= k < |owner| && owner[k] != clustnum
      ensures FaninOf(s, k, owner[k], Sent(s, owner, clustnum, k, j + 1), ftgttab[..][k])
    {
      assert FaninOf(s, k, owner[k], Sent(s, owner, clustnum, k, j), ftgt[k]);
    }
  }

  lemma OwnBlok(s: Symb, owner: seq<int>, i: int, j: int)
    requires Owned(s, owner) && 0 <= i < s.CblkNbr() && s.First(i) <= j < s.End(i)
    ensures 0 <= j < |s.bloktab| && s.bloktab[j].lcblknm == i && i <= s.bloktab[j].fcblknm < s.CblkNbr()
    ensures BlokOwner(s, owner, j) == owner[i]
  {
    assert s.Bounded(i);
    assert s.BlokPlaced(j);
  }

  // ----- counts -----

  /** A symbol distributed over processes, seen from process `clustnum`. */
  datatype Distrib = Distrib(s: SymbolMatrix, owner: seq<int>, browtab: seq<seq<int>>, clustnum: int)

  type Dist = d: Distrib | d.s.Valid() && d.s.FillClosed() && Owned(d.s, d.owner) && BrowOK(d.s, d.browtab)
    witness Distrib(SymbolMatrix([Cblk(0, 0, 0)], []), [], [], 0)

  /** Column blocks, blocks, row entries, receptions and fan-ins of the local matrix. */
  datatype Counts = Counts(cblk: int, blok: int, brow: int, recv: int, fanin: int)

  /** Blocks kept in the first `m` receptions of `i`. */
  ghost function RecvBloks(s: SymbolMatrix, i: int, list: seq<RecvCblk>, m: int): (c: int)
    requires 0 <= m <= |list|
    ensures c >= 0
  {
    if m == 0 then 0 else RecvBloks(s, i, list, m - 1) + BlokNbrOf(s, i, list[m - 1])
  }

  ghost function LocalBrow(d: Dist, i: int): (c: int)
    requires 0 <= i < d.s.CblkNbr()
    ensures 0 <= c <= |d.browtab[i]|
  {
    assert BrowListOK(d.s, d.browtab[i], i);
    assert ListsBloks(d.s, d.browtab[i]) by { ListIsBloks(d.s, d.browtab[i], i); }
    LocalNbr(d.s, d.owner, d.clustnum, d.browtab[i], |d.browtab[i]|)
  }

  lemma ListIsBloks(s: SymbolMatrix, l: seq<int>, i: int)
    requires BrowListOK(s, l, i)
    ensures ListsBloks(s, l)
  {
    forall a | 0 <= a < |l| ensures 0 <= l[a] < |s.bloktab| {
      assert Faces(s, l[a], i);
    }
  }

  /** What column block `i` adds, given its receptions or its fan-in. */
  ghost function Adds(d: Dist, list: seq<RecvCblk>, i: int): Counts
    requires 0 <= i < d.s.CblkNbr()
  {
    if d.owner[i] == d.clustnum then
      Counts(|list| + 1, RecvBloks(d.s, i, list, |list|) + d.s.End(i) - d.s.First(i),
             LocalBrow(d, i) + |list|, |list|, 0)
    else if list != [] then
      Counts(1, BlokNbrOf(d.s, i, list[0]), LocalBrow(d, i), 0, 1)
    else
      Counts(0, 0, 0, 0, 0)
  }

  function Plus(a: Counts, b: Counts): Counts {
    Counts(a.cblk + b.cblk, a.blok + b.blok, a.brow + b.brow, a.recv + b.recv, a.fanin + b.fanin)
  }

  /** What the column blocks below `i` make in all. */
  ghost function Totals(d: Dist, ftgt: seq<seq<RecvCblk>>, i: int): Counts
    requires |ftgt| == d.s.CblkNbr() && 0 <= i <= |ftgt|
  {
    if i == 0 then Counts(0, 0, 0, 0, 0) else Plus(Totals(d, ftgt, i - 1), Adds(d, ftgt[i - 1], i - 1))
  }

  lemma {:induction false} TotalsKept(d: Dist, f: seq<seq<RecvCblk>>, g: seq<seq<RecvCblk>>, i: int)
    requires |f| == |g| == d.s.CblkNbr() && 0 <= i <= |f| && forall k :: 0 <= k < i ==> f[k] == g[k]
    ensures Totals(d, f, i) == Totals(d, g, i)
  {
    if i > 0 {
      TotalsKept(d, f, g, i - 1);
    }
  }

  /** Local number of column block `i`; negative when it is not stored. */
  ghost function CblkNum(d: Dist, ftgt: seq<seq<RecvCblk>>, i: int): int
    requires |ftgt| == d.s.CblkNbr() && 0 <= i < |ftgt|
  {
    if d.owner[i] == d.clustnum then Totals(d, ftgt, i).cblk + |ftgt[i]|
    else if ftgt[i] != [] then Totals(d, ftgt, i).cblk
    else -i - 1
  }

  /** Local number of block `j` of column block `i`: after the blocks of the receptions
      for an owned one, among the blocks kept for a fan-in. */
  ghost function BlokNum(d: Dist, ftgt: seq<seq<RecvCblk>>, i: int, j: int): int
    requires |ftgt| == d.s.CblkNbr() && 0 <= i < |ftgt| && d.s.First(i) <= j < d.s.End(i)
  {
    assert d.s.Bounded(i);
    if d.owner[i] == d.clustnum then
      Totals(d, ftgt, i).blok + RecvBloks(d.s, i, ftgt[i], |ftgt[i]|) + j - d.s.First(i)
    else if
      && ftgt[i] != [] && |ftgt[i][0].bloktab| == d.s.End(i) - d.s.First(i)
      && Kept(d.s, j, ftgt[i][0].bloktab[j - d.s.First(i)])
    then
      Totals(d, ftgt, i).blok + BlokNbr(d.s, i, ftgt[i][0], j - d.s.First(i))
    else -1
  }

  /** Numbers of the blocks of column block `i` below block `e` are stored. */
  ghost predicate BloksNumbered(d: Dist, ftgt: seq<seq<RecvCblk>>, bloknum: seq<int>, i: int, e: int)
    requires |ftgt| == d.s.CblkNbr() && 0 <= i < |ftgt|
  {
    |bloknum| == |d.s.bloktab| && forall j :: d.s.First(i) <= j < d.s.End(i) && j < e && j < |bloknum| ==>
        bloknum[j] == BlokNum(d, ftgt, i, j)
  }

  ghost predicate Stored(d: Dist, ftgt: seq<seq<RecvCblk>>, i: int)
    requires |ftgt| == d.s.CblkNbr() && 0 <= i < |ftgt|
  {
    d.owner[i] == d.clustnum || ftgt[i] != []
  }

  ghost predicate CblkNumbered(d: Dist, ftgt: seq<seq<RecvCblk>>, cblknum: seq<int>, bloknum: seq<int>, i: int)
    requires |ftgt| == |cblknum| == d.s.CblkNbr() && 0 <= i < |ftgt|
  {
    cblknum[i] == CblkNum(d, ftgt, i) && (Stored(d, ftgt, i) ==> BloksNumbered(d, ftgt, bloknum, i, |bloknum|))
  }

  /** Receptions of the owned column blocks below `i` are complete, and fan-ins count
      what the column blocks below `i` send. */
  ghost predicate Registered(d: Dist, ftgt: seq<seq<RecvCblk>>, i: int) {
    && |ftgt| == d.s.CblkNbr() && 0 <= i <= |ftgt|
    && (forall k :: 0 <= k < |ftgt| && d.owner[k] == d.clustnum ==>
          if k < i then RecvsOf(d.s, k, d.owner, Remote(d.s, d.owner, d.clustnum, k), ftgt[k]) else ftgt[k] == [])
    && FaninsUpTo(d.s, d.owner, d.clustnum, d.s.First(i), ftgt)
  }

  ghost predicate Numbered(d: Dist, ftgt: seq<seq<RecvCblk>>, cblknum: seq<int>, bloknum: seq<int>, i: int) {
    && |ftgt| == |cblknum| == d.s.CblkNbr() && |bloknum| == |d.s.bloktab| && 0 <= i <= |ftgt|
    && (forall k :: 0 <= k < i ==> CblkNumbered(d, ftgt, cblknum, bloknum, k))
  }

  // ----- numbering -----

  /** Number of blocks received for the owned column block `i`. */
  method CountRecvs(d: Dist, i: int, list: seq<RecvCblk>) returns (bloknbr: int)
    requires 0 <= i < d.s.CblkNbr() && RecvsOf(d.s, i, d.owner, Remote(d.s, d.owner, d.clustnum, i), list)
    ensures bloknbr == RecvBloks(d.s, i, list, |list|)
    ensures forall e :: 0 <= e < |list| ==> list[e].ownerid != d.clustnum
  {
    hide IsRecv, BlokNbrOf, BlokOwner;
    bloknbr := 0;
    ghost var remote := Remote(d.s, d.owner, d.clustnum, i);
    for e := 0 to |list|
      invariant bloknbr == RecvBloks(d.s, i, list, e)
      invariant forall f :: 0 <= f < e ==> list[f].ownerid != d.clustnum
    {
      assert RecvOK(d.s, i, d.owner, remote, list[e]);
      var c := GetBloknbr(d.s, i, list[e], From(d.s, d.owner, remote, list[e].ownerid));
      bloknbr := bloknbr + c;
    }
  }

  /** Number the blocks of the owned column block `i`, and register what they send. */
  method NumberOwned(d: Dist, ftgttab: array<seq<RecvCblk>>, bloklocalnum: array<int>, i: int, localindex: int)
      returns (next: int)
    requires 0 <= i < d.s.CblkNbr() == ftgttab.Length && d.owner[i] == d.clustnum
    requires bloklocalnum.Length == |d.s.bloktab|
    requires FaninsUpTo(d.s, d.owner, d.clustnum, d.s.First(i), ftgttab[..])
    requires localindex == Totals(d, ftgttab[..], i).blok + RecvBloks(d.s, i, ftgttab[i], |ftgttab[i]|)
    modifies ftgttab, bloklocalnum
    ensures next == localindex + d.s.End(i) - d.s.First(i)
    ensures FaninsUpTo(d.s, d.owner, d.clustnum, d.s.End(i), ftgttab[..])
    ensures forall k :: 0 <= k < ftgttab.Length && (d.owner[k] == d.clustnum || k <= i) ==>
      ftgttab[k] == old(ftgttab[k])
    ensures forall j :: 0 <= j < bloklocalnum.Length && !(d.s.First(i) <= j < d.s.End(i)) ==>
      bloklocalnum[j] == old(bloklocalnum[j])
    ensures BloksNumbered(d, ftgttab[..], bloklocalnum[..], i, bloklocalnum.Length)
  {
    hide FaninsUpTo, RecvBloks, Totals;
    assert d.s.Bounded(i);
    next := localindex;
    ghost var base := localindex;
    for j := d.s.cblktab[i].bloknum to d.s.cblktab[i + 1].bloknum
      invariant next == base + j - d.s.First(i)
      invariant FaninsUpTo(d.s, d.owner, d.clustnum, j, ftgttab[..])
      invariant forall k :: 0 <= k < ftgttab.Length && (d.owner[k] == d.clustnum || k <= i) ==>
        ftgttab[k] == old(ftgttab[k])
      invariant forall k :: 0 <= k < bloklocalnum.Length && !(d.s.First(i) <= k < j) ==>
        bloklocalnum[k] == old(bloklocalnum[k])
      invariant forall k :: d.s.First(i) <= k < j ==> bloklocalnum[k] == base + k - d.s.First(i)
    {
      bloklocalnum[j] := next;
      next := next + 1;
      RegisterFanin(d.s, ftgttab, i, j, d.owner, d.clustnum);
    }
    TotalsKept(d, old(ftgttab[..]), ftgttab[..], i);
  }

  /** Number the blocks kept in the fan-in of column block `i`. */
  method NumberFanin(d: Dist, ftgttab: array<seq<RecvCblk>>, bloklocalnum: array<int>, i: int, localindex: int)
      returns (next: int)
    requires 0 <= i < d.s.CblkNbr() == ftgttab.Length && d.owner[i] != d.clustnum
    requires bloklocalnum.Length == |d.s.bloktab|
    requires ftgttab[i] != [] && |ftgttab[i][0].bloktab| == d.s.End(i) - d.s.First(i)
    requires localindex == Totals(d, ftgttab[..], i).blok
    modifies bloklocalnum
    ensures next == localindex + BlokNbrOf(d.s, i, ftgttab[i][0])
    ensures forall j :: 0 <= j < bloklocalnum.Length && !(d.s.First(i) <= j < d.s.End(i)) ==>
      bloklocalnum[j] == old(bloklocalnum[j])
    ensures BloksNumbered(d, ftgttab[..], bloklocalnum[..], i, bloklocalnum.Length)
  {
    hide Totals;
    assert d.s.Bounded(i);
    var ftgtcblk := ftgttab[i][0];
    next := localindex;
    for j := d.s.cblktab[i].bloknum to d.s.cblktab[i + 1].bloknum
      invariant next == localindex + BlokNbr(d.s, i, ftgtcblk, j - d.s.First(i))
      invariant forall k :: 0 <= k < bloklocalnum.Length && !(d.s.First(i) <= k < j) ==>
        bloklocalnum[k] == old(bloklocalnum[k])
      invariant BloksNumbered(d, ftgttab[..], bloklocalnum[..], i, j)
    {
      if Kept(d.s, j, ftgtcblk.bloktab[j - d.s.cblktab[i].bloknum]) {
        bloklocalnum[j] := next;
        next := next + 1;
      } else {
        bloklocalnum[j] := -1;
      }
    }
  }

  lemma RegisteredOwned(d: Dist, f: seq<seq<RecvCblk>>, g: seq<seq<RecvCblk>>, i: int)
    requires Registered(d, f, i) && i < |f| == |g| && d.owner[i] == d.clustnum
    requires forall k :: 0 <= k < |f| && k != i && (d.owner[k] == d.clustnum || k < i) ==> g[k] == f[k]
    requires RecvsOf(d.s, i, d.owner, Remote(d.s, d.owner, d.clustnum, i), g[i])
    requires FaninsUpTo(d.s, d.owner, d.clustnum, d.s.End(i), g)
    ensures Registered(d, g, i + 1)
  {
    hide FaninsUpTo, RecvsOf, Remote;
  }

  /** Blocks of another process's column block send nothing of ours. */
  lemma RegisteredOther(d: Dist, f: seq<seq<RecvCblk>>, i: int)
    requires Registered(d, f, i) && i < |f| && d.owner[i] != d.clustnum
    ensures Registered(d, f, i + 1)
  {
    hide FaninOf, RecvsOf, Remote;
    assert d.s.Bounded(i);
    forall k | 0 <= k < |f| && d.owner[k] != d.clustnum
      ensures Sent(d.s, d.owner, d.clustnum, k, d.s.First(i + 1)) == Sent(d.s, d.owner, d.clustnum, k, d.s.First(i))
    {
      SentSkips(d, k, i);
    }
  }

  lemma SentSkips(d: Dist, k: int, i: int)
    requires 0 <= i < d.s.CblkNbr() && d.owner[i] != d.clustnum
    ensures Sent(d.s, d.owner, d.clustnum, k, d.s.First(i + 1)) == Sent(d.s, d.owner, d.clustnum, k, d.s.First(i))
  {
    forall b | 0 <= b < |d.s.bloktab| && d.s.First(i) <= b < d.s.First(i + 1)
      ensures BlokOwner(d.s, d.owner, b) != d.clustnum
    {
      OwnBlok(d.s, d.owner, i, b);
    }
    assert d.s.Bounded(i);
  }

  /** A fan-in is complete before its column block is reached. */
  lemma FaninComplete(d: Dist, f: seq<seq<RecvCblk>>, i: int)
    requires Registered(d, f, i) && i < |f| && d.owner[i] != d.clustnum
    ensures FaninOf(d.s, i, d.owner[i], Sent(d.s, d.owner, d.clustnum, i, |d.s.bloktab|), f[i])
  {
    hide FaninOf;
    assert d.s.Bounded(i);
    forall b | 0 <= b < |d.s.bloktab| && d.s.bloktab[b].fcblknm == i != d.s.bloktab[b].lcblknm
      ensures b < d.s.First(i)
    {
      assert d.s.BlokPlaced(b);
      FirstOrder(d.s, d.s.bloktab[b].lcblknm, i);
    }
    assert Sent(d.s, d.owner, d.clustnum, i, |d.s.bloktab|) == Sent(d.s, d.owner, d.clustnum, i, d.s.First(i));
  }

  lemma {:induction false} FirstOrder(s: Symb, a: int, i: int)
    requires 0 <= a < i < s.CblkNbr()
    ensures s.End(a) <= s.First(i)
    decreases i
  {
    if a < i - 1 {
      FirstOrder(s, a, i - 1);
      assert s.Bounded(i - 1);
    }
  }

  /** Writing the numbers of column block `i` keeps those below. */
  lemma NumberedKept(d: Dist, f: seq<seq<RecvCblk>>, g: seq<seq<RecvCblk>>, cblks: seq<int>, cblks': seq<int>,
                     bloks: seq<int>, bloks': seq<int>, i: int)
    requires Numbered(d, f, cblks, bloks, i) && i < |f| == |g| == |cblks'| && |bloks'| == |bloks|
    requires forall k :: 0 <= k < i ==> g[k] == f[k] && cblks'[k] == cblks[k]
    requires forall j :: 0 <= j < |bloks| && !(d.s.First(i) <= j < d.s.End(i)) ==> bloks'[j] == bloks[j]
    requires CblkNumbered(d, g, cblks', bloks', i)
    ensures Numbered(d, g, cblks', bloks', i + 1)
  {
    hide Kept, BlokNbr, Totals, RecvBloks;
    forall k | 0 <= k < i
      ensures CblkNumbered(d, g, cblks', bloks', k)
    {
      assert CblkNumbered(d, f, cblks, bloks, k);
      TotalsKept(d, f, g, k);
      FirstOrder(d.s, k, i);
      assert d.s.Bounded(k);
      forall j | d.s.First(k) <= j < d.s.End(k) && Stored(d, f, k)
        ensures bloks'[j] == BlokNum(d, g, k, j)
      {
        assert bloks[j] == BlokNum(d, f, k, j);
      }
    }
  }

  method CountLocal(d: Dist, i: int) returns (brownbr: int)
    requires 0 <= i < d.s.CblkNbr()
    ensures brownbr == LocalBrow(d, i)
  {
    hide BlokOwner;
    var l := d.browtab[i];
    assert BrowListOK(d.s, l, i);
    ListIsBloks(d.s, l, i);
    brownbr := |l|;
    for j := 0 to |l|
      invariant brownbr - (|l| - j) == LocalNbr(d.s, d.owner, d.clustnum, l, j)
    {
      var c := BlokOwner(d.s, d.owner, l[j]);
      if c != d.clustnum {
        brownbr := brownbr - 1;
      }
    }
  }

  /** An owned column block: receive, count, number, send. */
  method FillOwned(d: Dist, cblklocalnum: array<int>, bloklocalnum: array<int>, ftgttab: array<seq<RecvCblk>>, i: int,
          n: Counts)
      returns (next: Counts)
    requires 0 <= i < d.s.CblkNbr() == ftgttab.Length == cblklocalnum.Length && bloklocalnum.Length == |d.s.bloktab|
    requires cblklocalnum != bloklocalnum && d.owner[i] == d.clustnum
    requires Registered(d, ftgttab[..], i) && Numbered(d, ftgttab[..], cblklocalnum[..], bloklocalnum[..], i)
    requires n == Totals(d, ftgttab[..], i)
    modifies cblklocalnum, bloklocalnum, ftgttab
    ensures Registered(d, ftgttab[..], i + 1) && Numbered(d, ftgttab[..], cblklocalnum[..], bloklocalnum[..], i + 1)
    ensures next == Totals(d, ftgttab[..], i + 1) && next.brow <= n.brow + |d.browtab[i]|
  {
    hide FaninsUpTo, RecvBloks, RecvsOf, Remote, BlokNbr, BloksNumbered, LocalNbr;
    ghost var f := ftgttab[..];
    ghost var cblks, bloks := cblklocalnum[..], bloklocalnum[..];
    assert BrowListOK(d.s, d.browtab[i], i);
    var brownbr := RegisterRecvs(d.s, ftgttab, d.browtab[i], i, d.owner, d.clustnum);
    ghost var g := ftgttab[..];
    FaninsKept(d, f, g, i);
    TotalsKept(d, f, g, i);
    var recvblok := CountRecvs(d, i, ftgttab[i]);
    var recvs := |ftgttab[i]|;
    var localindex := NumberOwned(d, ftgttab, bloklocalnum, i, n.blok + recvblok);
    cblklocalnum[i] := n.cblk + recvs;
    next := Counts(n.cblk + recvs + 1, localindex, n.brow + brownbr + recvs, n.recv + recvs, n.fanin);
    TotalsKept(d, f, ftgttab[..], i);
    RegisteredOwned(d, f, ftgttab[..], i);
    NumberedKept(d, f, ftgttab[..], cblks, cblklocalnum[..], bloks, bloklocalnum[..], i);
  }

  lemma FaninsKept(d: Dist, f: seq<seq<RecvCblk>>, g: seq<seq<RecvCblk>>, i: int)
    requires Registered(d, f, i) && i < |f| == |g| && d.owner[i] == d.clustnum
    requires forall k :: 0 <= k < |f| && k != i ==> g[k] == f[k]
    ensures FaninsUpTo(d.s, d.owner, d.clustnum, d.s.First(i), g)
  {
    hide FaninOf;
  }

  /** A fan-in: number the blocks it keeps. */
  method FillFanin(d: Dist, cblklocalnum: array<int>, bloklocalnum: array<int>, ftgttab: array<seq<RecvCblk>>, i: int,
          n: Counts)
      returns (next: Counts)
    requires 0 <= i < d.s.CblkNbr() == ftgttab.Length == cblklocalnum.Length && bloklocalnum.Length == |d.s.bloktab|
    requires cblklocalnum != bloklocalnum && d.owner[i] != d.clustnum && ftgttab[i] != []
    requires Registered(d, ftgttab[..], i) && Numbered(d, ftgttab[..], cblklocalnum[..], bloklocalnum[..], i)
    requires n == Totals(d, ftgttab[..], i)
    modifies cblklocalnum, bloklocalnum
    ensures Registered(d, ftgttab[..], i + 1) && Numbered(d, ftgttab[..], cblklocalnum[..], bloklocalnum[..], i + 1)
    ensures next == Totals(d, ftgttab[..], i + 1) && next.brow <= n.brow + |d.browtab[i]|
  {
    hide FaninsUpTo, RecvBloks, RecvsOf, Remote, Sent, BlokNbr, BloksNumbered, LocalNbr, Hull, Touching;
    ghost var cblks, bloks := cblklocalnum[..], bloklocalnum[..];
    FaninComplete(d, ftgttab[..], i);
    assert |ftgttab[i]| == 1 && ftgttab[i][0].ownerid == d.owner[i];
    var brownbr := CountLocal(d, i);
    var localindex := NumberFanin(d, ftgttab, bloklocalnum, i, n.blok);
    cblklocalnum[i] := n.cblk;
    next := Counts(n.cblk + 1, localindex, n.brow + brownbr, n.recv, n.fanin + 1);
    RegisteredOther(d, ftgttab[..], i);
    NumberedKept(d, ftgttab[..], ftgttab[..], cblks, cblklocalnum[..], bloks, bloklocalnum[..], i);
  }

  /** A column block that is neither owned nor updated from here. */
  method SkipAbsent(d: Dist, cblklocalnum: array<int>, bloklocalnum: array<int>, ftgttab: array<seq<RecvCblk>>, i: int,
          ghost n: Counts)
    requires 0 <= i < d.s.CblkNbr() == ftgttab.Length == cblklocalnum.Length && bloklocalnum.Length == |d.s.bloktab|
    requires cblklocalnum != bloklocalnum && d.owner[i] != d.clustnum && ftgttab[i] == []
    requires Registered(d, ftgttab[..], i) && Numbered(d, ftgttab[..], cblklocalnum[..], bloklocalnum[..], i)
    requires n == Totals(d, ftgttab[..], i)
    modifies cblklocalnum
    ensures Registered(d, ftgttab[..], i + 1) && Numbered(d, ftgttab[..], cblklocalnum[..], bloklocalnum[..], i + 1)
    ensures n == Totals(d, ftgttab[..], i + 1)
  {
    hide FaninsUpTo, RecvBloks, RecvsOf, Remote, Sent, BlokNbr, BloksNumbered;
    ghost var cblks := cblklocalnum[..];
    cblklocalnum[i] := -i - 1;
    RegisteredOther(d, ftgttab[..], i);
    NumberedKept(d, ftgttab[..], ftgttab[..], cblks, cblklocalnum[..], bloklocalnum[..], bloklocalnum[..], i);
  }

  ghost function BrowBefore(browtab: seq<seq<int>>, i: int): int
    requires 0 <= i <= |browtab|
  {
    if i == 0 then 0 else BrowBefore(browtab, i - 1) + |browtab[i - 1]|
  }

  /** Number the column blocks and blocks that process `clustnum` stores, and build the
      structures of what it receives and sends. */
  method FillLocalnums(d: Dist, cblklocalnum: array<int>, bloklocalnum: array<int>, ftgttab: array<seq<RecvCblk>>)
      returns (n: Counts)
    requires d.s.CblkNbr() == ftgttab.Length == cblklocalnum.Length && bloklocalnum.Length == |d.s.bloktab|
    requires cblklocalnum != bloklocalnum && forall k :: 0 <= k < ftgttab.Length ==> ftgttab[k] == []
    modifies cblklocalnum, bloklocalnum, ftgttab
    ensures Registered(d, ftgttab[..], d.s.CblkNbr())
    ensures Numbered(d, ftgttab[..], cblklocalnum[..], bloklocalnum[..], d.s.CblkNbr())
    ensures n == Totals(d, ftgttab[..], d.s.CblkNbr())
  {
    hide Registered, Numbered, Totals;
    n := Counts(0, 0, 0, 0, 0);
    NothingSent(d, ftgttab[..], cblklocalnum[..], bloklocalnum[..]);
    for i := 0 to d.s.CblkNbr()
      invariant Registered(d, ftgttab[..], i)
      invariant Numbered(d, ftgttab[..], cblklocalnum[..], bloklocalnum[..], i)
      invariant n == Totals(d, ftgttab[..], i) && n.brow <= BrowBefore(d.browtab, i)
    {
      if d.owner[i] == d.clustnum {
        n := FillOwned(d, cblklocalnum, bloklocalnum, ftgttab, i, n);
      } else if ftgttab[i] == [] {
        SkipAbsent(d, cblklocalnum, bloklocalnum, ftgttab, i, n);
      } else {
        n := FillFanin(d, cblklocalnum, bloklocalnum, ftgttab, i, n);
      }
      assert n.brow <= BrowBefore(d.browtab, i + 1);
    }
  }

  lemma NothingSent(d: Dist, f: seq<seq<RecvCblk>>, cblknum: seq<int>, bloknum: seq<int>)
    requires |f| == |cblknum| == d.s.CblkNbr() && |bloknum| == |d.s.bloktab| && forall k :: 0 <= k < |f| ==> f[k] == []
    ensures Registered(d, f, 0) && Numbered(d, f, cblknum, bloknum, 0) && Totals(d, f, 0) == Counts(0, 0, 0, 0, 0)
  {
    forall k | 0 <= k < |f| && d.owner[k] != d.clustnum
      ensures FaninOf(d.s, k, d.owner[k], Sent(d.s, d.owner, d.clustnum, k, 0), f[k])
    {
      assert Sent(d.s, d.owner, d.clustnum, k, 0) == {};
    }
  }

  /** What two processes build apart agrees: for a column block that `there` owns, the
      fan-in of `here` is the reception of `there` tagged with it, or both are missing. */
  lemma ProcessesAgree(here: Dist, there: Dist, f: seq<seq<RecvCblk>>, g: seq<seq<RecvCblk>>, i: int, e: int)
    requires here.s == there.s && here.owner == there.owner && 0 <= i < here.s.CblkNbr()
    requires here.owner[i] == there.clustnum != here.clustnum
    requires Registered(here, f, here.s.CblkNbr()) && Registered(there, g, there.s.CblkNbr())
    ensures Tagged(g[i], here.clustnum) <==> f[i] != []
    ensures 0 <= e < |g[i]| && g[i][e].ownerid == here.clustnum ==>
      f[i] == [g[i][e].(ownerid := there.clustnum)] && BlokNbrOf(here.s, i, f[i][0]) == BlokNbrOf(there.s, i, g[i][e])
  {
    hide FaninOf, RecvsOf, Sent, Remote, BlokNbr;
    assert FaninOf(here.s, i, here.owner[i], Sent(here.s, here.owner, here.clustnum, i, |here.s.bloktab|), f[i]);
    SenderReceiverAgree(here.s, here.owner, i, here.clustnum, f[i], g[i], e);
    if && 0 <= e < |g[i]| && g[i][e].ownerid == here.clustnum
       && here.s.Bounded(i) && |g[i][e].bloktab| == here.s.End(i) - here.s.First(i)
    {
      BlokNbrSame(here.s, i, f[i][0], g[i][e], |f[i][0].bloktab|);
    }
  }
}
