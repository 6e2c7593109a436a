/** The blocks that face each column block, listed as the rows of a compressed table. */
module Rowtab {
  import opened Symbol
  import opened SolverLocal

  /** Block `j` is off-diagonal. */
  predicate Off(s: SymbolMatrix, j: int)
    requires 0 <= j < |s.bloktab|
  {
    s.bloktab[j].fcblknm != s.bloktab[j].lcblknm
  }

  /** Off-diagonal blocks below `m` that face `i`, in order. */
  ghost function Facing(s: SymbolMatrix, i: int, m: int): seq<int>
    requires 0 <= m <= |s.bloktab|
  {
    if m == 0 then [] else
    Facing(s, i, m - 1) + (if Off(s, m - 1) && s.bloktab[m - 1].fcblknm == i then [m - 1] else [])
  }

  lemma {:induction false} FacingMembers(s: SymbolMatrix, i: int, m: int)
    requires 0 <= m <= |s.bloktab|
    ensures forall x :: 0 <= x < |Facing(s, i, m)| ==> 0 <= Facing(s, i, m)[x] < m && Faces(s, Facing(s, i, m)[x], i)
    ensures forall x, y :: 0 <= x < y < |Facing(s, i, m)| ==> Facing(s, i, m)[x] < Facing(s, i, m)[y]
    ensures forall j :: 0 <= j < m && Faces(s, j, i) ==> j in Facing(s, i, m)
  {
    if m > 0 {
      FacingMembers(s, i, m - 1);
    }
  }

  lemma {:induction false} FacingGrows(s: SymbolMatrix, i: int, m: int, n: int)
    requires 0 <= m <= n <= |s.bloktab|
    ensures Facing(s, i, m) <= Facing(s, i, n)
    decreases n
  {
    if m < n {
      FacingGrows(s, i, m, n - 1);
    }
  }

  /** Places taken by the column blocks below `i`. */
  ghost function Start(s: SymbolMatrix, i: int): (r: int)
    requires 0 <= i
    ensures r >= 0
  {
    if i == 0 then 0 else Start(s, i - 1) + |Facing(s, i - 1, |s.bloktab|)|
  }

  lemma {:induction false} StartGrows(s: SymbolMatrix, i: int, k: int)
    requires 0 <= i < k
    ensures Start(s, i) + |Facing(s, i, |s.bloktab|)| <= Start(s, k)
    decreases k
  {
    if i < k - 1 {
      StartGrows(s, i, k - 1);
    }
  }

  /** Off-diagonal blocks among the first `m`. */
  ghost function OffNbr(s: SymbolMatrix, m: int): (c: int)
    requires 0 <= m <= |s.bloktab|
    ensures c >= 0
  {
    if m == 0 then 0 else OffNbr(s, m - 1) + (if Off(s, m - 1) then 1 else 0)
  }

  /** Counted by faced column block, the first `m` blocks are counted once. */
  ghost function CountedBelow(s: SymbolMatrix, i: int, m: int): int
    requires 0 <= i && 0 <= m <= |s.bloktab|
  {
    if i == 0 then 0 else CountedBelow(s, i - 1, m) + |Facing(s, i - 1, m)|
  }

  lemma {:induction false} CountedNone(s: SymbolMatrix, i: int)
    requires 0 <= i
    ensures CountedBelow(s, i, 0) == 0
  {
    if i > 0 {
      CountedNone(s, i - 1);
    }
  }

  lemma {:induction false} CountedOne(s: SymbolMatrix, i: int, m: int)
    requires 0 <= i && 0 <= m < |s.bloktab|
    ensures CountedBelow(s, i, m + 1)
         == CountedBelow(s, i, m) + if Off(s, m) && 0 <= s.bloktab[m].fcblknm < i then 1 else 0
  {
    if i > 0 {
      CountedOne(s, i - 1, m);
    }
  }

  lemma {:induction false} CountedAll(s: Symb, m: int)
    requires 0 <= m <= |s.bloktab|
    ensures CountedBelow(s, s.CblkNbr(), m) == OffNbr(s, m)
  {
    hide CountedBelow;
    if m == 0 {
      CountedNone(s, s.CblkNbr());
    } else {
      CountedAll(s, m - 1);
      CountedOne(s, s.CblkNbr(), m - 1);
      assert s.BlokPlaced(m - 1);
    }
  }

  lemma {:induction false} StartIsCounted(s: SymbolMatrix, i: int)
    requires 0 <= i
    ensures Start(s, i) == CountedBelow(s, i, |s.bloktab|)
  {
    if i > 0 {
      StartIsCounted(s, i - 1);
    }
  }

  /** Each column block has one diagonal block. */
  lemma {:induction false} OffOfCblks(s: Symb, i: int)
    requires 0 <= i <= s.CblkNbr()
    ensures 0 <= s.First(i) <= |s.bloktab| && OffNbr(s, s.First(i)) == s.First(i) - i
  {
    if i > 0 {
      OffOfCblks(s, i - 1);
      assert s.Bounded(i - 1);
      assert s.BlokPlaced(s.First(i - 1));
      OffOfCblk(s, i - 1, s.First(i));
    }
  }

  lemma {:induction false} OffOfCblk(s: Symb, i: int, m: int)
    requires s.Bounded(i) && s.First(i) < m <= s.End(i)
    ensures OffNbr(s, m) == OffNbr(s, s.First(i)) + m - s.First(i) - 1
    decreases m
  {
    assert s.BlokPlaced(m - 1);
    assert s.bloktab[m - 1].lcblknm == i;
    if m - 1 > s.First(i) {
      OffOfCblk(s, i, m - 1);
    } else {
      assert OffNbr(s, m) == OffNbr(s, s.First(i));
    }
  }

  /** All off-diagonal blocks have a place. */
  lemma StartEnds(s: Symb)
    ensures Start(s, s.CblkNbr()) == |s.bloktab| - s.CblkNbr()
  {
    StartIsCounted(s, s.CblkNbr());
    CountedAll(s, |s.bloktab|);
    OffOfCblks(s, s.CblkNbr());
  }

  lemma PlaceFits(s: Symb, j: int)
    requires 0 <= j < |s.bloktab| && Off(s, j)
    ensures var i := s.bloktab[j].fcblknm;
      0 <= i < s.CblkNbr() && Start(s, i) + |Facing(s, i, j)| < Start(s, i + 1) <= |s.bloktab| - s.CblkNbr()
  {
    hide Start, Facing;
    assert s.BlokPlaced(j);
    var i := s.bloktab[j].fcblknm;
    FacingGrows(s, i, j + 1, |s.bloktab|);
    FacingStep(s, i, j);
    StartGrows(s, i, i + 1);
    StartEnds(s);
    if i + 1 < s.CblkNbr() {
      StartGrows(s, i + 1, s.CblkNbr());
    }
  }

  lemma FacingStep(s: SymbolMatrix, i: int, j: int)
    requires 0 <= j < |s.bloktab|
    ensures Facing(s, i, j + 1) == Facing(s, i, j) + if Off(s, j) && s.bloktab[j].fcblknm == i then [j] else []
  {
  }

  /** Place of off-diagonal block `j`. */
  ghost function Place(s: Symb, j: int): (p: int)
    requires 0 <= j < |s.bloktab| && Off(s, j)
    ensures 0 <= p < |s.bloktab| - s.CblkNbr()
  {
    PlaceFits(s, j);
    Start(s, s.bloktab[j].fcblknm) + |Facing(s, s.bloktab[j].fcblknm, j)|
  }

  lemma PlacesApart(s: Symb, j: int, k: int)
    requires 0 <= j < k < |s.bloktab| && Off(s, j) && Off(s, k)
    ensures Place(s, j) != Place(s, k)
  {
    hide Start, Facing;
    PlaceFits(s, j);
    PlaceFits(s, k);
    var a, b := s.bloktab[j].fcblknm, s.bloktab[k].fcblknm;
    FacingGrows(s, a, j, |s.bloktab|);
    FacingGrows(s, b, k, |s.bloktab|);
    FacingStep(s, a, j);
    FacingStep(s, b, k);
    FacingGrows(s, a, j + 1, |s.bloktab|);
    FacingGrows(s, b, k + 1, |s.bloktab|);
    if a == b {
      FacingGrows(s, a, j + 1, k);
    } else if a < b {
      StartGrows(s, a, b);
    } else {
      StartGrows(s, b, a);
    }
  }

  /** Blocks below `m` stand at their places. */
  ghost predicate Filled(s: Symb, browtab: seq<int>, m: int)
    requires 0 <= m <= |s.bloktab|
  {
    |browtab| == |s.bloktab| - s.CblkNbr() && forall j :: 0 <= j < m && Off(s, j) ==> browtab[Place(s, j)] == j
  }

  /** The slice of a filled table lists what faces the column block, in order. */
  lemma {:induction false} SliceIsFacing(s: Symb, browtab: seq<int>, i: int, m: int)
    requires Filled(s, browtab, |s.bloktab|) && 0 <= i < s.CblkNbr() && 0 <= m <= |s.bloktab|
    ensures Start(s, i) + |Facing(s, i, m)| <= |browtab|
    ensures browtab[Start(s, i)..Start(s, i) + |Facing(s, i, m)|] == Facing(s, i, m)
  {
    if m == 0 {
      StartEnds(s);
      StartGrows(s, i, s.CblkNbr());
    } else {
      SliceIsFacing(s, browtab, i, m - 1);
      if Off(s, m - 1) && s.bloktab[m - 1].fcblknm == i {
        var p := Place(s, m - 1);
        assert browtab[Start(s, i)..p + 1] == browtab[Start(s, i)..p] + [browtab[p]];
      }
    }
  }

  /** Every counter `i` is ahead of its start by the blocks below `m` that face it. */
  ghost predicate Ahead(s: SymbolMatrix, innbr: seq<int>, from: int --> int, m: int)
    requires 0 <= m <= |s.bloktab| && forall i :: 0 <= i ==> from.requires(i)
  {
    forall i :: 0 <= i < |innbr| ==> innbr[i] == from(i) + |Facing(s, i, m)|
  }

  /** Diagonal blocks are passed over. */
  lemma SkipDiagonal(s: Symb, k: int)
    requires 0 <= k < s.CblkNbr()
    ensures s.Bounded(k) && !Off(s, s.First(k))
    ensures forall i :: Facing(s, i, s.First(k) + 1) == Facing(s, i, s.First(k))
    ensures forall j :: s.First(k) < j < s.End(k) ==> Off(s, j) && 0 <= s.bloktab[j].fcblknm < s.CblkNbr()
  {
    hide Facing;
    assert s.Bounded(k);
    assert s.BlokPlaced(s.First(k));
    forall i
      ensures Facing(s, i, s.First(k) + 1) == Facing(s, i, s.First(k))
    {
      FacingStep(s, i, s.First(k));
    }
    forall j | s.First(k) < j < s.End(k)
      ensures Off(s, j) && 0 <= s.bloktab[j].fcblknm < s.CblkNbr()
    {
      assert s.BlokPlaced(j);
      assert s.bloktab[j].lcblknm == k;
    }
  }

  lemma AllFacingStep(s: SymbolMatrix, j: int)
    requires 0 <= j < |s.bloktab|
    ensures forall i ::
      Facing(s, i, j + 1) == Facing(s, i, j) + if Off(s, j) && s.bloktab[j].fcblknm == i then [j] else []
  {
  }

  /** Count the blocks that face each column block. */
  method CountFacing(s: Symb, innbr: array<int>)
    requires innbr.Length == s.CblkNbr() && forall i :: 0 <= i < innbr.Length ==> innbr[i] == 0
    modifies innbr
    ensures forall i :: 0 <= i < innbr.Length ==> innbr[i] == |Facing(s, i, |s.bloktab|)|
  {
    hide Facing;
    NothingFaces(s);
    for k := 0 to s.CblkNbr()
      invariant 0 <= s.First(k) <= |s.bloktab| && Ahead(s, innbr[..], _ => 0, s.First(k))
    {
      SkipDiagonal(s, k);
      for j := s.cblktab[k].bloknum + 1 to s.cblktab[k + 1].bloknum
        invariant Ahead(s, innbr[..], _ => 0, j)
      {
        AllFacingStep(s, j);
        var f := s.bloktab[j].fcblknm;
        innbr[f] := innbr[f] + 1;
      }
    }
  }

  lemma NothingFaces(s: SymbolMatrix)
    ensures forall i :: Facing(s, i, 0) == []
  {
  }

  /** Write each off-diagonal block at the cursor of the column block it faces. */
  method FillRows(s: Symb, innbr: array<int>, browtab: array<int>)
    requires innbr.Length == s.CblkNbr() && forall i :: 0 <= i < innbr.Length ==> innbr[i] == Start(s, i)
    requires browtab.Length == |s.bloktab| - s.CblkNbr() && browtab != innbr
    modifies innbr, browtab
    ensures Filled(s, browtab[..], |s.bloktab|)
  {
    hide Facing, Start;
    NothingFaces(s);
    for k := 0 to s.CblkNbr()
      invariant 0 <= s.First(k) <= |s.bloktab| && Filled(s, browtab[..], s.First(k))
      invariant Ahead(s, innbr[..], i requires i >= 0 => Start(s, i), s.First(k))
    {
      SkipDiagonal(s, k);
      for j := s.cblktab[k].bloknum + 1 to s.cblktab[k + 1].bloknum
        invariant Filled(s, browtab[..], j)
        invariant Ahead(s, innbr[..], i requires i >= 0 => Start(s, i), j)
      {
        AllFacingStep(s, j);
        forall i | 0 <= i < j && Off(s, i)
          ensures Place(s, i) != Place(s, j)
        {
          PlacesApart(s, i, j);
        }
        var f := s.bloktab[j].fcblknm;
        assert innbr[f] == Place(s, j);
        browtab[innbr[f]] := j;
        innbr[f] := innbr[f] + 1;
      }
    }
  }

  lemma StartZero(s: SymbolMatrix)
    ensures Start(s, 0) == 0
  {
  }

  lemma StartStep(s: SymbolMatrix, i: int)
    requires 0 <= i
    ensures Start(s, i + 1) == Start(s, i) + |Facing(s, i, |s.bloktab|)|
  {
  }

  /** Turn the counts into the starts of the column blocks, kept as cursors as well. */
  method SetStarts(s: Symb, innbr: array<int>, brownum: array<int>) returns (browmax: int)
    requires innbr.Length == s.CblkNbr() && brownum.Length == s.CblkNbr() + 1 && innbr != brownum
    requires forall i :: 0 <= i < innbr.Length ==> innbr[i] == |Facing(s, i, |s.bloktab|)|
    modifies innbr, brownum
    ensures forall i :: 0 <= i <= s.CblkNbr() ==> brownum[i] == Start(s, i)
    ensures forall i :: 0 <= i < s.CblkNbr() ==> innbr[i] == Start(s, i) && |Facing(s, i, |s.bloktab|)| <= browmax
  {
    hide Facing, Start;
    browmax := 0;
    brownum[0] := 0;
    StartZero(s);
    for i := 0 to s.CblkNbr()
      invariant forall k :: 0 <= k <= i ==> brownum[k] == Start(s, k)
      invariant forall k :: 0 <= k < i ==> innbr[k] == Start(s, k) && |Facing(s, k, |s.bloktab|)| <= browmax
      invariant forall k :: i <= k < innbr.Length ==> innbr[k] == |Facing(s, k, |s.bloktab|)|
    {
      StartStep(s, i);
      browmax := if innbr[i] > browmax then innbr[i] else browmax;
      brownum[i + 1] := brownum[i] + innbr[i];
      innbr[i] := brownum[i];
    }
  }

  /** Build the rows of the symbol: the start of each column block, the blocks that face
      it, and the largest number of them. */
  method BuildRowtab(s: Symb) returns (brownum: array<int>, browtab: array<int>, browmax: int)
    ensures brownum.Length == s.CblkNbr() + 1 && forall i :: 0 <= i <= s.CblkNbr() ==> brownum[i] == Start(s, i)
    ensures Filled(s, browtab[..], |s.bloktab|)
    ensures forall i :: 0 <= i < s.CblkNbr() ==> |Facing(s, i, |s.bloktab|)| <= browmax
  {
    hide Facing, Start, Filled;
    var innbr := new int[s.CblkNbr()](_ => 0);
    CountFacing(s, innbr);
    brownum := new int[s.CblkNbr() + 1](_ => 0);
    browmax := SetStarts(s, innbr, brownum);
    var edgenbr := |s.bloktab| - s.CblkNbr();
    StartEnds(s);
    assert brownum[s.CblkNbr()] == edgenbr;
    browtab := new int[edgenbr](_ => 0);
    FillRows(s, innbr, browtab);
  }

  /** The rows of the symbol, one list for each column block. */
  method BuildRows(s: Symb) returns (rows: seq<seq<int>>)
    ensures BrowOK(s, rows)
    ensures forall i :: 0 <= i < |rows| ==> rows[i] == Facing(s, i, |s.bloktab|)
  {
    hide Facing, Filled, Start, BrowListOK;
    var brownum, browtab, browmax := BuildRowtab(s);
    var start, tab := brownum[..], browtab[..];
    rows := [];
    for i := 0 to s.CblkNbr()
      invariant |rows| == i && forall k :: 0 <= k < i ==>
        rows[k] == Facing(s, k, |s.bloktab|) && BrowListOK(s, rows[k], k)
    {
      SliceIsFacing(s, tab, i, |s.bloktab|);
      ListIsFacing(s, i);
      StartStep(s, i);
      rows := rows + [tab[start[i]..start[i + 1]]];
    }
  }

  lemma ListIsFacing(s: SymbolMatrix, i: int)
    ensures BrowListOK(s, Facing(s, i, |s.bloktab|), i)
  {
    hide Facing;
    FacingMembers(s, i, |s.bloktab|);
  }
}
