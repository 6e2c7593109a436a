/** Building the compressed blocks: start tables from the counted sizes, values written
    with the starts as cursors, starts restored by a shift. */
module BcscInit {
  import opened BcscFill
  import opened Bcsc

  /** Size of each of the first `m` columns. */
  ghost function Sizes(p: Valued, m: nat): (s: seq<int>)
    ensures |s| == m && forall c :: 0 <= c < m ==> s[c] == NodeCount(p, c / p.spm.dof, p.spm.n)
  {
    if m == 0 then [] else Sizes(p, m - 1) + [NodeCount(p, (m - 1) / p.spm.dof, p.spm.n)]
  }

  lemma NodeOfColumn(dof: int, c: int)
    requires dof > 0
    ensures InNode(dof, c / dof, c)
  {
  }

  lemma SizesArePicks(p: Valued, m: nat)
    ensures forall c :: 0 <= c < m ==> Sizes(p, m)[c] == |Pick(Written(p, p.spm.n), c)|
  {
    forall c | 0 <= c < m
      ensures Sizes(p, m)[c] == |Pick(Written(p, p.spm.n), c)|
    {
      NodeOfColumn(p.spm.dof, c);
      SizeIsWritten(p, c / p.spm.dof, c);
    }
  }

  /** A matrix and the local blocks of its expanded columns: a node is never cut. */
  datatype Job = Job(p: Problem, l: Layout)

  ghost predicate Whole(j: Job, i: int)
    requires j.p.Valid() && |j.l.col2cblk| == j.p.spm.n * j.p.spm.dof
  {
    forall c :: 0 <= c < |j.l.col2cblk| && InNode(j.p.spm.dof, i, c) ==>
      0 <= i * j.p.spm.dof < |j.l.col2cblk| && j.l.col2cblk[c] == j.l.col2cblk[i * j.p.spm.dof]
  }

  type BlockJob = j: Job | j.p.Valid() && LayoutOK(j.l) && |j.l.col2cblk| == j.p.spm.n * j.p.spm.dof
      && (forall i :: 0 <= i < j.p.spm.n ==> Whole(j, i))
    witness Job(Problem(Spm(0, 1, 0, General, [0], [], []), []), Layout([], []))

  ghost function Size(j: BlockJob): (s: seq<int>)
    ensures SizesOK(j.l, s) && forall c :: 0 <= c < |s| ==> s[c] == |Pick(Written(j.p, j.p.spm.n), c)|
  {
    SizesArePicks(j.p, j.p.spm.n * j.p.spm.dof);
    Sizes(j.p, j.p.spm.n * j.p.spm.dof)
  }

  // ----- start tables -----

  /** Each entry of the table is the start of its column, the last one the end of the block. */
  ghost predicate BlockStarted(l: Layout, size: seq<int>, coltab: seq<int>, b: int)
    requires LayoutOK(l) && |size| == |l.col2cblk| && 0 <= b < |l.cblks|
  {
    assert BlkOK(l, b);
    && |coltab| == l.cblks[b].lcolnum - l.cblks[b].fcolnum + 2
    && (forall i :: 0 <= i < |coltab| ==> coltab[i] == Start(l, size, l.cblks[b].fcolnum + i))
  }

  lemma StartNext(l: Layout, size: seq<int>, c: int)
    requires |size| == |l.col2cblk| && IsLocal(l, c)
    ensures Start(l, size, c + 1) == Start(l, size, c) + size[c]
  {
  }

  /** The sizes are right for the nodes whose columns are local. */
  ghost predicate CountsOK(j: BlockJob, globcol: seq<int>) {
    |globcol| == j.p.spm.n && forall c :: 0 <= c < |j.l.col2cblk| && IsLocal(j.l, c) ==> CountOK(j, globcol, c)
  }

  ghost predicate CountOK(j: BlockJob, globcol: seq<int>, c: int)
    requires |globcol| == j.p.spm.n && 0 <= c < |j.l.col2cblk|
  {
    && j.p.spm.dof > 0 && 0 <= c / j.p.spm.dof < |globcol|
    && globcol[c / j.p.spm.dof] == NodeCount(j.p, c / j.p.spm.dof, j.p.spm.n)
  }

  /** Size of a local column, read from the counts of its node. */
  method ColSize(j: BlockJob, globcol: array<int>, c: int) returns (colsize: int)
    requires CountsOK(j, globcol[..]) && 0 <= c < |j.l.col2cblk| && IsLocal(j.l, c)
    ensures colsize == Size(j)[c]
  {
    hide Size, NodeCount, Whole, Problem.Valid, IsLocal;
    SizeAt(j, c);
    assert CountOK(j, globcol[..], c);
    var nodeidx := c / j.p.spm.dof;
    colsize := globcol[nodeidx];
  }

  /** Starts of the columns of one block, from the end of the one before. */
  method BlockStarts(j: BlockJob, globcol: array<int>, b: int, idxcol: int) returns (coltab: seq<int>)
    requires 0 <= b < |j.l.cblks| && CountsOK(j, globcol[..])
    requires BlkOK(j.l, b) && idxcol == Start(j.l, Size(j), j.l.cblks[b].fcolnum)
    ensures BlockStarted(j.l, Size(j), coltab, b)
  {
    hide Start, Size, NodeCount, Whole, Problem.Valid, CountsOK, InNode;
    var cblk := j.l.cblks[b];
    var colnbr := cblk.lcolnum - cblk.fcolnum + 1;
    coltab := [idxcol];
    for iter := 0 to colnbr
      invariant |coltab| == iter + 1
      invariant forall i :: 0 <= i <= iter ==> coltab[i] == Start(j.l, Size(j), cblk.fcolnum + i)
    {
      var c := cblk.fcolnum + iter;
      var colsize := ColSize(j, globcol, c);
      StartNext(j.l, Size(j), c);
      coltab := coltab + [coltab[iter] + colsize];
    }
  }

  lemma SizeAt(j: BlockJob, c: int)
    requires 0 <= c < |j.l.col2cblk|
    ensures j.p.spm.dof > 0 && 0 <= c / j.p.spm.dof < j.p.spm.n
    ensures Size(j)[c] == NodeCount(j.p, c / j.p.spm.dof, j.p.spm.n)
  {
    NodeInRange(j.p.spm.n, j.p.spm.dof, c);
    NodeOfColumn(j.p.spm.dof, c);
    SizeIsWritten(j.p, c / j.p.spm.dof, c);
  }

  lemma NodeInRange(n: int, dof: int, c: int)
    requires dof > 0 && 0 <= c < n * dof
    ensures 0 <= c / dof < n
  {
    if c / dof >= n {
      Times(n, c / dof, dof);
    }
  }

  lemma Times(x: int, y: int, dof: int)
    requires x <= y && dof >= 0
    ensures x * dof <= y * dof
  {
  }

  /** Between two blocks nothing is local. */
  lemma StartAtBlock(l: Blocks, size: seq<int>, b: int)
    requires SizesOK(l, size) && 0 <= b <= |l.cblks|
    ensures b > 0 ==> BlkOK(l, b - 1)
    ensures b < |l.cblks| ==> BlkOK(l, b)
    ensures var at := if b == 0 then 0 else l.cblks[b - 1].lcolnum + 1;
      var f := if b == |l.cblks| then |size| else l.cblks[b].fcolnum;
      0 <= at <= f <= |size| && Start(l, size, at) == Start(l, size, f)
  {
    hide Start, IsLocal;
    var at := if b == 0 then 0 else l.cblks[b - 1].lcolnum + 1;
    var f := if b == |l.cblks| then |size| else l.cblks[b].fcolnum;
    assert b > 0 ==> BlkOK(l, b - 1);
    assert b < |l.cblks| ==> BlkOK(l, b);
    forall x | at <= x < f ensures !IsLocal(l, x) {
      GapNotLocal(l, b, x);
    }
    StartSkips(l, size, at, f);
  }

  /** The start tables of all the blocks, and the number of values to store. */
  method InitColtab(j: BlockJob, cscftab: array<seq<int>>) returns (idxcol: int)
    requires cscftab.Length == |j.l.cblks|
    modifies cscftab
    ensures IsColtab(j.l, Size(j), cscftab[..]) && idxcol == Start(j.l, Size(j), |Size(j)|)
  {
    hide Start, Size, NodeCount, Whole, IsColtab;
    assert j.p.spm.n >= 0;
    var globcol := new int[j.p.spm.n](_ => 0);
    InitGlobalColtab(j.p, globcol);
    forall c | 0 <= c < |j.l.col2cblk| && IsLocal(j.l, c)
      ensures CountOK(j, globcol[..], c)
    {
      SizeAt(j, c);
    }
    idxcol := StartsFrom(j, cscftab, globcol);
  }

  /** The start tables of all the blocks, from the sizes of the local columns. */
  method StartsFrom(j: BlockJob, cscftab: array<seq<int>>, globcol: array<int>) returns (idxcol: int)
    requires cscftab.Length == |j.l.cblks| && CountsOK(j, globcol[..])
    modifies cscftab
    ensures IsColtab(j.l, Size(j), cscftab[..]) && idxcol == Start(j.l, Size(j), |Size(j)|)
  {
    hide Start, Size, NodeCount, Whole, BlockStarted, IsColtab, CountsOK;
    idxcol := 0;
    StartZero(j.l, Size(j));
    for b := 0 to |j.l.cblks|
      invariant b > 0 ==> BlkOK(j.l, b - 1)
      invariant CountsOK(j, globcol[..])
      invariant idxcol == Start(j.l, Size(j), if b == 0 then 0 else j.l.cblks[b - 1].lcolnum + 1)
      invariant forall a :: 0 <= a < b ==> BlockStarted(j.l, Size(j), cscftab[a], a)
    {
      StartAtBlock(j.l, Size(j), b);
      var coltab := BlockStarts(j, globcol, b, idxcol);
      LastStart(j.l, Size(j), coltab, b);
      cscftab[b] := coltab;
      idxcol := coltab[|coltab| - 1];
    }
    StartAtBlock(j.l, Size(j), |j.l.cblks|);
    StartedIsColtab(j.l, Size(j), cscftab[..]);
  }

  lemma LastStart(l: Layout, size: seq<int>, coltab: seq<int>, b: int)
    requires LayoutOK(l) && |size| == |l.col2cblk| && 0 <= b < |l.cblks| && BlockStarted(l, size, coltab, b)
    ensures BlkOK(l, b) && |coltab| > 0 && coltab[|coltab| - 1] == Start(l, size, l.cblks[b].lcolnum + 1)
  {
    assert BlkOK(l, b);
  }

  lemma StartZero(l: Layout, size: seq<int>)
    requires |size| == |l.col2cblk|
    ensures Start(l, size, 0) == 0
  {
  }

  lemma StartedIsColtab(l: Layout, size: seq<int>, tab: seq<seq<int>>)
    requires LayoutOK(l) && |size| == |l.col2cblk| && |tab| == |l.cblks|
    requires forall b :: 0 <= b < |tab| ==> BlockStarted(l, size, tab[b], b)
    ensures IsColtab(l, size, tab)
  {
    hide Start;
    forall b | 0 <= b < |tab| ensures TabOK(l, size, tab, b) {
      assert BlockStarted(l, size, tab[b], b);
      LastStart(l, size, tab[b], b);
    }
    forall c | 0 <= c < |size| && IsLocal(l, c) ensures CursorAt(l, size, tab, [], c) {
      assert ColOK(l, c);
      assert BlockStarted(l, size, tab[l.col2cblk[c]], l.col2cblk[c]);
    }
  }

  // ----- restoring the starts -----

  /** Every cursor of block `b` stands at the end of its column. */
  ghost predicate BlockDone(l: Layout, size: seq<int>, coltab: seq<int>, b: int)
    requires LayoutOK(l) && |size| == |l.col2cblk| && 0 <= b < |l.cblks|
  {
    assert BlkOK(l, b);
    var colnbr := l.cblks[b].lcolnum - l.cblks[b].fcolnum + 1;
    && |coltab| == colnbr + 1
    && (forall i :: 0 <= i < colnbr ==> coltab[i] == Start(l, size, l.cblks[b].fcolnum + i + 1))
    && coltab[colnbr] == Start(l, size, l.cblks[b].fcolnum + colnbr)
  }

  lemma FullIsDone(l: Layout, size: seq<int>, tab: seq<seq<int>>, es: seq<Entry>, b: int)
    requires LayoutOK(l) && |size| == |l.col2cblk| && 0 <= b < |l.cblks| && Cursors(l, size, tab, es)
    requires forall c :: 0 <= c < |size| && IsLocal(l, c) ==> |Pick(es, c)| == size[c]
    ensures BlockDone(l, size, tab[b], b)
  {
    hide Start, Pick;
    assert BlkOK(l, b) && TabOK(l, size, tab, b);
    var f := l.cblks[b].fcolnum;
    forall i | 0 <= i <= l.cblks[b].lcolnum - f
      ensures tab[b][i] == Start(l, size, f + i + 1)
    {
      assert IsLocal(l, f + i) && CursorAt(l, size, tab, es, f + i);
      StartNext(l, size, f + i);
    }
  }

  /** Shift the starts of one block by one column. */
  method RestoreBlock(l: Blocks, coltab: seq<int>, b: int, idxcol: int, ghost size: seq<int>)
      returns (tab: seq<int>, next: int)
    requires |size| == |l.col2cblk| && 0 <= b < |l.cblks| && BlockDone(l, size, coltab, b) && BlkOK(l, b)
    requires idxcol == Start(l, size, l.cblks[b].fcolnum)
    ensures BlockStarted(l, size, tab, b) && next == Start(l, size, l.cblks[b].lcolnum + 1)
  {
    hide Start;
    tab := coltab;
    next := idxcol;
    var f := l.cblks[b].fcolnum;
    for iter := 0 to |coltab|
      invariant |tab| == |coltab| && next == Start(l, size, if iter < |coltab| then f + iter else f + iter - 1)
      invariant forall i :: 0 <= i < iter ==> tab[i] == Start(l, size, f + i)
      invariant forall i :: iter <= i < |tab| ==> tab[i] == coltab[i]
    {
      var idxcoltmp := tab[iter];
      tab := tab[iter := next];
      next := idxcoltmp;
    }
  }

  /** The start table is given back once every column is full. */
  method RestoreColtab(l: Blocks, cscftab: array<seq<int>>, ghost size: seq<int>, ghost es: seq<Entry>)
    requires SizesOK(l, size) && cscftab.Length == |l.cblks| && Cursors(l, size, cscftab[..], es)
    requires forall c :: 0 <= c < |size| && IsLocal(l, c) ==> |Pick(es, c)| == size[c]
    modifies cscftab
    ensures IsColtab(l, size, cscftab[..])
  {
    hide Start, Pick, IsLocal, BlockDone, BlockStarted, Cursors;
    forall b | 0 <= b < cscftab.Length ensures BlockDone(l, size, cscftab[b], b) {
      FullIsDone(l, size, cscftab[..], es, b);
    }
    var idxcol := 0;
    StartZero(l, size);
    for index := 0 to cscftab.Length
      invariant index > 0 ==> BlkOK(l, index - 1)
      invariant idxcol == Start(l, size, if index == 0 then 0 else l.cblks[index - 1].lcolnum + 1)
      invariant forall b :: 0 <= b < index ==> BlockStarted(l, size, cscftab[b], b)
      invariant forall b :: index <= b < cscftab.Length ==> BlockDone(l, size, cscftab[b], b)
    {
      StartAtBlock(l, size, index);
      cscftab[index], idxcol := RestoreBlock(l, cscftab[index], index, idxcol, size);
    }
    StartedIsColtab(l, size, cscftab[..]);
  }
}
