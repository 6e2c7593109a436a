/** Writing the values of the matrix, and of its mirror, at the cursors of their columns. */
module BcscWrite {
  import opened BcscFill
  import opened Bcsc
  import opened BcscInit

  /** Cursors and storage after the writes `es`. */
  ghost predicate Fill(j: BlockJob, tab: seq<seq<int>>, rows: seq<int>, vals: seq<Complex>, es: seq<Entry>) {
    Cursors(j.l, Size(j), tab, es) && Filled(j.l, Size(j), rows, vals, es)
  }

  /** All the writes: each local column gets as many as its size. */
  ghost predicate Fits(j: BlockJob, total: seq<Entry>) {
    forall c :: 0 <= c < |Size(j)| && IsLocal(j.l, c) ==> |Pick(total, c)| == Size(j)[c]
  }

  lemma PickPrefix(es: seq<Entry>, total: seq<Entry>, c: int)
    requires es <= total
    ensures |Pick(es, c)| <= |Pick(total, c)|
  {
    PickJoin(es, total[|es|..], c);
    assert es + total[|es|..] == total;
  }

  /** There is room for the next write. */
  lemma Room(j: BlockJob, es: seq<Entry>, e: Entry, total: seq<Entry>)
    requires Fits(j, total) && es + [e] <= total && IsLocal(j.l, e.col)
    ensures |Pick(es, e.col)| < Size(j)[e.col]
    ensures 0 <= Start(j.l, Size(j), e.col) + |Pick(es, e.col)| < Start(j.l, Size(j), |Size(j)|)
  {
    hide Size, Start;
    PickMore(es, e, e.col);
    PickPrefix(es + [e], total, e.col);
    StartOrder(j.l, Size(j), e.col, |Size(j)|);
  }

  /** Moving the cursor of `col` by what was written there. */
  lemma CursorMoves(l: Blocks, size: seq<int>, tab: seq<seq<int>>, next: seq<seq<int>>, es: seq<Entry>, fs: seq<Entry>,
          col: int, m: int)
    requires |size| == |l.col2cblk| && Cursors(l, size, tab, es) && IsLocal(l, col)
    requires forall c :: 0 <= c < |size| ==> |Pick(fs, c)| == |Pick(es, c)| + (if c == col then m else 0)
    requires |next| == |tab| == |l.cblks| && ColOK(l, col)
    requires var b := l.col2cblk[col]; BlkOK(l, b) && TabOK(l, size, tab, b)
    requires var b := l.col2cblk[col];
      next == tab[b := tab[b][col - l.cblks[b].fcolnum := tab[b][col - l.cblks[b].fcolnum] + m]]
    ensures Cursors(l, size, next, fs)
  {
    hide Start, Pick;
    var b := l.col2cblk[col];
    forall a | 0 <= a < |next| ensures TabOK(l, size, next, a) {
      assert TabOK(l, size, tab, a);
    }
    forall c | 0 <= c < |size| && IsLocal(l, c) ensures CursorAt(l, size, next, fs, c) {
      assert CursorAt(l, size, tab, es, c) && ColOK(l, c);
    }
  }

  /** Entry `k`, column `a`, row `b` of the block: an index of the value array. */
  lemma ValueIndex(p: Valued, k: int, a: int, b: int)
    requires 0 <= k < |p.spm.rowptr| && 0 <= a < p.spm.dof && 0 <= b < p.spm.dof
    ensures 0 <= (k * p.spm.dof + a) * p.spm.dof + b < |p.spm.values|
    ensures p.Value(k, a, b) == p.spm.values[(k * p.spm.dof + a) * p.spm.dof + b]
  {
    var dof, n := p.spm.dof, |p.spm.rowptr|;
    NodesApart(dof, k, n);
    assert 0 <= k * dof by { Times(0, k, dof); }
    NodesApart(dof, k * dof + a, n * dof);
    Times(0, k * dof + a, dof);
  }

  /** Rows of a node are rows of the matrix. */
  lemma NodeRows(p: Valued, node: int, b: int)
    requires 0 <= node < p.spm.n && 0 <= b < p.spm.dof
    ensures 0 <= node * p.spm.dof + b < p.spm.n * p.spm.dof
  {
    NodesApart(p.spm.dof, node, p.spm.n);
    Times(0, node, p.spm.dof);
  }

  lemma LocalTab(l: Blocks, size: seq<int>, tab: seq<seq<int>>, es: seq<Entry>, col: int)
    requires |size| == |l.col2cblk| && Cursors(l, size, tab, es) && IsLocal(l, col)
    ensures ColOK(l, col) && 0 <= l.col2cblk[col] < |l.cblks| == |tab|
    ensures var b := l.col2cblk[col];
      BlkOK(l, b) && TabOK(l, size, tab, b) && 0 <= col - l.cblks[b].fcolnum < |tab[b]| - 1
    ensures var b := l.col2cblk[col]; tab[b][col - l.cblks[b].fcolnum] == Start(l, size, col) + |Pick(es, col)|
  {
    assert ColOK(l, col);
    assert BlkOK(l, l.col2cblk[col]) && TabOK(l, size, tab, l.col2cblk[col]) && CursorAt(l, size, tab, es, col);
  }

  /** Write one entry at the cursor of its column. */
  method PutEntry(j: BlockJob, rowtab: array<int>, vals: array<Complex>, pos: int, row: int, value: Complex,
                  ghost col: int, ghost es: seq<Entry>, ghost total: seq<Entry>)
    requires Filled(j.l, Size(j), rowtab[..], vals[..], es) && Fits(j, total) && IsLocal(j.l, col)
    requires es + [Entry(col, row, value)] <= total && pos == Start(j.l, Size(j), col) + |Pick(es, col)|
    requires 0 <= row < j.p.spm.n * j.p.spm.dof
    modifies rowtab, vals
    ensures Filled(j.l, Size(j), rowtab[..], vals[..], es + [Entry(col, row, value)])
    ensures |Pick(es + [Entry(col, row, value)], col)| == |Pick(es, col)| + 1
  {
    hide Start, Pick, Size, Fits, Written, Problem.Valid, Whole, Holds;
    ghost var e := Entry(col, row, value);
    Room(j, es, e, total);
    PutKeeps(j.l, Size(j), rowtab[..], vals[..], es, e, rowtab[..][pos := row], vals[..][pos := value]);
    PickMore(es, e, col);
    rowtab[pos] := row;
    vals[pos] := value;
    assert rowtab[..] == old(rowtab[..])[pos := row] && vals[..] == old(vals[..])[pos := value];
  }

  /** One column of the block of entry `k`: its values go to consecutive places, then the
      cursor moves past them. */
  method WriteColRun(j: BlockJob, cscftab: array<seq<int>>, rowtab: array<int>, vals: array<Complex>,
                     k: int, a: int, col: int, row: int, v: int, ghost es: seq<Entry>, ghost total: seq<Entry>)
    requires Fill(j, cscftab[..], rowtab[..], vals[..], es) && Fits(j, total) && IsLocal(j.l, col)
    requires 0 <= k < |j.p.spm.rowptr| && 0 <= a < j.p.spm.dof && v == (k * j.p.spm.dof + a) * j.p.spm.dof
    requires es + ColRun(j.p, k, a, col, row, j.p.spm.dof) <= total
    requires 0 <= row && row + j.p.spm.dof <= j.p.spm.n * j.p.spm.dof
    modifies cscftab, rowtab, vals
    ensures Fill(j, cscftab[..], rowtab[..], vals[..], es + ColRun(j.p, k, a, col, row, j.p.spm.dof))
  {
    hide Start, Pick, Size, Fits, Filled, Cursors, ColRun, Written, Problem.Valid, Whole, TabOK;
    var dof := j.p.spm.dof;
    var b := j.l.col2cblk[col];
    ghost var tab := cscftab[..];
    LocalTab(j.l, Size(j), tab, es, col);
    var colidx := col - j.l.cblks[b].fcolnum;
    var pos := cscftab[b][colidx];
    RunNone(j.p, k, a, col, row, es);
    for idofi := 0 to dof
      invariant cscftab[..] == tab
      invariant Filled(j.l, Size(j), rowtab[..], vals[..], es + ColRun(j.p, k, a, col, row, idofi))
      invariant pos == Start(j.l, Size(j), col) + |Pick(es + ColRun(j.p, k, a, col, row, idofi), col)|
    {
      var rowidx := row + idofi;
      assert 0 <= rowidx < j.p.spm.n * dof;
      RunNext(j, k, a, col, row, idofi, es, total);
      ValueIndex(j.p, k, a, idofi);
      PutEntry(j, rowtab, vals, pos, rowidx, j.p.spm.values[v + idofi], col, es + ColRun(j.p, k, a, col, row, idofi),
               total);
      pos := pos + 1;
    }
    cscftab[b] := cscftab[b][colidx := cscftab[b][colidx] + dof];
    forall c | 0 <= c < |Size(j)|
      ensures |Pick(es + ColRun(j.p, k, a, col, row, dof), c)| == |Pick(es, c)| + (if c == col then dof else 0)
    {
      PickColRun(j.p, k, a, col, row, dof, c);
      PickJoin(es, ColRun(j.p, k, a, col, row, dof), c);
    }
    CursorMoves(j.l, Size(j), tab, cscftab[..], es, es + ColRun(j.p, k, a, col, row, dof), col, dof);
    CursorBelowNext(j, cscftab[..], rowtab[..], vals[..], es + ColRun(j.p, k, a, col, row, dof), col);
    assert cscftab[b][colidx] <= cscftab[b][colidx + 1];
  }

  /** A cursor never passes the cursor of the next column. */
  lemma CursorBelowNext(j: BlockJob, tab: seq<seq<int>>, rows: seq<int>, vals: seq<Complex>, es: seq<Entry>, col: int)
    requires Cursors(j.l, Size(j), tab, es) && Filled(j.l, Size(j), rows, vals, es) && IsLocal(j.l, col)
    ensures ColOK(j.l, col)
    ensures var b := j.l.col2cblk[col]; var i := col - j.l.cblks[b].fcolnum;
      |tab| == |j.l.cblks| && 0 <= i && i + 1 < |tab[b]| && tab[b][i] <= tab[b][i + 1]
  {
    hide Pick, Size, Holds, Whole, Written;
    LocalTab(j.l, Size(j), tab, es, col);
    var b := j.l.col2cblk[col];
    StartNext(j.l, Size(j), col);
    if col < j.l.cblks[b].lcolnum {
      assert IsLocal(j.l, col + 1);
      LocalTab(j.l, Size(j), tab, es, col + 1);
    }
  }

  lemma RunNone(p: Problem, k: int, a: int, col: int, row: int, es: seq<Entry>)
    ensures es + ColRun(p, k, a, col, row, 0) == es
  {
  }

  lemma {:induction false} RunPrefix(p: Problem, k: int, a: int, col: int, row: int, m: nat, n: nat)
    requires m <= n
    ensures ColRun(p, k, a, col, row, m) <= ColRun(p, k, a, col, row, n)
  {
    if m < n {
      RunPrefix(p, k, a, col, row, m, n - 1);
      PrefixMore(ColRun(p, k, a, col, row, m), ColRun(p, k, a, col, row, n - 1),
                 [Entry(col, row + n - 1, p.Value(k, a, n - 1))]);
    }
  }

  /** The next write of the run has its place. */
  lemma RunNext(j: BlockJob, k: int, a: int, col: int, row: int, m: nat, es: seq<Entry>, total: seq<Entry>)
    requires m < j.p.spm.dof && es + ColRun(j.p, k, a, col, row, j.p.spm.dof) <= total
    ensures var e := Entry(col, row + m, j.p.Value(k, a, m));
      var done := es + ColRun(j.p, k, a, col, row, m);
      es + ColRun(j.p, k, a, col, row, m + 1) == done + [e] <= total
  {
    var e := Entry(col, row + m, j.p.Value(k, a, m));
    RunPrefix(j.p, k, a, col, row, m + 1, j.p.spm.dof);
    var done := es + ColRun(j.p, k, a, col, row, m);
    assert es + ColRun(j.p, k, a, col, row, m + 1) == done + [e];
    PrefixOf(es, ColRun(j.p, k, a, col, row, m + 1), ColRun(j.p, k, a, col, row, j.p.spm.dof), total);
  }

  lemma PrefixOf(es: seq<Entry>, a: seq<Entry>, b: seq<Entry>, total: seq<Entry>)
    requires a <= b && es + b <= total
    ensures es + a <= total
  {
    assert es + b == (es + a) + b[|a|..];
  }

  // ----- the matrix -----

  /** The columns of a node are local together. */
  lemma NodeLocal(j: BlockJob, node: int, b: int)
    requires 0 <= node < j.p.spm.n && 0 <= b < j.p.spm.dof
    ensures 0 <= node * j.p.spm.dof && node * j.p.spm.dof + b < |j.l.col2cblk|
    ensures IsLocal(j.l, node * j.p.spm.dof + b) <==> IsLocal(j.l, node * j.p.spm.dof)
  {
    NodeRows(j.p, node, b);
    NodeRows(j.p, node, 0);
    assert Whole(j, node);
    assert InNode(j.p.spm.dof, node, node * j.p.spm.dof + b);
  }

  lemma LocalNode(j: BlockJob, u: int, b: int)
    requires 0 <= u < j.p.spm.n && 0 <= b < j.p.spm.dof
    ensures 0 <= New(j.p, u) && New(j.p, u) + b < |j.l.col2cblk|
    ensures IsLocal(j.l, New(j.p, u) + b) <==> IsLocal(j.l, New(j.p, u))
  {
    NodeLocal(j, j.p.permtab[u], b);
  }

  lemma {:induction false} BlockPrefix(p: Problem, k: int, col: int, row: int, m: nat, n: nat)
    requires m <= n && p.spm.dof >= 0
    ensures BlockA(p, k, col, row, m) <= BlockA(p, k, col, row, n)
  {
    hide ColRun;
    if m < n {
      BlockPrefix(p, k, col, row, m, n - 1);
      PrefixMore(BlockA(p, k, col, row, m), BlockA(p, k, col, row, n - 1),
                 ColRun(p, k, n - 1, col + n - 1, row, p.spm.dof));
    }
  }

  /** The next column of the block has its place. */
  lemma ColumnNext(p: Valued, k: int, col: int, row: int, m: nat, es: seq<Entry>, total: seq<Entry>)
    requires m < p.spm.dof && es + BlockA(p, k, col, row, p.spm.dof) <= total
    ensures (es + BlockA(p, k, col, row, m)) + ColRun(p, k, m, col + m, row, p.spm.dof)
        == es + BlockA(p, k, col, row, m + 1) <= total
  {
    BlockPrefix(p, k, col, row, m + 1, p.spm.dof);
    PrefixOf(es, BlockA(p, k, col, row, m + 1), BlockA(p, k, col, row, p.spm.dof), total);
  }

  lemma Basics(p: Valued)
    ensures p.spm.dof > 0 && p.spm.n >= 0 && |p.permtab| == p.spm.n && |p.spm.colptr| == p.spm.n + 1
  {
  }

  /** The block of entry `k`, in the column node `jgp`, which is local. */
  method WriteBlockA(j: BlockJob, cscftab: array<seq<int>>, rowtab: array<int>, vals: array<Complex>,
                     k: int, jgp: int, igp: int, ghost es: seq<Entry>, ghost total: seq<Entry>)
    requires 0 <= jgp < j.p.spm.n && 0 <= igp < j.p.spm.n && 0 <= k < |j.p.spm.rowptr|
    requires Fill(j, cscftab[..], rowtab[..], vals[..], es) && Fits(j, total) && IsLocal(j.l, jgp * j.p.spm.dof)
    requires es + BlockA(j.p, k, jgp * j.p.spm.dof, igp * j.p.spm.dof, j.p.spm.dof) <= total
    modifies cscftab, rowtab, vals
    ensures Fill(j, cscftab[..], rowtab[..], vals[..],
                 es + BlockA(j.p, k, jgp * j.p.spm.dof, igp * j.p.spm.dof, j.p.spm.dof))
  {
    hide Fits, Fill, Problem.Valid, Whole, ColRun, IsLocal;
    Basics(j.p);
    var dof := j.p.spm.dof;
    var col, row := jgp * dof, igp * dof;
    var v := (k * dof) * dof;
    assert es + BlockA(j.p, k, col, row, 0) == es;
    NodeRows(j.p, igp, dof - 1);
    NodeRows(j.p, igp, 0);
    for idofj := 0 to dof
      invariant Fill(j, cscftab[..], rowtab[..], vals[..], es + BlockA(j.p, k, col, row, idofj))
      invariant v == (k * dof + idofj) * dof
    {
      ColumnNext(j.p, k, col, row, idofj, es, total);
      NodeLocal(j, jgp, idofj);
      WriteColRun(j, cscftab, rowtab, vals, k, idofj, col + idofj, row, v, es + BlockA(j.p, k, col, row, idofj), total);
      Product(k * dof + idofj, dof);
      v := v + dof;
    }
  }

  /** Writes outside the local columns change nothing there. */
  lemma FillSkips(j: BlockJob, tab: seq<seq<int>>, rows: seq<int>, vals: seq<Complex>, es: seq<Entry>, fs: seq<Entry>)
    requires Fill(j, tab, rows, vals, es)
    requires forall c :: 0 <= c < |Size(j)| && IsLocal(j.l, c) ==> |Pick(fs, c)| == 0
    ensures Fill(j, tab, rows, vals, es + fs)
  {
    hide Start, Pick, Size, Whole, Problem.Valid, TabOK;
    forall c | 0 <= c < |Size(j)| && IsLocal(j.l, c)
      ensures Pick(es + fs, c) == Pick(es, c)
    {
      PickJoin(es, fs, c);
    }
    forall c | 0 <= c < |Size(j)| && IsLocal(j.l, c)
      ensures CursorAt(j.l, Size(j), tab, es + fs, c) && |Pick(es + fs, c)| <= Size(j)[c]
      ensures Holds(j.l, Size(j), rows, vals, es + fs, c)
    {
      assert CursorAt(j.l, Size(j), tab, es, c) && Holds(j.l, Size(j), rows, vals, es, c);
      forall x | 0 <= x < |Pick(es + fs, c)|
        ensures HoldsAt(j.l, Size(j), rows, vals, es + fs, c, x)
      {
        assert HoldsAt(j.l, Size(j), rows, vals, es, c, x);
      }
    }
  }

  /** Column `c` is local and the node of `u` is not: they do not meet. */
  lemma NodesDiffer(j: BlockJob, u: int, c: int)
    requires 0 <= u < j.p.spm.n && 0 <= c < |j.l.col2cblk| && IsLocal(j.l, c)
    requires !IsLocal(j.l, New(j.p, u))
    ensures !(New(j.p, u) <= c < New(j.p, u) + j.p.spm.dof)
  {
    if New(j.p, u) <= c < New(j.p, u) + j.p.spm.dof {
      LocalNode(j, u, c - New(j.p, u));
    }
  }

  lemma LocalSign(l: Layout, c: int)
    requires 0 <= c < |l.col2cblk|
    ensures IsLocal(l, c) <==> l.col2cblk[c] >= 0
  {
  }

  /** The entries of a column that is not local are in no local column. */
  lemma {:induction false} SkipColumnA(j: BlockJob, jg: int, k: int, c: int)
    requires 0 <= jg < j.p.spm.n && j.p.First(jg) <= k <= j.p.First(jg + 1)
    requires 0 <= c < |j.l.col2cblk| && IsLocal(j.l, c) && !IsLocal(j.l, New(j.p, jg))
    ensures |Pick(ColumnA(j.p, jg, k), c)| == 0
    decreases k
  {
    hide Pick, BlockA, IsLocal, Whole;
    PickNone(c);
    assert j.p.ColumnOK(jg);
    if k > j.p.First(jg) {
      SkipColumnA(j, jg, k - 1, c);
      assert 0 <= j.p.Row(k - 1) < j.p.spm.n;
      NodesDiffer(j, jg, c);
      PickBlockA(j.p, k - 1, New(j.p, jg), New(j.p, j.p.Row(k - 1)), j.p.spm.dof, c);
      PickJoin(ColumnA(j.p, jg, k - 1), BlockA(j.p, k - 1, New(j.p, jg), New(j.p, j.p.Row(k - 1)), j.p.spm.dof), c);
    }
  }

  lemma {:induction false} ColumnPrefix(p: Valued, jg: int, k: int, l: int)
    requires 0 <= jg < p.spm.n && p.First(jg) <= k <= l <= p.First(jg + 1)
    ensures ColumnA(p, jg, k) <= ColumnA(p, jg, l)
    decreases l - p.First(jg)
  {
    hide BlockA;
    if k < l {
      ColumnPrefix(p, jg, k, l - 1);
      assert p.ColumnOK(jg) && 0 <= p.Row(l - 1) < p.spm.n;
      PrefixMore(ColumnA(p, jg, k), ColumnA(p, jg, l - 1),
                 BlockA(p, l - 1, New(p, jg), New(p, p.Row(l - 1)), p.spm.dof));
    }
  }

  lemma {:induction false} AllPrefix(p: Valued, jg: int, n: int)
    requires 0 <= jg <= n <= p.spm.n
    ensures AllA(p, jg) <= AllA(p, n)
    decreases n
  {
    hide ColumnA;
    if jg < n {
      AllPrefix(p, jg, n - 1);
      assert p.ColumnOK(n - 1);
      PrefixMore(AllA(p, jg), AllA(p, n - 1), ColumnA(p, n - 1, p.First(n)));
    }
  }

  lemma AllAStep(p: Valued, jg: int)
    requires 0 <= jg < p.spm.n
    ensures p.ColumnOK(jg) && AllA(p, jg + 1) == AllA(p, jg) + ColumnA(p, jg, p.First(jg + 1))
  {
    hide ColumnA;
    assert p.ColumnOK(jg);
  }

  lemma ColumnAStep(p: Valued, jg: int, k: int)
    requires 0 <= jg < p.spm.n && p.First(jg) <= k < p.First(jg + 1)
    ensures p.ColumnOK(jg) && 0 <= k < |p.spm.rowptr| && 0 <= p.Row(k) < p.spm.n
    ensures ColumnA(p, jg, k + 1) == ColumnA(p, jg, k) + BlockA(p, k, New(p, jg), New(p, p.Row(k)), p.spm.dof)
  {
    hide BlockA;
    assert p.ColumnOK(jg);
  }

  /** The values of the matrix, in place. */
  method InitA(j: BlockJob, cscftab: array<seq<int>>, rowtab: array<int>, vals: array<Complex>, ghost total: seq<Entry>)
    requires Fill(j, cscftab[..], rowtab[..], vals[..], []) && Fits(j, total) && AllA(j.p, j.p.spm.n) <= total
    modifies cscftab, rowtab, vals
    ensures Fill(j, cscftab[..], rowtab[..], vals[..], AllA(j.p, j.p.spm.n))
  {
    hide Fits, Fill, Problem.Valid, Whole, ColumnA, IsLocal;
    Basics(j.p);
    assert [] + AllA(j.p, j.p.spm.n) == AllA(j.p, j.p.spm.n);
    for jg := 0 to j.p.spm.n
      invariant Fill(j, cscftab[..], rowtab[..], vals[..], AllA(j.p, jg))
    {
      InitColumnA(j, cscftab, rowtab, vals, jg, total);
    }
  }

  method InitColumnA(j: BlockJob, cscftab: array<seq<int>>, rowtab: array<int>, vals: array<Complex>, jg: int,
          ghost total: seq<Entry>)
    requires 0 <= jg < j.p.spm.n && Fill(j, cscftab[..], rowtab[..], vals[..], AllA(j.p, jg))
    requires Fits(j, total) && AllA(j.p, j.p.spm.n) <= total
    modifies cscftab, rowtab, vals
    ensures Fill(j, cscftab[..], rowtab[..], vals[..], AllA(j.p, jg + 1))
  {
    hide Fits, Fill, Whole, ColumnA, AllA, IsLocal;
    AllPrefix(j.p, jg + 1, j.p.spm.n);
    AllAStep(j.p, jg);
    WriteColumnA(j, cscftab, rowtab, vals, jg, AllA(j.p, jg), total);
  }

  /** The next block of column `jg` has its place among all the writes. */
  lemma EntryNext(p: Valued, jg: int, k: int, es: seq<Entry>, total: seq<Entry>)
    requires 0 <= jg < p.spm.n && p.First(jg) <= k < p.First(jg + 1) && es + ColumnA(p, jg, p.First(jg + 1)) <= total
    ensures p.ColumnOK(jg) && 0 <= k < |p.spm.rowptr| && 0 <= p.Row(k) < p.spm.n
    ensures (es + ColumnA(p, jg, k)) + BlockA(p, k, New(p, jg), New(p, p.Row(k)), p.spm.dof)
        == es + ColumnA(p, jg, k + 1) <= total
  {
    hide BlockA, ColumnA;
    assert p.ColumnOK(jg);
    ColumnPrefix(p, jg, k + 1, p.First(jg + 1));
    ColumnAStep(p, jg, k);
    PrefixOf(es, ColumnA(p, jg, k + 1), ColumnA(p, jg, p.First(jg + 1)), total);
    Assoc(es, ColumnA(p, jg, k), BlockA(p, k, New(p, jg), New(p, p.Row(k)), p.spm.dof));
  }

  /** Column `jg` after the writes `es`: its blocks, or nothing when it is not local. */
  method WriteColumnA(j: BlockJob, cscftab: array<seq<int>>, rowtab: array<int>, vals: array<Complex>, jg: int,
                      ghost es: seq<Entry>, ghost total: seq<Entry>)
    requires 0 <= jg < j.p.spm.n && j.p.ColumnOK(jg) && Fill(j, cscftab[..], rowtab[..], vals[..], es)
    requires Fits(j, total) && es + ColumnA(j.p, jg, j.p.First(jg + 1)) <= total
    modifies cscftab, rowtab, vals
    ensures Fill(j, cscftab[..], rowtab[..], vals[..], es + ColumnA(j.p, jg, j.p.First(jg + 1)))
  {
    hide Fits, Fill, Whole, BlockA, IsLocal;
    assert es + ColumnA(j.p, jg, j.p.First(jg)) == es;
    LocalNode(j, jg, 0);
    var jgpe := j.p.permtab[jg] * j.p.spm.dof;
    var itercblk := j.l.col2cblk[jgpe];
    assert itercblk >= 0 <==> IsLocal(j.l, New(j.p, jg)) by { LocalSign(j.l, jgpe); }
    if itercblk >= 0 {
      for k := j.p.First(jg) to j.p.First(jg + 1)
        invariant Fill(j, cscftab[..], rowtab[..], vals[..], es + ColumnA(j.p, jg, k))
      {
        EntryNext(j.p, jg, k, es, total);
        WriteBlockA(j, cscftab, rowtab, vals, k, j.p.permtab[jg], j.p.permtab[j.p.Row(k)], es + ColumnA(j.p, jg, k),
                    total);
      }
    } else {
      forall c | 0 <= c < |Size(j)| && IsLocal(j.l, c)
        ensures |Pick(ColumnA(j.p, jg, j.p.First(jg + 1)), c)| == 0
      {
        SkipColumnA(j, jg, j.p.First(jg + 1), c);
      }
      FillSkips(j, cscftab[..], rowtab[..], vals[..], es, ColumnA(j.p, jg, j.p.First(jg + 1)));
    }
  }
}
