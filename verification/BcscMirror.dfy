/** Writing the mirrored values: the upper part of a symmetric or Hermitian matrix, or
    the transpose of a general one; then the whole initialization. */
module BcscMirror {
  import opened BcscFill
  import opened Bcsc
  import opened BcscInit
  import opened BcscWrite

  lemma {:induction false} RowRunPrefix(p: Problem, k: int, a: int, col: int, row: int, m: nat, n: nat)
    requires m <= n
    ensures RowRun(p, k, a, col, row, m) <= RowRun(p, k, a, col, row, n)
  {
    if m < n {
      RowRunPrefix(p, k, a, col, row, m, n - 1);
      PrefixMore(RowRun(p, k, a, col, row, m), RowRun(p, k, a, col, row, n - 1),
                 [Entry(col + n - 1, row, p.Mirror(p.Value(k, a, n - 1)))]);
    }
  }

  /** The next mirrored value has its place. */
  lemma RowNext(p: Problem, k: int, a: int, col: int, row: int, m: nat, es: seq<Entry>, total: seq<Entry>)
    requires m < p.spm.dof && es + RowRun(p, k, a, col, row, p.spm.dof) <= total
    ensures (es + RowRun(p, k, a, col, row, m)) + [Entry(col + m, row, p.Mirror(p.Value(k, a, m)))]
         == es + RowRun(p, k, a, col, row, m + 1) <= total
  {
    RowRunPrefix(p, k, a, col, row, m + 1, p.spm.dof);
    PrefixOf(es, RowRun(p, k, a, col, row, m + 1), RowRun(p, k, a, col, row, p.spm.dof), total);
  }

  /** One value, written at the cursor of its column, which then moves by one. */
  method WriteOne(j: BlockJob, cscftab: array<seq<int>>, rowtab: array<int>, vals: array<Complex>,
                  col: int, row: int, value: Complex, ghost es: seq<Entry>, ghost total: seq<Entry>)
    requires Fill(j, cscftab[..], rowtab[..], vals[..], es) && Fits(j, total) && IsLocal(j.l, col)
    requires es + [Entry(col, row, value)] <= total && 0 <= row < j.p.spm.n * j.p.spm.dof
    modifies cscftab, rowtab, vals
    ensures Fill(j, cscftab[..], rowtab[..], vals[..], es + [Entry(col, row, value)])
  {
    hide Start, Pick, Size, Fits, Filled, Cursors, Written, Problem.Valid, Whole, TabOK;
    ghost var tab := cscftab[..];
    LocalTab(j.l, Size(j), tab, es, col);
    var b := j.l.col2cblk[col];
    var colidx := col - j.l.cblks[b].fcolnum;
    var pos := cscftab[b][colidx];
    PutEntry(j, rowtab, vals, pos, row, value, col, es, total);
    cscftab[b] := cscftab[b][colidx := cscftab[b][colidx] + 1];
    ghost var e := Entry(col, row, value);
    forall c | 0 <= c < |Size(j)|
      ensures |Pick(es + [e], c)| == |Pick(es, c)| + (if c == col then 1 else 0)
    {
      PickMore(es, e, c);
    }
    CursorMoves(j.l, Size(j), tab, cscftab[..], es, es + [e], col, 1);
  }

  lemma RowRunNone(p: Problem, k: int, a: int, col: int, row: int, es: seq<Entry>)
    ensures es + RowRun(p, k, a, col, row, 0) == es
  {
  }

  lemma ColLocal(j: BlockJob, node: int, col: int, b: int)
    requires 0 <= node < j.p.spm.n && 0 <= b < j.p.spm.dof && col == node * j.p.spm.dof
    ensures 0 <= col && col + b < |j.l.col2cblk| && (IsLocal(j.l, col + b) <==> IsLocal(j.l, col))
  {
    NodeLocal(j, node, b);
  }

  /** Value `m` of column `a` of the block of entry `k`, mirrored in the `m`-th column from `col`. */
  method WriteMirrored(j: BlockJob, cscftab: array<seq<int>>, rowtab: array<int>, vals: array<Complex>,
                       k: int, a: int, col: int, row: int, v: int, m: int,
                       ghost igp: int, ghost es: seq<Entry>, ghost total: seq<Entry>)
    requires 0 <= m < j.p.spm.dof && Fits(j, total)
    requires Fill(j, cscftab[..], rowtab[..], vals[..], es + RowRun(j.p, k, a, col, row, m))
    requires 0 <= igp < j.p.spm.n && col == igp * j.p.spm.dof && IsLocal(j.l, col) && 0 <= row < j.p.spm.n * j.p.spm.dof
    requires 0 <= k < |j.p.spm.rowptr| && 0 <= a < j.p.spm.dof && v == (k * j.p.spm.dof + a) * j.p.spm.dof
    requires es + RowRun(j.p, k, a, col, row, j.p.spm.dof) <= total
    modifies cscftab, rowtab, vals
    ensures Fill(j, cscftab[..], rowtab[..], vals[..], es + RowRun(j.p, k, a, col, row, m + 1))
  {
    hide *;
    RowNext(j.p, k, a, col, row, m, es, total);
    ColLocal(j, igp, col, m);
    ValueIndex(j.p, k, a, m);
    WriteOne(j, cscftab, rowtab, vals, col + m, row, j.p.Mirror(j.p.spm.values[v + m]),
             es + RowRun(j.p, k, a, col, row, m), total);
  }

  /** One column of the block of entry `k`, mirrored along row `row` from the first column of a node. */
  method WriteRowRun(j: BlockJob, cscftab: array<seq<int>>, rowtab: array<int>, vals: array<Complex>,
                     k: int, a: int, col: int, row: int, v: int, ghost igp: int, ghost es: seq<Entry>,
                         ghost total: seq<Entry>)
    requires Fill(j, cscftab[..], rowtab[..], vals[..], es) && Fits(j, total)
    requires 0 <= igp < j.p.spm.n && col == igp * j.p.spm.dof && IsLocal(j.l, col) && 0 <= row < j.p.spm.n * j.p.spm.dof
    requires 0 <= k < |j.p.spm.rowptr| && 0 <= a < j.p.spm.dof && v == (k * j.p.spm.dof + a) * j.p.spm.dof
    requires es + RowRun(j.p, k, a, col, row, j.p.spm.dof) <= total
    modifies cscftab, rowtab, vals
    ensures Fill(j, cscftab[..], rowtab[..], vals[..], es + RowRun(j.p, k, a, col, row, j.p.spm.dof))
  {
    hide Fits, Fill, Problem.Valid, Whole, IsLocal, RowRun;
    Basics(j.p);
    var dof := j.p.spm.dof;
    RowRunNone(j.p, k, a, col, row, es);
    for idofi := 0 to dof
      invariant Fill(j, cscftab[..], rowtab[..], vals[..], es + RowRun(j.p, k, a, col, row, idofi))
    {
      WriteMirrored(j, cscftab, rowtab, vals, k, a, col, row, v, idofi, igp, es, total);
    }
  }

  lemma {:induction false} BlockAtPrefix(p: Problem, k: int, col: int, row: int, m: nat, n: nat)
    requires m <= n && p.spm.dof >= 0
    ensures BlockAt(p, k, col, row, m) <= BlockAt(p, k, col, row, n)
  {
    hide RowRun;
    if m < n {
      BlockAtPrefix(p, k, col, row, m, n - 1);
      PrefixMore(BlockAt(p, k, col, row, m), BlockAt(p, k, col, row, n - 1),
                 RowRun(p, k, n - 1, col, row + n - 1, p.spm.dof));
    }
  }

  lemma ColumnAtNext(p: Valued, k: int, col: int, row: int, m: nat, es: seq<Entry>, total: seq<Entry>)
    requires m < p.spm.dof && es + BlockAt(p, k, col, row, p.spm.dof) <= total
    ensures (es + BlockAt(p, k, col, row, m)) + RowRun(p, k, m, col, row + m, p.spm.dof)
        == es + BlockAt(p, k, col, row, m + 1) <= total
  {
    BlockAtPrefix(p, k, col, row, m + 1, p.spm.dof);
    PrefixOf(es, BlockAt(p, k, col, row, m + 1), BlockAt(p, k, col, row, p.spm.dof), total);
  }

  /** The block of entry `k` of column node `jgp`, mirrored into the local node of row `igp`. */
  method WriteBlockAt(j: BlockJob, cscftab: array<seq<int>>, rowtab: array<int>, vals: array<Complex>,
                      k: int, jgp: int, igp: int, ghost es: seq<Entry>, ghost total: seq<Entry>)
    requires 0 <= jgp < j.p.spm.n && 0 <= igp < j.p.spm.n && 0 <= k < |j.p.spm.rowptr|
    requires Fill(j, cscftab[..], rowtab[..], vals[..], es) && Fits(j, total) && IsLocal(j.l, igp * j.p.spm.dof)
    requires es + BlockAt(j.p, k, igp * j.p.spm.dof, jgp * j.p.spm.dof, j.p.spm.dof) <= total
    modifies cscftab, rowtab, vals
    ensures Fill(j, cscftab[..], rowtab[..], vals[..],
                 es + BlockAt(j.p, k, igp * j.p.spm.dof, jgp * j.p.spm.dof, j.p.spm.dof))
  {
    hide Fits, Fill, Problem.Valid, Whole, RowRun, IsLocal;
    Basics(j.p);
    var dof := j.p.spm.dof;
    var col, row := igp * dof, jgp * dof;
    var v := (k * dof) * dof;
    assert es + BlockAt(j.p, k, col, row, 0) == es;
    for idofj := 0 to dof
      invariant Fill(j, cscftab[..], rowtab[..], vals[..], es + BlockAt(j.p, k, col, row, idofj))
      invariant v == (k * dof + idofj) * dof
    {
      ColumnAtNext(j.p, k, col, row, idofj, es, total);
      NodeRows(j.p, jgp, idofj);
      WriteRowRun(j, cscftab, rowtab, vals, k, idofj, col, row + idofj, v, igp, es + BlockAt(j.p, k, col, row, idofj),
                  total);
      Product(k * dof + idofj, dof);
      v := v + dof;
    }
  }

  lemma SkipMirror(j: BlockJob, jg: int, k: int, c: int)
    requires 0 <= jg < j.p.spm.n && 0 <= k < |j.p.spm.rowptr| && 0 <= j.p.Row(k) < j.p.spm.n
    requires 0 <= c < |j.l.col2cblk| && IsLocal(j.l, c) && !IsLocal(j.l, New(j.p, j.p.Row(k)))
    ensures |Pick(MirrorOf(j.p, jg, k), c)| == 0
  {
    hide Pick, BlockAt, IsLocal, Whole;
    PickNone(c);
    NodesDiffer(j, j.p.Row(k), c);
    PickBlockAt(j.p, k, New(j.p, j.p.Row(k)), New(j.p, jg), j.p.spm.dof, c);
  }

  lemma {:induction false} ColumnAtPrefix(p: Valued, jg: int, k: int, l: int)
    requires 0 <= jg < p.spm.n && p.First(jg) <= k <= l <= p.First(jg + 1)
    ensures ColumnAt(p, jg, k) <= ColumnAt(p, jg, l)
    decreases l - p.First(jg)
  {
    hide MirrorOf;
    if k < l {
      ColumnAtPrefix(p, jg, k, l - 1);
      assert p.ColumnOK(jg);
      PrefixMore(ColumnAt(p, jg, k), ColumnAt(p, jg, l - 1), MirrorOf(p, jg, l - 1));
    }
  }

  lemma {:induction false} AllAtPrefix(p: Valued, jg: int, n: int)
    requires 0 <= jg <= n <= p.spm.n
    ensures AllAt(p, jg) <= AllAt(p, n)
    decreases n
  {
    hide ColumnAt;
    if jg < n {
      AllAtPrefix(p, jg, n - 1);
      assert p.ColumnOK(n - 1);
      PrefixMore(AllAt(p, jg), AllAt(p, n - 1), ColumnAt(p, n - 1, p.First(n)));
    }
  }

  lemma AllAtStep(p: Valued, jg: int)
    requires 0 <= jg < p.spm.n
    ensures p.ColumnOK(jg) && AllAt(p, jg + 1) == AllAt(p, jg) + ColumnAt(p, jg, p.First(jg + 1))
  {
    hide ColumnAt;
    assert p.ColumnOK(jg);
  }

  lemma ColumnAtStep(p: Valued, jg: int, k: int)
    requires 0 <= jg < p.spm.n && p.First(jg) <= k < p.First(jg + 1)
    ensures p.ColumnOK(jg) && 0 <= k < |p.spm.rowptr| && 0 <= p.Row(k) < p.spm.n
    ensures ColumnAt(p, jg, k + 1) == ColumnAt(p, jg, k) + MirrorOf(p, jg, k)
  {
    hide MirrorOf;
    assert p.ColumnOK(jg);
  }

  lemma MirrorNext(p: Valued, jg: int, k: int, es: seq<Entry>, total: seq<Entry>)
    requires 0 <= jg < p.spm.n && p.First(jg) <= k < p.First(jg + 1) && es + ColumnAt(p, jg, p.First(jg + 1)) <= total
    ensures p.ColumnOK(jg) && 0 <= k < |p.spm.rowptr| && 0 <= p.Row(k) < p.spm.n
    ensures (es + ColumnAt(p, jg, k)) + MirrorOf(p, jg, k) == es + ColumnAt(p, jg, k + 1) <= total
  {
    hide MirrorOf, ColumnAt;
    assert p.ColumnOK(jg);
    ColumnAtPrefix(p, jg, k + 1, p.First(jg + 1));
    ColumnAtStep(p, jg, k);
    PrefixOf(es, ColumnAt(p, jg, k + 1), ColumnAt(p, jg, p.First(jg + 1)), total);
    Assoc(es, ColumnAt(p, jg, k), MirrorOf(p, jg, k));
  }

  /** The mirror of entry `k` of column `jg`: nothing on the diagonal of a symmetric
      matrix, nor in a node that is not local. */
  method WriteMirror(j: BlockJob, cscftab: array<seq<int>>, rowtab: array<int>, vals: array<Complex>, jg: int, k: int,
                     ghost done: seq<Entry>, ghost total: seq<Entry>)
    requires 0 <= jg < j.p.spm.n && 0 <= k < |j.p.spm.rowptr| && 0 <= j.p.Row(k) < j.p.spm.n
    requires Fill(j, cscftab[..], rowtab[..], vals[..], done) && Fits(j, total) && done + MirrorOf(j.p, jg, k) <= total
    modifies cscftab, rowtab, vals
    ensures Fill(j, cscftab[..], rowtab[..], vals[..], done + MirrorOf(j.p, jg, k))
  {
    hide Fits, Fill, Whole, BlockAt, IsLocal;
    var ig := j.p.spm.rowptr[k] - j.p.spm.baseval;
    if ig == jg && j.p.spm.mtxtype != General {
      assert done + MirrorOf(j.p, jg, k) == done;
    } else {
      var igpe := j.p.permtab[ig] * j.p.spm.dof;
      LocalNode(j, ig, 0);
      var itercblk := j.l.col2cblk[igpe];
      LocalSign(j.l, igpe);
      if itercblk >= 0 {
        WriteBlockAt(j, cscftab, rowtab, vals, k, j.p.permtab[jg], j.p.permtab[ig], done, total);
      } else {
        forall c | 0 <= c < |Size(j)| && IsLocal(j.l, c)
          ensures |Pick(MirrorOf(j.p, jg, k), c)| == 0
        {
          SkipMirror(j, jg, k, c);
        }
        FillSkips(j, cscftab[..], rowtab[..], vals[..], done, MirrorOf(j.p, jg, k));
      }
    }
  }

  /** Mirrors of the entries of column `jg`, after the writes `es`. */
  method WriteColumnAt(j: BlockJob, cscftab: array<seq<int>>, rowtab: array<int>, vals: array<Complex>, jg: int,
                       ghost es: seq<Entry>, ghost total: seq<Entry>)
    requires 0 <= jg < j.p.spm.n && j.p.ColumnOK(jg) && Fill(j, cscftab[..], rowtab[..], vals[..], es)
    requires Fits(j, total) && es + ColumnAt(j.p, jg, j.p.First(jg + 1)) <= total
    modifies cscftab, rowtab, vals
    ensures Fill(j, cscftab[..], rowtab[..], vals[..], es + ColumnAt(j.p, jg, j.p.First(jg + 1)))
  {
    hide Fits, Fill, Whole, MirrorOf, IsLocal;
    assert es + ColumnAt(j.p, jg, j.p.First(jg)) == es;
    for k := j.p.First(jg) to j.p.First(jg + 1)
      invariant Fill(j, cscftab[..], rowtab[..], vals[..], es + ColumnAt(j.p, jg, k))
    {
      MirrorNext(j.p, jg, k, es, total);
      WriteMirror(j, cscftab, rowtab, vals, jg, k, es + ColumnAt(j.p, jg, k), total);
    }
  }

  method InitColumnAt(j: BlockJob, cscftab: array<seq<int>>, rowtab: array<int>, vals: array<Complex>, jg: int,
                      ghost es: seq<Entry>, ghost total: seq<Entry>)
    requires 0 <= jg < j.p.spm.n && Fill(j, cscftab[..], rowtab[..], vals[..], es + AllAt(j.p, jg))
    requires Fits(j, total) && es + AllAt(j.p, j.p.spm.n) <= total
    modifies cscftab, rowtab, vals
    ensures Fill(j, cscftab[..], rowtab[..], vals[..], es + AllAt(j.p, jg + 1))
  {
    hide Fits, Fill, Whole, ColumnAt, AllAt, IsLocal;
    AllAtPrefix(j.p, jg + 1, j.p.spm.n);
    AllAtStep(j.p, jg);
    PrefixOf(es, AllAt(j.p, jg + 1), AllAt(j.p, j.p.spm.n), total);
    Assoc(es, AllAt(j.p, jg), ColumnAt(j.p, jg, j.p.First(jg + 1)));
    WriteColumnAt(j, cscftab, rowtab, vals, jg, es + AllAt(j.p, jg), total);
  }

  /** The mirrored values, after the writes `es`. */
  method InitAt(j: BlockJob, cscftab: array<seq<int>>, rowtab: array<int>, vals: array<Complex>, ghost es: seq<Entry>,
          ghost total: seq<Entry>)
    requires Fill(j, cscftab[..], rowtab[..], vals[..], es) && Fits(j, total) && es + AllAt(j.p, j.p.spm.n) <= total
    modifies cscftab, rowtab, vals
    ensures Fill(j, cscftab[..], rowtab[..], vals[..], es + AllAt(j.p, j.p.spm.n))
  {
    hide Fits, Fill, Problem.Valid, Whole, ColumnAt, IsLocal;
    Basics(j.p);
    assert es + AllAt(j.p, 0) == es;
    for jg := 0 to j.p.spm.n
      invariant Fill(j, cscftab[..], rowtab[..], vals[..], es + AllAt(j.p, jg))
    {
      InitColumnAt(j, cscftab, rowtab, vals, jg, es, total);
    }
  }

  // ----- the whole initialization -----

  lemma WrittenFits(j: BlockJob)
    ensures Fits(j, Written(j.p, j.p.spm.n)) && AllA(j.p, j.p.spm.n) <= Written(j.p, j.p.spm.n)
  {
  }

  lemma NothingWritten(j: BlockJob, tab: seq<seq<int>>, rows: seq<int>, vals: seq<Complex>)
    requires IsColtab(j.l, Size(j), tab) && |rows| == |vals| == Start(j.l, Size(j), |Size(j)|)
    ensures Fill(j, tab, rows, vals, [])
  {
  }

  /** Every local column holds exactly the entries `es`, and starts where the table says. */
  ghost predicate Stored(j: BlockJob, tab: seq<seq<int>>, rows: seq<int>, vals: seq<Complex>, es: seq<Entry>) {
    IsColtab(j.l, Size(j), tab) && Filled(j.l, Size(j), rows, vals, es) && Fits(j, es)
  }

  lemma FilledIsStored(j: BlockJob, tab: seq<seq<int>>, rows: seq<int>, vals: seq<Complex>, es: seq<Entry>)
    requires IsColtab(j.l, Size(j), tab) && Filled(j.l, Size(j), rows, vals, es) && Fits(j, es)
    ensures Stored(j, tab, rows, vals, es)
  {
  }

  lemma FillParts(j: BlockJob, tab: seq<seq<int>>, rows: seq<int>, vals: seq<Complex>, es: seq<Entry>)
    requires Fill(j, tab, rows, vals, es) && Fits(j, es)
    ensures Cursors(j.l, Size(j), tab, es) && Filled(j.l, Size(j), rows, vals, es) && SizesOK(j.l, Size(j))
    ensures forall c :: 0 <= c < |Size(j)| && IsLocal(j.l, c) ==> |Pick(es, c)| == Size(j)[c]
  {
  }

  /** Count, lay out, write the matrix and its mirror, restore the starts. */
  method Zinit(j: BlockJob, cscftab: array<seq<int>>) returns (idxcol: int, rowtab: array<int>, lvalues: array<Complex>)
    requires cscftab.Length == |j.l.cblks|
    modifies cscftab
    ensures fresh(rowtab) && fresh(lvalues) && idxcol == Start(j.l, Size(j), |Size(j)|)
    ensures Stored(j, cscftab[..], rowtab[..], lvalues[..], Written(j.p, j.p.spm.n))
  {
    hide Fill, Fits, Cursors, Filled, IsColtab, Whole, Start, IsLocal, Size, Stored, AllA, AllAt;
    idxcol := InitColtab(j, cscftab);
    StartNonNegative(j);
    rowtab := new int[idxcol](_ => 0);
    lvalues := new Complex[idxcol](_ => Complex(0.0, 0.0));
    NothingWritten(j, cscftab[..], rowtab[..], lvalues[..]);
    ghost var total := Written(j.p, j.p.spm.n);
    WrittenFits(j);
    InitA(j, cscftab, rowtab, lvalues, total);
    if j.p.spm.mtxtype != General {
      InitAt(j, cscftab, rowtab, lvalues, AllA(j.p, j.p.spm.n), total);
    } else {
      assert total == AllA(j.p, j.p.spm.n);
    }
    FillParts(j, cscftab[..], rowtab[..], lvalues[..], total);
    RestoreColtab(j.l, cscftab, Size(j), total);
    FilledIsStored(j, cscftab[..], rowtab[..], lvalues[..], total);
  }

  /** No place is used twice: entries of one column, or of two, stand apart. */
  lemma PlacesApart(j: BlockJob, c: int, d: int, x: int, y: int)
    requires 0 <= c < |Size(j)| && 0 <= d < |Size(j)| && IsLocal(j.l, c) && IsLocal(j.l, d) && (c != d || x != y)
    requires 0 <= x < Size(j)[c] && 0 <= y < Size(j)[d]
    ensures Start(j.l, Size(j), c) + x != Start(j.l, Size(j), d) + y
  {
    hide Size;
    if c < d {
      StartOrder(j.l, Size(j), c, d);
    } else if d < c {
      StartOrder(j.l, Size(j), d, c);
    }
  }

  lemma StartNonNegative(j: BlockJob)
    ensures Start(j.l, Size(j), |Size(j)|) >= 0
  {
    hide Size;
    StartOrder(j.l, Size(j), 0, |Size(j)|);
  }

  /** The transpose of a general matrix, on the same start table: it fits exactly when
      each node has as many row entries as column entries. */
  method ZinitTranspose(j: BlockJob, cscftab: array<seq<int>>, valuesize: int)
      returns (trowtab: array<int>, uvalues: array<Complex>)
    requires j.p.spm.mtxtype == General && cscftab.Length == |j.l.cblks| && IsColtab(j.l, Size(j), cscftab[..])
    requires valuesize == Start(j.l, Size(j), |Size(j)|) && Fits(j, AllAt(j.p, j.p.spm.n))
    modifies cscftab
    ensures fresh(trowtab) && fresh(uvalues)
    ensures Stored(j, cscftab[..], trowtab[..], uvalues[..], AllAt(j.p, j.p.spm.n))
  {
    hide Fill, Fits, Cursors, Filled, IsColtab, Whole, IsLocal, Size, Stored, AllAt;
    StartNonNegative(j);
    trowtab := new int[valuesize](_ => -1);
    uvalues := new Complex[valuesize](_ => Complex(0.0, 0.0));
    NothingWritten(j, cscftab[..], trowtab[..], uvalues[..]);
    ghost var total := AllAt(j.p, j.p.spm.n);
    assert [] + total == total;
    InitAt(j, cscftab, trowtab, uvalues, [], total);
    FillParts(j, cscftab[..], trowtab[..], uvalues[..], total);
    RestoreColtab(j.l, cscftab, Size(j), total);
    FilledIsStored(j, cscftab[..], trowtab[..], uvalues[..], total);
  }

  /** Rows (expanded) that the transpose of column `jg`, before entry `k`, adds to node `i`. */
  ghost function TransposeColumn(p: Valued, i: int, jg: int, k: int): int
    requires 0 <= jg < p.spm.n && p.First(jg) <= k <= p.First(jg + 1)
    decreases k - p.First(jg)
  {
    assert p.ColumnOK(jg);
    if k == p.First(jg) then 0
    else TransposeColumn(p, i, jg, k - 1) + (if p.permtab[p.Row(k - 1)] == i then p.spm.dof else 0)
  }

  ghost function TransposeCount(p: Valued, i: int, jg: int): int
    requires 0 <= jg <= p.spm.n
  {
    if jg == 0 then 0 else
    assert p.ColumnOK(jg - 1);
    TransposeCount(p, i, jg - 1) + TransposeColumn(p, i, jg - 1, p.First(jg))
  }

  lemma {:induction false} TransposeColumnSize(p: Valued, i: int, jg: int, k: int, c: int)
    requires 0 <= jg < p.spm.n && p.First(jg) <= k <= p.First(jg + 1) && InNode(p.spm.dof, i, c)
    requires p.spm.mtxtype == General
    ensures |Pick(ColumnAt(p, jg, k), c)| == TransposeColumn(p, i, jg, k)
    decreases k - p.First(jg)
  {
    hide Pick, BlockAt;
    PickNone(c);
    assert p.ColumnOK(jg);
    if k > p.First(jg) {
      TransposeColumnSize(p, i, jg, k - 1, c);
      var r := p.Row(k - 1);
      assert 0 <= r < p.spm.n;
      PickBlockAt(p, k - 1, New(p, r), New(p, jg), p.spm.dof, c);
      PickJoin(ColumnAt(p, jg, k - 1), MirrorOf(p, jg, k - 1), c);
      NodeOf(p, i, r, c);
    }
  }

  lemma {:induction false} TransposeSize(p: Valued, i: int, jg: int, c: int)
    requires 0 <= jg <= p.spm.n && InNode(p.spm.dof, i, c) && p.spm.mtxtype == General
    ensures |Pick(AllAt(p, jg), c)| == TransposeCount(p, i, jg)
  {
    hide Pick, ColumnAt;
    PickNone(c);
    if jg > 0 {
      assert p.ColumnOK(jg - 1);
      TransposeSize(p, i, jg - 1, c);
      TransposeColumnSize(p, i, jg - 1, p.First(jg), c);
      PickJoin(AllAt(p, jg - 1), ColumnAt(p, jg - 1, p.First(jg)), c);
    }
  }

  /** The transpose fits in the places of the matrix exactly when every node has as many
      row entries as column entries, as with a symmetric pattern. */
  lemma TransposeFits(j: BlockJob)
    requires j.p.spm.mtxtype == General
    ensures Fits(j, AllAt(j.p, j.p.spm.n)) <==>
      forall c :: 0 <= c < |Size(j)| && IsLocal(j.l, c) ==>
        TransposeCount(j.p, c / j.p.spm.dof, j.p.spm.n) == NodeCount(j.p, c / j.p.spm.dof, j.p.spm.n)
  {
    hide Whole, AllAt, AllA, Written;
    forall c | 0 <= c < |Size(j)| && IsLocal(j.l, c)
      ensures |Pick(AllAt(j.p, j.p.spm.n), c)| == TransposeCount(j.p, c / j.p.spm.dof, j.p.spm.n)
      ensures Size(j)[c] == NodeCount(j.p, c / j.p.spm.dof, j.p.spm.n)
    {
      NodeOfColumn(j.p.spm.dof, c);
      TransposeSize(j.p, c / j.p.spm.dof, j.p.spm.n, c);
      SizeAt(j, c);
    }
  }

  /** A general matrix of two unknowns with one entry, below the diagonal. */
  ghost function Lopsided(): (j: BlockJob)
    ensures j.p.spm.mtxtype == General && |Size(j)| == 2 && IsLocal(j.l, 0)
  {
    var p := Problem(Spm(2, 1, 0, General, [0, 1, 1], [1], [Complex(1.0, 0.0)]), [0, 1]);
    var j := Job(p, Layout([ColBlk(0, 1)], [0, 0]));
    assert p.ColumnOK(0) && p.ColumnOK(1);
    assert BlkOK(j.l, 0) && ColOK(j.l, 0) && ColOK(j.l, 1);
    j
  }

  /** Its transpose does not fit: the first column has an entry, the first row has none. */
  lemma TransposeMayNotFit()
    ensures !Fits(Lopsided(), AllAt(Lopsided().p, Lopsided().p.spm.n))
  {
    hide Fits, AllAt;
    var j := Lopsided();
    TransposeFits(j);
    assert j.p.ColumnOK(0) && j.p.ColumnOK(1) && j.p.Row(0) == 1;
    assert TransposeColumn(j.p, 0, 0, 0) == 0;
    assert TransposeColumn(j.p, 0, 0, 1) == 0 && TransposeColumn(j.p, 0, 1, 1) == 0;
    assert TransposeCount(j.p, 0, 1) == 0 && TransposeCount(j.p, 0, 2) == 0;
    assert NodeCount(j.p, 0, 1) == 1 && NodeCount(j.p, 0, 2) == 1;
    assert 0 / j.p.spm.dof == 0;
  }
}
