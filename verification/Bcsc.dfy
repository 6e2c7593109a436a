/** The permuted matrix in compressed blocks: sizes of its columns, its entries in the
    order they are met, and what they amount to. Every unknown has `dof` degrees of freedom. */
module Bcsc {
  import opened BcscFill

  datatype MtxType = General | Symmetric | Hermitian

  /** A sparse matrix by columns; each entry is a `dof` x `dof` block, stored by columns. */
  datatype Spm = Spm(n: int, dof: int, baseval: int, mtxtype: MtxType, colptr: seq<int>, rowptr: seq<int>,
      values: seq<Complex>)

  /** The matrix and the permutation of its unknowns. */
  datatype Problem = Problem(spm: Spm, permtab: seq<int>) {

    function First(j: int): int
      requires 0 <= j < |spm.colptr|
    {
      spm.colptr[j] - spm.baseval
    }

    /** Row of entry `k`. */
    function Row(k: int): int
      requires 0 <= k < |spm.rowptr|
    {
      spm.rowptr[k] - spm.baseval
    }

    ghost predicate ColumnOK(j: int)
      requires 0 <= j < spm.n == |spm.colptr| - 1
    {
      0 <= First(j) <= First(j + 1) <= |spm.rowptr|
    }

    ghost predicate Valid() {
      && 0 <= spm.n == |spm.colptr| - 1 && spm.dof > 0
      && First(0) == 0 && First(spm.n) == |spm.rowptr|
      && (forall j :: 0 <= j < spm.n ==> ColumnOK(j))
      && (forall k :: 0 <= k < |spm.rowptr| ==> 0 <= Row(k) < spm.n)
      && |spm.values| == |spm.rowptr| * spm.dof * spm.dof
      && |permtab| == spm.n
      && (forall i :: 0 <= i < spm.n ==> 0 <= permtab[i] < spm.n)
      && (forall i, j :: 0 <= i < j < spm.n ==> permtab[i] != permtab[j])
    }

    /** Value `a`, `b` of the block of entry `k`: column `a` of the block, row `b`. */
    ghost function Value(k: int, a: int, b: int): Complex {
      var x := (k * spm.dof + a) * spm.dof + b;
      if 0 <= x < |spm.values| then spm.values[x] else Complex(0.0, 0.0)
    }

    /** Mirrored values are conjugated in a Hermitian matrix. */
    function Mirror(z: Complex): Complex {
      if spm.mtxtype == Hermitian then Conj(z) else z
    }
  }

  type Valued = p: Problem | p.Valid() witness Problem(Spm(0, 1, 0, General, [0], [], []), [])

  // ----- entries in writing order -----

  /** First `m` values of column `a` of entry `k`, down column `col` from row `row`. */
  ghost function ColRun(p: Problem, k: int, a: int, col: int, row: int, m: nat): seq<Entry> {
    if m == 0 then [] else ColRun(p, k, a, col, row, m - 1) + [Entry(col, row + m - 1, p.Value(k, a, m - 1))]
  }

  /** First `m` columns of the block of entry `k`, in place. */
  ghost function BlockA(p: Problem, k: int, col: int, row: int, m: nat): seq<Entry>
    requires p.spm.dof >= 0
  {
    if m == 0 then [] else BlockA(p, k, col, row, m - 1) + ColRun(p, k, m - 1, col + m - 1, row, p.spm.dof)
  }

  /** First `m` values of column `a` of entry `k`, mirrored along row `row` from column `col`. */
  ghost function RowRun(p: Problem, k: int, a: int, col: int, row: int, m: nat): seq<Entry> {
    if m == 0 then [] else RowRun(p, k, a, col, row, m - 1) + [Entry(col + m - 1, row, p.Mirror(p.Value(k, a, m - 1)))]
  }

  /** First `m` columns of the block of entry `k`, mirrored. */
  ghost function BlockAt(p: Problem, k: int, col: int, row: int, m: nat): seq<Entry>
    requires p.spm.dof >= 0
  {
    if m == 0 then [] else BlockAt(p, k, col, row, m - 1) + RowRun(p, k, m - 1, col, row + m - 1, p.spm.dof)
  }

  /** First expanded index of unknown `i` once permuted. */
  ghost function New(p: Valued, i: int): int
    requires 0 <= i < p.spm.n
  {
    p.permtab[i] * p.spm.dof
  }

  /** Entries of column `j` before entry `k`. */
  ghost function ColumnA(p: Valued, j: int, k: int): seq<Entry>
    requires 0 <= j < p.spm.n && p.First(j) <= k <= p.First(j + 1)
    decreases k
  {
    assert p.ColumnOK(j);
    if k == p.First(j) then [] else ColumnA(p, j, k - 1) + BlockA(p, k - 1, New(p, j), New(p, p.Row(k - 1)), p.spm.dof)
  }

  ghost function AllA(p: Valued, j: int): seq<Entry>
    requires 0 <= j <= p.spm.n
  {
    if j == 0 then [] else
    assert p.ColumnOK(j - 1);
    AllA(p, j - 1) + ColumnA(p, j - 1, p.First(j))
  }

  /** Mirrored entries of column `j` before entry `k`: not the diagonal, unless the matrix is general. */
  ghost function ColumnAt(p: Valued, j: int, k: int): seq<Entry>
    requires 0 <= j < p.spm.n && p.First(j) <= k <= p.First(j + 1)
    decreases k
  {
    assert p.ColumnOK(j);
    if k == p.First(j) then [] else ColumnAt(p, j, k - 1) + MirrorOf(p, j, k - 1)
  }

  ghost function MirrorOf(p: Valued, j: int, k: int): seq<Entry>
    requires 0 <= j < p.spm.n && 0 <= k < |p.spm.rowptr|
  {
    if p.Row(k) == j && p.spm.mtxtype != General then [] else BlockAt(p, k, New(p, p.Row(k)), New(p, j), p.spm.dof)
  }

  ghost function AllAt(p: Valued, j: int): seq<Entry>
    requires 0 <= j <= p.spm.n
  {
    if j == 0 then [] else
    assert p.ColumnOK(j - 1);
    AllAt(p, j - 1) + ColumnAt(p, j - 1, p.First(j))
  }

  // ----- sizes of the columns -----

  /** Expanded column `c` belongs to node `i`. */
  ghost predicate InNode(dof: int, i: int, c: int) {
    i * dof <= c < i * dof + dof
  }

  /** Rows (expanded) that the mirrored entries of column `j` before `k` add to node `i`. */
  ghost function MirrorCount(p: Valued, i: int, j: int, k: int): int
    requires 0 <= j < p.spm.n && p.First(j) <= k <= p.First(j + 1)
    decreases k
  {
    assert p.ColumnOK(j);
    if k == p.First(j) || p.spm.mtxtype == General then 0
    else MirrorCount(p, i, j, k - 1) + (if p.Row(k - 1) != j && p.permtab[p.Row(k - 1)] == i then p.spm.dof else 0)
  }

  /** Rows (expanded) that the entries of column `j` add to node `i`, in place. */
  ghost function InPlaceCount(p: Valued, i: int, j: int, k: int): int
    requires 0 <= j < p.spm.n
  {
    if p.permtab[j] == i then (k - p.First(j)) * p.spm.dof else 0
  }

  /** Size of each column of node `i`, from the columns before `j`. */
  ghost function NodeCount(p: Valued, i: int, j: int): int
    requires 0 <= j <= p.spm.n
  {
    if j == 0 then 0 else
    assert p.ColumnOK(j - 1);
    NodeCount(p, i, j - 1) + InPlaceCount(p, i, j - 1, p.First(j)) + MirrorCount(p, i, j - 1, p.First(j))
  }

  /** Sizes of the columns: what each column of the matrix holds, and what its mirror adds. */
  method InitGlobalColtab(p: Valued, globcol: array<int>)
    requires globcol.Length == p.spm.n && forall i :: 0 <= i < globcol.Length ==> globcol[i] == 0
    modifies globcol
    ensures forall i :: 0 <= i < globcol.Length ==> globcol[i] == NodeCount(p, i, p.spm.n)
  {
    for j := 0 to p.spm.n
      invariant forall i :: 0 <= i < globcol.Length ==> globcol[i] == NodeCount(p, i, j)
    {
      assert p.ColumnOK(j);
      var jgp := p.permtab[j];
      var frow := p.spm.colptr[j] - p.spm.baseval;
      var lrow := p.spm.colptr[j + 1] - p.spm.baseval;
      assert lrow - frow >= 0;
      globcol[jgp] := globcol[jgp] + (lrow - frow) * p.spm.dof;
      if p.spm.mtxtype != General {
        CountMirrors(p, globcol, j);
      }
    }
  }

  method CountMirrors(p: Valued, globcol: array<int>, j: int)
    requires 0 <= j < p.spm.n == globcol.Length && p.spm.mtxtype != General
    modifies globcol
    ensures p.ColumnOK(j) && forall i :: 0 <= i < globcol.Length ==>
      globcol[i] == old(globcol[i]) + MirrorCount(p, i, j, p.First(j + 1))
  {
    assert p.ColumnOK(j);
    for k := p.spm.colptr[j] - p.spm.baseval to p.spm.colptr[j + 1] - p.spm.baseval
      invariant forall i :: 0 <= i < globcol.Length ==> globcol[i] == old(globcol[i]) + MirrorCount(p, i, j, k)
    {
      var ig := p.spm.rowptr[k] - p.spm.baseval;
      assert 0 <= p.Row(k) < p.spm.n;
      if ig != j {
        var igp := p.permtab[ig];
        globcol[igp] := globcol[igp] + p.spm.dof;
      }
    }
  }

  // ----- the sizes are those of the entries -----

  lemma {:induction false} NodesApart(dof: int, i: int, i': int)
    requires dof >= 0 && i < i'
    ensures i * dof + dof <= i' * dof
    decreases i' - i
  {
    if i + 1 < i' {
      NodesApart(dof, i, i' - 1);
    }
  }

  lemma OneNode(dof: int, i: int, i': int, c: int)
    requires dof >= 0 && InNode(dof, i, c) && InNode(dof, i', c)
    ensures i == i'
  {
    if i < i' {
      NodesApart(dof, i, i');
    } else if i' < i {
      NodesApart(dof, i', i);
    }
  }

  lemma {:induction false} PickColRun(p: Problem, k: int, a: int, col: int, row: int, m: nat, c: int)
    ensures |Pick(ColRun(p, k, a, col, row, m), c)| == if c == col then m else 0
  {
    hide Pick;
    PickNone(c);
    if m > 0 {
      PickColRun(p, k, a, col, row, m - 1, c);
      PickMore(ColRun(p, k, a, col, row, m - 1), Entry(col, row + m - 1, p.Value(k, a, m - 1)), c);
    }
  }

  lemma {:induction false} PickBlockA(p: Problem, k: int, col: int, row: int, m: nat, c: int)
    requires p.spm.dof >= 0
    ensures |Pick(BlockA(p, k, col, row, m), c)| == if col <= c < col + m then p.spm.dof else 0
  {
    hide Pick, ColRun;
    PickNone(c);
    if m > 0 {
      PickBlockA(p, k, col, row, m - 1, c);
      PickColRun(p, k, m - 1, col + m - 1, row, p.spm.dof, c);
      PickJoin(BlockA(p, k, col, row, m - 1), ColRun(p, k, m - 1, col + m - 1, row, p.spm.dof), c);
    }
  }

  lemma {:induction false} PickRowRun(p: Problem, k: int, a: int, col: int, row: int, m: nat, c: int)
    ensures |Pick(RowRun(p, k, a, col, row, m), c)| == if col <= c < col + m then 1 else 0
  {
    hide Pick;
    PickNone(c);
    if m > 0 {
      PickRowRun(p, k, a, col, row, m - 1, c);
      PickMore(RowRun(p, k, a, col, row, m - 1), Entry(col + m - 1, row, p.Mirror(p.Value(k, a, m - 1))), c);
    }
  }

  lemma {:induction false} PickBlockAt(p: Problem, k: int, col: int, row: int, m: nat, c: int)
    requires p.spm.dof >= 0
    ensures |Pick(BlockAt(p, k, col, row, m), c)| == if col <= c < col + p.spm.dof then m else 0
  {
    hide Pick, RowRun;
    PickNone(c);
    if m > 0 {
      PickBlockAt(p, k, col, row, m - 1, c);
      PickRowRun(p, k, m - 1, col, row + m - 1, p.spm.dof, c);
      PickJoin(BlockAt(p, k, col, row, m - 1), RowRun(p, k, m - 1, col, row + m - 1, p.spm.dof), c);
    }
  }

  /** Column `c` of node `i` is among those of unknown `u` exactly when `u` becomes `i`. */
  lemma NodeOf(p: Valued, i: int, u: int, c: int)
    requires 0 <= u < p.spm.n && InNode(p.spm.dof, i, c)
    ensures New(p, u) <= c < New(p, u) + p.spm.dof <==> p.permtab[u] == i
  {
    if New(p, u) <= c < New(p, u) + p.spm.dof {
      OneNode(p.spm.dof, i, p.permtab[u], c);
    }
  }

  lemma {:induction false} ColumnASize(p: Valued, i: int, j: int, k: int, c: int)
    requires 0 <= j < p.spm.n && p.First(j) <= k <= p.First(j + 1) && InNode(p.spm.dof, i, c)
    ensures |Pick(ColumnA(p, j, k), c)| == InPlaceCount(p, i, j, k)
    decreases k
  {
    hide Pick, BlockA;
    PickNone(c);
    assert p.ColumnOK(j);
    if k > p.First(j) {
      ColumnASize(p, i, j, k - 1, c);
      assert 0 <= p.Row(k - 1) < p.spm.n;
      PickBlockA(p, k - 1, New(p, j), New(p, p.Row(k - 1)), p.spm.dof, c);
      PickJoin(ColumnA(p, j, k - 1), BlockA(p, k - 1, New(p, j), New(p, p.Row(k - 1)), p.spm.dof), c);
      NodeOf(p, i, j, c);
      Product(k - 1 - p.First(j), p.spm.dof);
    }
  }

  lemma Product(x: int, dof: int)
    ensures (x + 1) * dof == x * dof + dof
  {
  }

  lemma {:induction false} ColumnAtSize(p: Valued, i: int, j: int, k: int, c: int)
    requires 0 <= j < p.spm.n && p.First(j) <= k <= p.First(j + 1) && InNode(p.spm.dof, i, c)
    requires p.spm.mtxtype != General
    ensures |Pick(ColumnAt(p, j, k), c)| == MirrorCount(p, i, j, k)
    decreases k
  {
    hide Pick, BlockAt;
    PickNone(c);
    assert p.ColumnOK(j);
    if k > p.First(j) {
      ColumnAtSize(p, i, j, k - 1, c);
      var r := p.Row(k - 1);
      assert 0 <= r < p.spm.n;
      PickBlockAt(p, k - 1, New(p, r), New(p, j), p.spm.dof, c);
      PickJoin(ColumnAt(p, j, k - 1), MirrorOf(p, j, k - 1), c);
      NodeOf(p, i, r, c);
    }
  }

  /** What is written in each column: the matrix and, unless it is general, its mirror. */
  ghost function Written(p: Valued, j: int): seq<Entry>
    requires 0 <= j <= p.spm.n
  {
    AllA(p, p.spm.n) + (if p.spm.mtxtype == General then [] else AllAt(p, j))
  }

  lemma {:induction false} AllASize(p: Valued, i: int, j: int, c: int)
    requires 0 <= j <= p.spm.n && InNode(p.spm.dof, i, c)
    ensures |Pick(AllA(p, j), c)| + (if p.spm.mtxtype == General then 0 else |Pick(AllAt(p, j), c)|)
        == NodeCount(p, i, j)
  {
    hide Pick, ColumnA, ColumnAt, InPlaceCount;
    PickNone(c);
    if j > 0 {
      assert p.ColumnOK(j - 1);
      AllASize(p, i, j - 1, c);
      ColumnASize(p, i, j - 1, p.First(j), c);
      PickJoin(AllA(p, j - 1), ColumnA(p, j - 1, p.First(j)), c);
      PickJoin(AllAt(p, j - 1), ColumnAt(p, j - 1, p.First(j)), c);
      if p.spm.mtxtype != General {
        ColumnAtSize(p, i, j - 1, p.First(j), c);
      }
    }
  }

  /** The counted size of a column is exactly what gets written in it. */
  lemma SizeIsWritten(p: Valued, i: int, c: int)
    requires InNode(p.spm.dof, i, c)
    ensures |Pick(Written(p, p.spm.n), c)| == NodeCount(p, i, p.spm.n)
  {
    AllASize(p, i, p.spm.n, c);
    PickJoin(AllA(p, p.spm.n), if p.spm.mtxtype == General then [] else AllAt(p, p.spm.n), c);
  }
}
