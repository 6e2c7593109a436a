/** What the stored entries amount to: the permuted matrix, completed by its mirror when
    only one half of it is given. */
module BcscMeaning {
  import opened BcscFill
  import opened Bcsc
  import opened BcscInit
  import opened BcscWrite
  import opened BcscMirror

  function Add(a: Complex, b: Complex): Complex {
    Complex(a.re + b.re, a.im + b.im)
  }

  const ZERO := Complex(0.0, 0.0)

  /** Sum of the entries at row `r` of column `c`. */
  ghost function At(es: seq<Entry>, r: int, c: int): Complex {
    if es == [] then ZERO else
    var e := es[|es| - 1];
    Add(At(es[..|es| - 1], r, c), if e.col == c && e.row == r then e.value else ZERO)
  }

  lemma AtNone(r: int, c: int)
    ensures At([], r, c) == ZERO
  {
  }

  lemma AtMore(es: seq<Entry>, e: Entry, r: int, c: int)
    ensures At(es + [e], r, c) == Add(At(es, r, c), if e.col == c && e.row == r then e.value else ZERO)
  {
    assert (es + [e])[..|es + [e]| - 1] == es;
  }

  lemma {:induction false} AtJoin(es: seq<Entry>, fs: seq<Entry>, r: int, c: int)
    ensures At(es + fs, r, c) == Add(At(es, r, c), At(fs, r, c))
  {
    if fs == [] {
      assert es + fs == es;
    } else {
      var last := fs[|fs| - 1];
      var init := fs[..|fs| - 1];
      assert es + fs == (es + init) + [last] && fs == init + [last];
      AtMore(es + init, last, r, c);
      AtMore(init, last, r, c);
      AtJoin(es, init, r, c);
    }
  }

  /** Only the entries of column `c` matter. */
  lemma {:induction false} AtOfPick(es: seq<Entry>, r: int, c: int)
    ensures At(Pick(es, c), r, c) == At(es, r, c)
  {
    if es != [] {
      var init := es[..|es| - 1];
      AtOfPick(init, r, c);
      if es[|es| - 1].col == c {
        AtMore(Pick(init, c), es[|es| - 1], r, c);
      } else {
        assert Pick(es, c) == Pick(init, c);
      }
    }
  }

  // ----- blocks -----

  lemma {:induction false} AtColRun(p: Problem, k: int, a: int, col: int, row: int, m: nat, r: int, c: int)
    ensures At(ColRun(p, k, a, col, row, m), r, c)
         == if c == col && row <= r < row + m then p.Value(k, a, r - row) else ZERO
  {
    hide At;
    AtNone(r, c);
    if m > 0 {
      AtColRun(p, k, a, col, row, m - 1, r, c);
      AtMore(ColRun(p, k, a, col, row, m - 1), Entry(col, row + m - 1, p.Value(k, a, m - 1)), r, c);
    }
  }

  lemma {:induction false} AtBlockA(p: Problem, k: int, col: int, row: int, m: nat, r: int, c: int)
    requires p.spm.dof >= 0
    ensures At(BlockA(p, k, col, row, m), r, c)
         == if col <= c < col + m && row <= r < row + p.spm.dof then p.Value(k, c - col, r - row) else ZERO
  {
    hide At, ColRun;
    AtNone(r, c);
    if m > 0 {
      AtBlockA(p, k, col, row, m - 1, r, c);
      AtColRun(p, k, m - 1, col + m - 1, row, p.spm.dof, r, c);
      AtJoin(BlockA(p, k, col, row, m - 1), ColRun(p, k, m - 1, col + m - 1, row, p.spm.dof), r, c);
    }
  }

  lemma {:induction false} AtRowRun(p: Problem, k: int, a: int, col: int, row: int, m: nat, r: int, c: int)
    ensures At(RowRun(p, k, a, col, row, m), r, c)
         == if r == row && col <= c < col + m then p.Mirror(p.Value(k, a, c - col)) else ZERO
  {
    hide At;
    AtNone(r, c);
    if m > 0 {
      AtRowRun(p, k, a, col, row, m - 1, r, c);
      AtMore(RowRun(p, k, a, col, row, m - 1), Entry(col + m - 1, row, p.Mirror(p.Value(k, a, m - 1))), r, c);
    }
  }

  lemma {:induction false} AtBlockAt(p: Problem, k: int, col: int, row: int, m: nat, r: int, c: int)
    requires p.spm.dof >= 0
    ensures At(BlockAt(p, k, col, row, m), r, c)
         == if row <= r < row + m && col <= c < col + p.spm.dof then p.Mirror(p.Value(k, r - row, c - col)) else ZERO
  {
    hide At, RowRun;
    AtNone(r, c);
    if m > 0 {
      AtBlockAt(p, k, col, row, m - 1, r, c);
      AtRowRun(p, k, m - 1, col, row + m - 1, p.spm.dof, r, c);
      AtJoin(BlockAt(p, k, col, row, m - 1), RowRun(p, k, m - 1, col, row + m - 1, p.spm.dof), r, c);
    }
  }

  // ----- the permuted matrix -----

  /** Sum, over the entries `lo` to `hi - 1` that stand at row `i`, of the value at column
      `a`, row `b` of their block. */
  ghost function EntrySum(p: Valued, i: int, a: int, b: int, lo: int, hi: int): Complex
    requires 0 <= lo <= hi <= |p.spm.rowptr| && 0 <= a < p.spm.dof && 0 <= b < p.spm.dof
    decreases hi - lo
  {
    if hi == lo then ZERO else
    ValueIndex(p, hi - 1, a, b);
    Add(EntrySum(p, i, a, b, lo, hi - 1),
        if p.spm.rowptr[hi - 1] - p.spm.baseval == i then p.spm.values[((hi - 1) * p.spm.dof + a) * p.spm.dof + b]
        else ZERO)
  }

  /** Value of the given matrix at row `r`, column `c`: repeated entries add up. */
  ghost function Matrix(p: Valued, r: int, c: int): Complex
    requires 0 <= c / p.spm.dof < p.spm.n
  {
    var j := c / p.spm.dof;
    assert p.ColumnOK(j);
    EntrySum(p, r / p.spm.dof, c % p.spm.dof, r % p.spm.dof,
             p.spm.colptr[j] - p.spm.baseval, p.spm.colptr[j + 1] - p.spm.baseval)
  }

  /** New place of the expanded unknown `x`. */
  ghost function Place(p: Valued, x: int): int
    requires 0 <= x / p.spm.dof < p.spm.n
  {
    p.permtab[x / p.spm.dof] * p.spm.dof + x % p.spm.dof
  }

  /** `x` belongs to unknown `u` exactly when its place is one of those of `u`. */
  lemma PlaceInNode(p: Valued, u: int, x: int)
    requires 0 <= u < p.spm.n && 0 <= x / p.spm.dof < p.spm.n
    ensures New(p, u) <= Place(p, x) < New(p, u) + p.spm.dof <==> x / p.spm.dof == u
    ensures x / p.spm.dof == u ==> Place(p, x) - New(p, u) == x % p.spm.dof
  {
    var dof := p.spm.dof;
    if New(p, u) <= Place(p, x) < New(p, u) + dof {
      OneNode(dof, p.permtab[u], p.permtab[x / dof], Place(p, x));
    }
  }

  /** What entry `k` gives at row `i`, at column `a`, row `b` of its block. */
  ghost function AtRow(p: Valued, i: int, a: int, b: int, k: int): Complex
    requires 0 <= k < |p.spm.rowptr|
  {
    if p.Row(k) == i then p.Value(k, a, b) else ZERO
  }

  lemma EntryMore(p: Valued, i: int, a: int, b: int, lo: int, hi: int)
    requires 0 <= lo <= hi < |p.spm.rowptr| && 0 <= a < p.spm.dof && 0 <= b < p.spm.dof
    ensures EntrySum(p, i, a, b, lo, hi + 1) == Add(EntrySum(p, i, a, b, lo, hi), AtRow(p, i, a, b, hi))
  {
    ValueIndex(p, hi, a, b);
  }

  lemma EntryNone(p: Valued, i: int, a: int, b: int, lo: int)
    requires 0 <= lo <= |p.spm.rowptr| && 0 <= a < p.spm.dof && 0 <= b < p.spm.dof
    ensures EntrySum(p, i, a, b, lo, lo) == ZERO
  {
  }

  lemma AddZero(a: Complex)
    ensures Add(a, ZERO) == a == Add(ZERO, a)
  {
  }

  /** A block put in place holds its values at the new places of its rows and columns. */
  lemma AtEntry(p: Valued, j: int, k: int, r: int, c: int)
    requires 0 <= j < p.spm.n && 0 <= k < |p.spm.rowptr| && 0 <= p.Row(k) < p.spm.n
    requires 0 <= r / p.spm.dof < p.spm.n && 0 <= c / p.spm.dof < p.spm.n
    ensures At(BlockA(p, k, New(p, j), New(p, p.Row(k)), p.spm.dof), Place(p, r), Place(p, c))
         == if c / p.spm.dof == j then AtRow(p, r / p.spm.dof, c % p.spm.dof, r % p.spm.dof, k) else ZERO
  {
    hide At, BlockA, New, Place, Problem.Value;
    var i := p.Row(k);
    AtBlockA(p, k, New(p, j), New(p, i), p.spm.dof, Place(p, r), Place(p, c));
    PlaceInNode(p, j, c);
    PlaceInNode(p, i, r);
  }

  lemma {:induction false} AtColumnA(p: Valued, j: int, k: int, r: int, c: int)
    requires 0 <= j < p.spm.n && p.First(j) <= k <= p.First(j + 1)
    requires 0 <= r / p.spm.dof < p.spm.n && 0 <= c / p.spm.dof < p.spm.n
    ensures p.ColumnOK(j)
    ensures At(ColumnA(p, j, k), Place(p, r), Place(p, c))
         == if c / p.spm.dof == j then
              EntrySum(p, r / p.spm.dof, c % p.spm.dof, r % p.spm.dof, p.First(j), k)
            else ZERO
    decreases k - p.First(j)
  {
    hide At, BlockA, New, Place, EntrySum, Add, AtRow;
    AtNone(Place(p, r), Place(p, c));
    assert p.ColumnOK(j);
    AddZero(ZERO);
    EntryNone(p, r / p.spm.dof, c % p.spm.dof, r % p.spm.dof, p.First(j));
    if k > p.First(j) {
      AtColumnA(p, j, k - 1, r, c);
      assert 0 <= p.Row(k - 1) < p.spm.n;
      AtEntry(p, j, k - 1, r, c);
      AtJoin(ColumnA(p, j, k - 1), BlockA(p, k - 1, New(p, j), New(p, p.Row(k - 1)), p.spm.dof), Place(p, r),
             Place(p, c));
      EntryMore(p, r / p.spm.dof, c % p.spm.dof, r % p.spm.dof, p.First(j), k - 1);
    }
  }

  lemma AllANext(p: Valued, j: int, r: int, c: int)
    requires 0 <= j < p.spm.n
    ensures p.ColumnOK(j) && AllA(p, 0) == []
    ensures At(AllA(p, j + 1), r, c) == Add(At(AllA(p, j), r, c), At(ColumnA(p, j, p.First(j + 1)), r, c))
  {
    hide ColumnA, At;
    assert p.ColumnOK(j);
    AtJoin(AllA(p, j), ColumnA(p, j, p.First(j + 1)), r, c);
  }

  lemma AllAtNext(p: Valued, j: int, r: int, c: int)
    requires 0 <= j < p.spm.n
    ensures p.ColumnOK(j) && AllAt(p, 0) == []
    ensures At(AllAt(p, j + 1), r, c) == Add(At(AllAt(p, j), r, c), At(ColumnAt(p, j, p.First(j + 1)), r, c))
  {
    hide ColumnAt, At;
    assert p.ColumnOK(j);
    AtJoin(AllAt(p, j), ColumnAt(p, j, p.First(j + 1)), r, c);
  }

  lemma NothingYet(p: Valued, r: int, c: int)
    ensures At(AllA(p, 0), r, c) == ZERO && At(AllAt(p, 0), r, c) == ZERO
  {
  }

  /** The matrix in place is the given one, at the new places. */
  lemma {:induction false} AtAllA(p: Valued, j: int, r: int, c: int)
    requires 0 <= j <= p.spm.n && 0 <= r / p.spm.dof < p.spm.n && 0 <= c / p.spm.dof < p.spm.n
    ensures At(AllA(p, j), Place(p, r), Place(p, c)) == if c / p.spm.dof < j then Matrix(p, r, c) else ZERO
  {
    hide At, ColumnA, New, Place, AllA, EntrySum, Add;
    if j == 0 {
      NothingYet(p, Place(p, r), Place(p, c));
    } else {
      AllANext(p, j - 1, Place(p, r), Place(p, c));
      AtAllA(p, j - 1, r, c);
      AtColumnA(p, j - 1, p.First(j), r, c);
      AddZero(At(AllA(p, j - 1), Place(p, r), Place(p, c)));
      AddZero(Matrix(p, r, c));
    }
  }

  /** A mirrored block holds across the diagonal the mirror of its values; diagonal blocks
      are skipped unless the matrix is general. */
  lemma AtMirror(p: Valued, j: int, k: int, r: int, c: int)
    requires 0 <= j < p.spm.n && 0 <= k < |p.spm.rowptr| && 0 <= p.Row(k) < p.spm.n
    requires 0 <= r / p.spm.dof < p.spm.n && 0 <= c / p.spm.dof < p.spm.n
    requires p.spm.mtxtype == General || r / p.spm.dof != c / p.spm.dof
    ensures At(MirrorOf(p, j, k), Place(p, r), Place(p, c))
         == if r / p.spm.dof == j then p.Mirror(AtRow(p, c / p.spm.dof, r % p.spm.dof, c % p.spm.dof, k)) else ZERO
  {
    hide At, BlockAt, New, Place, Problem.Value, Problem.Mirror;
    var i := p.Row(k);
    AtNone(Place(p, r), Place(p, c));
    MirrorAdd(p, ZERO, ZERO);
    AtBlockAt(p, k, New(p, i), New(p, j), p.spm.dof, Place(p, r), Place(p, c));
    PlaceInNode(p, j, r);
    PlaceInNode(p, i, c);
  }

  lemma MirrorAdd(p: Problem, a: Complex, b: Complex)
    ensures p.Mirror(Add(a, b)) == Add(p.Mirror(a), p.Mirror(b)) && p.Mirror(ZERO) == ZERO
  {
  }

  lemma {:induction false} AtColumnAt(p: Valued, j: int, k: int, r: int, c: int)
    requires 0 <= j < p.spm.n && p.First(j) <= k <= p.First(j + 1)
    requires 0 <= r / p.spm.dof < p.spm.n && 0 <= c / p.spm.dof < p.spm.n
    requires p.spm.mtxtype == General || r / p.spm.dof != c / p.spm.dof
    ensures p.ColumnOK(j)
    ensures At(ColumnAt(p, j, k), Place(p, r), Place(p, c))
         == if r / p.spm.dof == j then
              p.Mirror(EntrySum(p, c / p.spm.dof, r % p.spm.dof, c % p.spm.dof, p.First(j), k))
            else ZERO
    decreases k - p.First(j)
  {
    hide At, New, Place, MirrorOf, EntrySum, Add, AtRow, Problem.Mirror;
    AtNone(Place(p, r), Place(p, c));
    assert p.ColumnOK(j);
    AddZero(ZERO);
    MirrorAdd(p, ZERO, ZERO);
    EntryNone(p, c / p.spm.dof, r % p.spm.dof, c % p.spm.dof, p.First(j));
    if k > p.First(j) {
      AtColumnAt(p, j, k - 1, r, c);
      assert 0 <= p.Row(k - 1) < p.spm.n;
      AtMirror(p, j, k - 1, r, c);
      AtJoin(ColumnAt(p, j, k - 1), MirrorOf(p, j, k - 1), Place(p, r), Place(p, c));
      EntryMore(p, c / p.spm.dof, r % p.spm.dof, c % p.spm.dof, p.First(j), k - 1);
      MirrorAdd(p, EntrySum(p, c / p.spm.dof, r % p.spm.dof, c % p.spm.dof, p.First(j), k - 1),
                AtRow(p, c / p.spm.dof, r % p.spm.dof, c % p.spm.dof, k - 1));
    }
  }

  lemma {:induction false} AtAllAt(p: Valued, j: int, r: int, c: int)
    requires 0 <= j <= p.spm.n && 0 <= r / p.spm.dof < p.spm.n && 0 <= c / p.spm.dof < p.spm.n
    requires p.spm.mtxtype == General || r / p.spm.dof != c / p.spm.dof
    ensures At(AllAt(p, j), Place(p, r), Place(p, c))
         == if r / p.spm.dof < j then p.Mirror(Matrix(p, c, r)) else ZERO
  {
    hide At, ColumnAt, New, Place, AllAt, EntrySum, Add, Problem.Mirror;
    if j == 0 {
      NothingYet(p, Place(p, r), Place(p, c));
    } else {
      AllAtNext(p, j - 1, Place(p, r), Place(p, c));
      AtAllAt(p, j - 1, r, c);
      AtColumnAt(p, j - 1, p.First(j), r, c);
      AddZero(At(AllAt(p, j - 1), Place(p, r), Place(p, c)));
      AddZero(p.Mirror(Matrix(p, c, r)));
    }
  }

  lemma {:induction false} NoDiagonalMirrors(p: Valued, j: int, k: int, r: int, c: int)
    requires 0 <= j < p.spm.n && p.First(j) <= k <= p.First(j + 1) && p.spm.mtxtype != General
    requires 0 <= r / p.spm.dof < p.spm.n && r / p.spm.dof == c / p.spm.dof
    ensures At(ColumnAt(p, j, k), Place(p, r), Place(p, c)) == ZERO
    decreases k - p.First(j)
  {
    hide At, BlockAt, New, Place;
    AtNone(Place(p, r), Place(p, c));
    assert p.ColumnOK(j);
    if k > p.First(j) {
      NoDiagonalMirrors(p, j, k - 1, r, c);
      var i := p.Row(k - 1);
      assert 0 <= i < p.spm.n;
      PlaceInNode(p, j, r);
      PlaceInNode(p, i, c);
      AtBlockAt(p, k - 1, New(p, i), New(p, j), p.spm.dof, Place(p, r), Place(p, c));
      AtJoin(ColumnAt(p, j, k - 1), MirrorOf(p, j, k - 1), Place(p, r), Place(p, c));
    }
  }

  lemma {:induction false} NoDiagonalMirror(p: Valued, j: int, r: int, c: int)
    requires 0 <= j <= p.spm.n && p.spm.mtxtype != General
    requires 0 <= r / p.spm.dof < p.spm.n && r / p.spm.dof == c / p.spm.dof
    ensures At(AllAt(p, j), Place(p, r), Place(p, c)) == ZERO
  {
    hide At, ColumnAt, New, Place;
    AtNone(Place(p, r), Place(p, c));
    if j > 0 {
      assert p.ColumnOK(j - 1);
      NoDiagonalMirror(p, j - 1, r, c);
      NoDiagonalMirrors(p, j - 1, p.First(j), r, c);
      AtJoin(AllAt(p, j - 1), ColumnAt(p, j - 1, p.First(j)), Place(p, r), Place(p, c));
    }
  }

  lemma AtWritten(p: Valued, r: int, c: int)
    ensures At(Written(p, p.spm.n), r, c)
         == if p.spm.mtxtype == General then At(AllA(p, p.spm.n), r, c)
            else Add(At(AllA(p, p.spm.n), r, c), At(AllAt(p, p.spm.n), r, c))
  {
    hide At, AllA, AllAt;
    if p.spm.mtxtype == General {
      assert Written(p, p.spm.n) == AllA(p, p.spm.n);
    } else {
      AtJoin(AllA(p, p.spm.n), AllAt(p, p.spm.n), r, c);
    }
  }

  /** Mirrored values are conjugated in a Hermitian matrix, and in no other. */
  lemma MirrorParts(p: Problem, z: Complex)
    ensures p.Mirror(z).re == z.re && p.Mirror(z).im == (if p.spm.mtxtype == Hermitian then -z.im else z.im)
  {
  }

  /** What is stored at the new place of row `r` and column `c` is the value given there,
      plus, off the diagonal blocks of a symmetric or Hermitian matrix, the value given
      across the diagonal, which a Hermitian matrix conjugates. */
  lemma StoredIsPermuted(p: Valued, r: int, c: int)
    requires 0 <= r / p.spm.dof < p.spm.n && 0 <= c / p.spm.dof < p.spm.n
    ensures var z := At(Written(p, p.spm.n), Place(p, r), Place(p, c));
      var here, across := Matrix(p, r, c), Matrix(p, c, r);
      && (p.spm.mtxtype == General || r / p.spm.dof == c / p.spm.dof ==> z == here)
      && (p.spm.mtxtype == Symmetric && r / p.spm.dof != c / p.spm.dof ==>
            z.re == here.re + across.re && z.im == here.im + across.im)
      && (p.spm.mtxtype == Hermitian && r / p.spm.dof != c / p.spm.dof ==>
            z.re == here.re + across.re && z.im == here.im - across.im)
  {
    hide At, AllA, AllAt, New, Place, Matrix, Problem.Mirror;
    AtAllA(p, p.spm.n, r, c);
    AtWritten(p, Place(p, r), Place(p, c));
    if p.spm.mtxtype != General {
      if r / p.spm.dof == c / p.spm.dof {
        NoDiagonalMirror(p, p.spm.n, r, c);
      } else {
        AtAllAt(p, p.spm.n, r, c);
        MirrorParts(p, Matrix(p, c, r));
      }
    }
  }

  /** The stored transpose of a general matrix is the transpose of the given one. */
  lemma TransposeIsPermuted(p: Valued, r: int, c: int)
    requires p.spm.mtxtype == General && 0 <= r / p.spm.dof < p.spm.n && 0 <= c / p.spm.dof < p.spm.n
    ensures At(AllAt(p, p.spm.n), Place(p, r), Place(p, c)) == Matrix(p, c, r)
  {
    hide At, AllA, AllAt, New, Place, Matrix;
    AtAllAt(p, p.spm.n, r, c);
    MirrorParts(p, Matrix(p, c, r));
  }

  /** Off the diagonal blocks, the values stored at two places across the diagonal are equal
      in a symmetric matrix and conjugate in a Hermitian one. */
  lemma StoredMirrors(p: Valued, r: int, c: int)
    requires p.spm.mtxtype != General && 0 <= r / p.spm.dof < p.spm.n && 0 <= c / p.spm.dof < p.spm.n
    requires r / p.spm.dof != c / p.spm.dof
    ensures var z := At(Written(p, p.spm.n), Place(p, r), Place(p, c));
      var y := At(Written(p, p.spm.n), Place(p, c), Place(p, r));
      && z.re == y.re
      && (p.spm.mtxtype == Symmetric ==> z.im == y.im)
      && (p.spm.mtxtype == Hermitian ==> z.im == -y.im)
  {
    hide At, Matrix, Written, Place;
    StoredIsPermuted(p, r, c);
    StoredIsPermuted(p, c, r);
  }

  // ----- the arrays -----

  /** Sum of the values stored at row `r` in places `lo` to `hi - 1`. */
  ghost function ArraySum(rows: seq<int>, vals: seq<Complex>, lo: int, hi: int, r: int): Complex
    requires 0 <= lo <= hi <= |rows| == |vals|
    decreases hi - lo
  {
    if hi == lo then ZERO else
    Add(ArraySum(rows, vals, lo, hi - 1, r), if rows[hi - 1] == r then vals[hi - 1] else ZERO)
  }

  lemma {:induction false} ArrayHolds(rows: seq<int>, vals: seq<Complex>, lo: int, es: seq<Entry>, r: int, c: int)
    requires 0 <= lo <= lo + |es| <= |rows| == |vals| && forall x :: 0 <= x < |es| ==> es[x].col == c
    requires forall x :: 0 <= x < |es| ==> rows[lo + x] == es[x].row && vals[lo + x] == es[x].value
    ensures ArraySum(rows, vals, lo, lo + |es|, r) == At(es, r, c)
  {
    if es != [] {
      ArrayHolds(rows, vals, lo, es[..|es| - 1], r, c);
    }
  }

  lemma {:induction false} PickedColumn(es: seq<Entry>, c: int)
    ensures forall x :: 0 <= x < |Pick(es, c)| ==> Pick(es, c)[x].col == c
  {
    if es != [] {
      PickedColumn(es[..|es| - 1], c);
    }
  }

  lemma FitsAt(j: BlockJob, es: seq<Entry>, c: int)
    requires Fits(j, es) && IsLocal(j.l, c)
    ensures |Pick(es, c)| == Size(j)[c]
  {
    hide Pick;
  }

  /** The start table gives the places of local column `c`. */
  ghost predicate ColumnPlaced(j: BlockJob, tab: seq<seq<int>>, rows: seq<int>, vals: seq<Complex>, c: int) {
    && IsLocal(j.l, c) && |rows| == |vals|
    && var b := j.l.col2cblk[c];
       && b < |j.l.cblks| == |tab|
       && var i := c - j.l.cblks[b].fcolnum;
          0 <= i < |tab[b]| - 1 && 0 <= tab[b][i] <= tab[b][i + 1] <= |rows|
  }

  /** Sum of the values that the arrays hold at row `r` of local column `c`. */
  ghost function ColumnSum(j: BlockJob, tab: seq<seq<int>>, rows: seq<int>, vals: seq<Complex>, r: int, c: int): Complex
    requires ColumnPlaced(j, tab, rows, vals, c)
  {
    var b := j.l.col2cblk[c];
    var i := c - j.l.cblks[b].fcolnum;
    ArraySum(rows, vals, tab[b][i], tab[b][i + 1], r)
  }

  lemma NextStart(l: Blocks, size: seq<int>, tab: seq<seq<int>>, c: int)
    requires |size| == |l.col2cblk| && IsColtab(l, size, tab) && IsLocal(l, c)
    ensures ColOK(l, c) && 0 <= l.col2cblk[c] < |l.cblks| == |tab|
    ensures var b := l.col2cblk[c];
      var i := c - l.cblks[b].fcolnum;
      && 0 <= i < |tab[b]| - 1 && tab[b][i] == Start(l, size, c)
      && tab[b][i + 1] == Start(l, size, c + 1) == Start(l, size, c) + size[c]
  {
    hide IsColtab, Cursors, Pick, TabOK, CursorAt;
    IsCursors(l, size, tab);
    PickNone(c);
    LocalTab(l, size, tab, [], c);
    var b := l.col2cblk[c];
    if c < l.cblks[b].lcolnum {
      PickNone(c + 1);
      assert BlkOK(l, b) && l.col2cblk[c + 1] == b;
      LocalTab(l, size, tab, [], c + 1);
    } else {
      LastOfTab(l, size, tab, b);
    }
  }

  lemma IsCursors(l: Blocks, size: seq<int>, tab: seq<seq<int>>)
    requires |size| == |l.col2cblk| && IsColtab(l, size, tab)
    ensures Cursors(l, size, tab, [])
  {
  }

  lemma LastOfTab(l: Blocks, size: seq<int>, tab: seq<seq<int>>, b: int)
    requires |size| == |l.col2cblk| && 0 <= b < |l.cblks| == |tab| && TabOK(l, size, tab, b)
    ensures BlkOK(l, b) && |tab[b]| == l.cblks[b].lcolnum - l.cblks[b].fcolnum + 2
    ensures tab[b][|tab[b]| - 1] == Start(l, size, l.cblks[b].lcolnum + 1)
  {
    assert BlkOK(l, b);
  }

  /** The values stored in the arrays at row `r` of local column `c` sum to the entries there. */
  lemma StoredSums(j: BlockJob, tab: seq<seq<int>>, rows: seq<int>, vals: seq<Complex>, es: seq<Entry>, r: int, c: int)
    requires Stored(j, tab, rows, vals, es) && IsLocal(j.l, c)
    ensures ColumnPlaced(j, tab, rows, vals, c) && ColumnSum(j, tab, rows, vals, r, c) == At(es, r, c)
  {
    hide At, Pick, Start, Size, Fits, ArraySum, IsColtab;
    FitsAt(j, es, c);
    NextStart(j.l, Size(j), tab, c);
    StartOrder(j.l, Size(j), c, c + 1);
    StartOrder(j.l, Size(j), c + 1, |Size(j)|);
    PickedColumn(es, c);
    AtOfPick(es, r, c);
    assert Holds(j.l, Size(j), rows, vals, es, c);
    var lo := Start(j.l, Size(j), c);
    forall x | 0 <= x < |Pick(es, c)|
      ensures rows[lo + x] == Pick(es, c)[x].row && vals[lo + x] == Pick(es, c)[x].value
    {
      assert HoldsAt(j.l, Size(j), rows, vals, es, c, x);
    }
    ArrayHolds(rows, vals, lo, Pick(es, c), r, c);
  }

  lemma PlaceIs(p: Valued, x: int)
    requires 0 <= x / p.spm.dof < p.spm.n
    ensures Place(p, x) == p.permtab[x / p.spm.dof] * p.spm.dof + x % p.spm.dof
  {
  }

  /** The arrays of a process hold, in its columns, the permuted matrix: at the new places of
      row `r` and column `x`, the value given there, completed off the diagonal blocks by the
      value given across the diagonal, conjugated when the matrix is Hermitian. */
  lemma ArraysHoldMatrix(j: BlockJob, tab: seq<seq<int>>, rows: seq<int>, vals: seq<Complex>, r: int, x: int)
    requires Stored(j, tab, rows, vals, Written(j.p, j.p.spm.n))
    requires 0 <= r / j.p.spm.dof < j.p.spm.n && 0 <= x / j.p.spm.dof < j.p.spm.n && IsLocal(j.l, Place(j.p, x))
    ensures Place(j.p, r) == j.p.permtab[r / j.p.spm.dof] * j.p.spm.dof + r % j.p.spm.dof
    ensures Place(j.p, x) == j.p.permtab[x / j.p.spm.dof] * j.p.spm.dof + x % j.p.spm.dof
    ensures ColumnPlaced(j, tab, rows, vals, Place(j.p, x))
    ensures var z := ColumnSum(j, tab, rows, vals, Place(j.p, r), Place(j.p, x));
      var here, across := Matrix(j.p, r, x), Matrix(j.p, x, r);
      && (j.p.spm.mtxtype == General || r / j.p.spm.dof == x / j.p.spm.dof ==> z == here)
      && (j.p.spm.mtxtype == Symmetric && r / j.p.spm.dof != x / j.p.spm.dof ==>
            z.re == here.re + across.re && z.im == here.im + across.im)
      && (j.p.spm.mtxtype == Hermitian && r / j.p.spm.dof != x / j.p.spm.dof ==>
            z.re == here.re + across.re && z.im == here.im - across.im)
  {
    hide At, Written, Matrix, Stored, ColumnSum, ColumnPlaced, Place;
    PlaceIs(j.p, r);
    PlaceIs(j.p, x);
    StoredSums(j, tab, rows, vals, Written(j.p, j.p.spm.n), Place(j.p, r), Place(j.p, x));
    StoredIsPermuted(j.p, r, x);
  }
}
