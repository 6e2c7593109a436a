/** A compressed matrix whose column starts double as write cursors: column blocks with
    their own start tables share one array of rows and one of values. */
module BcscFill {

  datatype Complex = Complex(re: real, im: real)

  function Conj(z: Complex): Complex {
    Complex(z.re, -z.im)
  }

  datatype ColBlk = ColBlk(fcolnum: int, lcolnum: int)

  /** Local column blocks, and for each column the block that holds it, or a negative number. */
  datatype Layout = Layout(cblks: seq<ColBlk>, col2cblk: seq<int>)

  ghost predicate BlkOK(l: Layout, b: int)
    requires 0 <= b < |l.cblks|
  {
    && 0 <= l.cblks[b].fcolnum <= l.cblks[b].lcolnum < |l.col2cblk|
    && (forall c :: l.cblks[b].fcolnum <= c <= l.cblks[b].lcolnum ==> l.col2cblk[c] == b)
  }

  ghost predicate ColOK(l: Layout, c: int)
    requires 0 <= c < |l.col2cblk|
  {
    l.col2cblk[c] >= 0 ==>
      l.col2cblk[c] < |l.cblks| && l.cblks[l.col2cblk[c]].fcolnum <= c <= l.cblks[l.col2cblk[c]].lcolnum
  }

  ghost predicate LayoutOK(l: Layout) {
    && (forall b :: 0 <= b < |l.cblks| ==> BlkOK(l, b))
    && (forall a, b :: 0 <= a < b < |l.cblks| ==> l.cblks[a].lcolnum < l.cblks[b].fcolnum)
    && (forall c :: 0 <= c < |l.col2cblk| ==> ColOK(l, c))
  }

  type Blocks = l: Layout | LayoutOK(l) witness Layout([], [])

  ghost predicate IsLocal(l: Layout, c: int) {
    0 <= c < |l.col2cblk| && l.col2cblk[c] >= 0
  }

  /** Where column `c` starts: after the local columns before it. */
  ghost function Start(l: Layout, size: seq<int>, c: int): int
    requires |size| == |l.col2cblk| && 0 <= c <= |size|
  {
    if c == 0 then 0 else Start(l, size, c - 1) + (if IsLocal(l, c - 1) then size[c - 1] else 0)
  }

  ghost predicate SizesOK(l: Layout, size: seq<int>) {
    |size| == |l.col2cblk| && forall c :: 0 <= c < |size| ==> size[c] >= 0
  }

  lemma {:induction false} StartOrder(l: Layout, size: seq<int>, c: int, d: int)
    requires SizesOK(l, size) && 0 <= c <= d <= |size|
    ensures 0 <= Start(l, size, c) <= Start(l, size, d)
    ensures c < d && IsLocal(l, c) ==> Start(l, size, c) + size[c] <= Start(l, size, d)
    decreases d
  {
    if 0 < d {
      StartOrder(l, size, if c < d then c else d - 1, d - 1);
    }
  }

  /** No local column between two points: they start at the same place. */
  lemma {:induction false} StartSkips(l: Layout, size: seq<int>, c: int, d: int)
    requires SizesOK(l, size) && 0 <= c <= d <= |size| && forall x :: c <= x < d ==> !IsLocal(l, x)
    ensures Start(l, size, c) == Start(l, size, d)
    decreases d
  {
    if c < d {
      StartSkips(l, size, c, d - 1);
    }
  }

  /** Nothing is local between two consecutive blocks, before the first or after the last. */
  lemma GapNotLocal(l: Blocks, b: int, x: int)
    requires 0 <= b <= |l.cblks| && 0 <= x < |l.col2cblk|
    requires b > 0 ==> l.cblks[b - 1].lcolnum < x
    requires b < |l.cblks| ==> x < l.cblks[b].fcolnum
    ensures !IsLocal(l, x)
  {
    assert ColOK(l, x);
    assert b > 0 ==> BlkOK(l, b - 1);
    assert b < |l.cblks| ==> BlkOK(l, b);
  }

  // ----- what is written -----

  /** A value written in a column, with its row. */
  datatype Entry = Entry(col: int, row: int, value: Complex)

  /** Entries of column `c`, in writing order. */
  ghost function Pick(es: seq<Entry>, c: int): (r: seq<Entry>)
    ensures |r| <= |es|
  {
    if es == [] then [] else Pick(es[..|es| - 1], c) + (if es[|es| - 1].col == c then [es[|es| - 1]] else [])
  }

  lemma PickNone(c: int)
    ensures Pick([], c) == []
  {
  }

  lemma PickMore(es: seq<Entry>, e: Entry, c: int)
    ensures Pick(es + [e], c) == Pick(es, c) + (if e.col == c then [e] else [])
  {
    assert (es + [e])[..|es + [e]| - 1] == es;
  }

  lemma {:induction false} PickJoin(es: seq<Entry>, fs: seq<Entry>, c: int)
    ensures Pick(es + fs, c) == Pick(es, c) + Pick(fs, c)
  {
    if fs == [] {
      assert es + fs == es;
    } else {
      var last := fs[|fs| - 1];
      var init := fs[..|fs| - 1];
      assert es + fs == (es + init) + [last] && fs == init + [last];
      PickMore(es + init, last, c);
      PickMore(init, last, c);
      PickJoin(es, init, c);
    }
  }

  /** Cursors after the writes `es`. */
  ghost predicate CursorAt(l: Layout, size: seq<int>, tab: seq<seq<int>>, es: seq<Entry>, c: int)
    requires LayoutOK(l) && |size| == |l.col2cblk| && |tab| == |l.cblks| && IsLocal(l, c)
  {
    assert ColOK(l, c);
    var b := l.col2cblk[c];
    var i := c - l.cblks[b].fcolnum;
    i < |tab[b]| && tab[b][i] == Start(l, size, c) + |Pick(es, c)|
  }

  /** Block `b` has one entry a column and a closing one, which never moves. */
  ghost predicate TabOK(l: Layout, size: seq<int>, tab: seq<seq<int>>, b: int)
    requires LayoutOK(l) && |size| == |l.col2cblk| && 0 <= b < |tab| == |l.cblks|
  {
    assert BlkOK(l, b);
    var colnbr := l.cblks[b].lcolnum - l.cblks[b].fcolnum + 1;
    |tab[b]| == colnbr + 1 && tab[b][colnbr] == Start(l, size, l.cblks[b].lcolnum + 1)
  }

  ghost predicate Cursors(l: Layout, size: seq<int>, tab: seq<seq<int>>, es: seq<Entry>)
    requires LayoutOK(l) && |size| == |l.col2cblk|
  {
    && |tab| == |l.cblks|
    && (forall b :: 0 <= b < |tab| ==> TabOK(l, size, tab, b))
    && (forall c :: 0 <= c < |size| && IsLocal(l, c) ==> CursorAt(l, size, tab, es, c))
  }

  /** The start table: every cursor at the start of its column. */
  ghost predicate IsColtab(l: Layout, size: seq<int>, tab: seq<seq<int>>)
    requires LayoutOK(l) && |size| == |l.col2cblk|
  {
    Cursors(l, size, tab, [])
  }

  /** Column `c` holds its entries in writing order. */
  ghost predicate Holds(l: Layout, size: seq<int>, rows: seq<int>, vals: seq<Complex>, es: seq<Entry>, c: int)
    requires |size| == |l.col2cblk| && 0 <= c < |size| && |rows| == |vals|
  {
    forall x :: 0 <= x < |Pick(es, c)| ==> HoldsAt(l, size, rows, vals, es, c, x)
  }

  ghost predicate HoldsAt(l: Layout, size: seq<int>, rows: seq<int>, vals: seq<Complex>, es: seq<Entry>, c: int, x: int)
    requires |size| == |l.col2cblk| && 0 <= c < |size| && |rows| == |vals| && 0 <= x < |Pick(es, c)|
  {
    var p := Start(l, size, c) + x;
    0 <= p < |rows| && rows[p] == Pick(es, c)[x].row && vals[p] == Pick(es, c)[x].value
  }

  /** Every local column holds its entries, and no column more than its size. */
  ghost predicate Filled(l: Layout, size: seq<int>, rows: seq<int>, vals: seq<Complex>, es: seq<Entry>) {
    && SizesOK(l, size) && |rows| == |vals| == Start(l, size, |size|)
    && (forall c :: 0 <= c < |size| && IsLocal(l, c) ==> |Pick(es, c)| <= size[c] && Holds(l, size, rows, vals, es, c))
  }

  /** One more write, at the cursor of its column, disturbs no other column. */
  lemma PutKeeps(l: Blocks, size: seq<int>, rows: seq<int>, vals: seq<Complex>, es: seq<Entry>, e: Entry,
                 rows': seq<int>, vals': seq<Complex>)
    requires Filled(l, size, rows, vals, es) && IsLocal(l, e.col) && |Pick(es, e.col)| < size[e.col]
    requires var p := Start(l, size, e.col) + |Pick(es, e.col)|;
      0 <= p < |rows| && rows' == rows[p := e.row] && vals' == vals[p := e.value]
    ensures Filled(l, size, rows', vals', es + [e])
  {
    hide Start;
    var p := Start(l, size, e.col) + |Pick(es, e.col)|;
    forall c | 0 <= c < |size| && IsLocal(l, c)
      ensures |Pick(es + [e], c)| <= size[c] && Holds(l, size, rows', vals', es + [e], c)
    {
      PickMore(es, e, c);
      forall x | 0 <= x < |Pick(es + [e], c)|
        ensures HoldsAt(l, size, rows', vals', es + [e], c, x)
      {
        if x < |Pick(es, c)| {
          assert HoldsAt(l, size, rows, vals, es, c, x);
          if c < e.col {
            StartOrder(l, size, c, e.col);
          } else if e.col < c {
            StartOrder(l, size, e.col, c);
          }
        }
      }
    }
  }

  lemma Assoc(a: seq<Entry>, b: seq<Entry>, c: seq<Entry>)
    ensures (a + b) + c == a + (b + c)
  {
  }

  lemma PrefixMore(a: seq<Entry>, b: seq<Entry>, c: seq<Entry>)
    requires a <= b
    ensures a <= b + c
  {
  }
}
