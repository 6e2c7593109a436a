/** Where a wide column block is cut: how many pieces, and which column ends each. */
module SplitCuts {
  import opened SplitSpec

  /** Smallest integer not below a / b. */
  function Iceil(a: int, b: int): int
    requires b > 0
  {
    (a + b - 1) / b
  }

  /** Width bounds of the pieces, and allowed shift of a cut in percent of the step. */
  datatype Widths = Widths(blcolmin: int, blcolmax: int, percent: int)

  ghost predicate WidthsOK(b: Widths) {
    1 <= b.blcolmin && 2 * b.blcolmin <= b.blcolmax && 0 <= b.percent
  }

  /** No piece is wider than this. */
  function WidestPiece(b: Widths): int {
    b.blcolmax + Iceil(b.blcolmax * b.percent, 100)
  }

  function NbSplit(b: Widths, width: int): int
    requires b.blcolmax > 0
  {
    if width <= b.blcolmax then 1 else
    var nseq := Iceil(width, b.blcolmax);
    if nseq > 1 && width / nseq < b.blcolmin then nseq - 1 else nseq
  }

  lemma CeilBounds(a: int, b: int)
    requires b > 0
    ensures (Iceil(a, b) - 1) * b < a <= Iceil(a, b) * b
  {
    var q := Iceil(a, b);
    assert a + b - 1 == q * b + (a + b - 1) % b;
  }

  lemma DivAtLeast(a: int, b: int, q: int)
    requires b > 0 && q * b <= a
    ensures q <= a / b
  {
    var d := a / b;
    assert a == d * b + a % b;
    if d < q {
      Product(d + 1, q, b);
    }
  }

  lemma Product(x: int, y: int, b: int)
    requires x <= y && b >= 0
    ensures x * b <= y * b
  {
  }

  lemma CeilAtMost(a: int, b: int, q: int)
    requires b > 0 && a <= q * b
    ensures Iceil(a, b) <= q
  {
    CeilBounds(a, b);
    if Iceil(a, b) > q {
      Product(q, Iceil(a, b) - 1, b);
    }
  }

  /** More than `max` columns make at least two pieces, each of at least `min` columns. */
  lemma PiecesWideEnough(width: int, min: int, max: int)
    requires 1 <= min && 2 * min <= max && width > max
    ensures Iceil(width, max) >= 2 && min <= width / Iceil(width, max)
  {
    var n := Iceil(width, max);
    CeilBounds(width, max);
    if n < 2 {
      Product(n, 1, max);
    }
    Product(2 * min, max, n - 1);
    Doubled(n, min);
    DivAtLeast(width, n, min);
  }

  lemma StepInBounds(width: int, n: int, max: int)
    requires n >= 2 && max >= 2 && (n - 1) * max < width <= n * max
    ensures width / n <= Iceil(width, n) <= max && Iceil(width, n) > 1
  {
    assert n * max == max * n;
    CeilAtMost(width, n, max);
    FloorCeil(width, n);
    CeilBounds(width, n);
    if Iceil(width, n) <= 1 {
      Product(Iceil(width, n), 1, n);
      Product(2, max, n - 1);
    }
  }

  lemma FloorCeil(a: int, b: int)
    requires b > 0
    ensures a / b <= Iceil(a, b)
  {
    CeilBounds(a, b);
    assert a == (a / b) * b + a % b;
    if Iceil(a, b) < a / b {
      Product(Iceil(a, b) + 1, a / b, b);
    }
  }

  /** A wide column block is cut into the fewest pieces that fit, the decrease for
      narrow pieces never happens, and the step lies between the bounds. */
  lemma StepBounds(b: Widths, width: int)
    requires WidthsOK(b) && width > b.blcolmax
    ensures NbSplit(b, width) == Iceil(width, b.blcolmax) >= 2
    ensures b.blcolmin <= Iceil(width, NbSplit(b, width)) <= b.blcolmax && Iceil(width, NbSplit(b, width)) > 1
    ensures width - b.blcolmin > b.blcolmin
  {
    hide Iceil;
    PiecesWideEnough(width, b.blcolmin, b.blcolmax);
    CeilBounds(width, b.blcolmax);
    StepInBounds(width, Iceil(width, b.blcolmax), b.blcolmax);
  }

  lemma Doubled(n: int, m: int)
    requires n >= 2 && m >= 0
    ensures (n - 1) * (2 * m) >= n * m
  {
    assert (n - 1) * (2 * m) == n * m + (n - 2) * m;
  }

  /** For bounds 1 <= min <= max, enough columns are left after every cut, for every
      width, exactly when the maximum is at least twice the minimum. */
  lemma EnoughLeftExactly(b: Widths)
    requires 1 <= b.blcolmin <= b.blcolmax && 0 <= b.percent
    ensures (forall width :: NbSplit(b, width) > 1 ==> width - b.blcolmin > b.blcolmin)
       <==> 2 * b.blcolmin <= b.blcolmax
  {
    if 2 * b.blcolmin <= b.blcolmax {
      forall width | NbSplit(b, width) > 1
        ensures width - b.blcolmin > b.blcolmin
      {
        StepBounds(b, width);
      }
    } else {
      var width := 2 * b.blcolmin;
      CeilBounds(width, b.blcolmax);
      CeilAtMost(width, b.blcolmax, 2);
      if Iceil(width, b.blcolmax) < 2 {
        Product(Iceil(width, b.blcolmax), 1, b.blcolmax);
      }
      assert NbSplit(b, width) == 2;
    }
  }

  lemma CeilMonotone(x: int, y: int, p: int)
    requires x <= y && p >= 0
    ensures Iceil(x * p, 100) <= Iceil(y * p, 100)
  {
    Product(x, y, p);
  }

  datatype SplitFct = Smallest | SmallestMax | Constant

  /** Bounds on the last column of the piece, counted from its first. */
  ghost predicate CutOK(b: Widths, step: int, max: int, lcol: int) {
    && b.blcolmin <= lcol + 1 <= max
    && (lcol + 1 <= step + Iceil(step * b.percent, 100) || lcol + 1 == b.blcolmin + 1)
  }

  ghost predicate CutAsked(b: Widths, step: int, max: int) {
    b.blcolmin <= step && 1 < step && b.blcolmin < max && 0 <= b.percent && 0 <= b.blcolmin
  }

  /** Cuts considered by `SmallestSplit`. */
  ghost predicate InWindow(step: int, min: int, max: int, limit: int, i: int) {
    i == step - 1 || step <= i < Min(step + limit, max) || Max(step - 2 - limit, min) < i < step - 1
  }

  /** Of equally good cuts, `lcol` is met no later than `i` by a search that goes up from
      `step - 1`, then down from it. */
  ghost predicate MetFirst(step: int, lcol: int, i: int) {
    if lcol >= step - 1 then i >= lcol || i < step - 1 else i <= lcol
  }

  /** The cut crossing fewest blocks, within the allowed shift of the step: `step - 1` unless
      another one is strictly better; then the first best one above it, or the first best
      one below it when that is strictly better than all those above. */
  method SmallestSplit(nb: seq<int>, step: int, max: int, b: Widths) returns (lcolnum: int)
    requires CutAsked(b, step, max) && max <= |nb|
    ensures CutOK(b, step, max, lcolnum)
    ensures step >= max ==> lcolnum == max - 1
    ensures step < max ==> InWindow(step, b.blcolmin, max, Iceil(step * b.percent, 100), lcolnum)
    ensures step < max ==> forall i ::
      0 <= i < |nb| && InWindow(step, b.blcolmin, max, Iceil(step * b.percent, 100), i) ==>
        nb[lcolnum] <= nb[i] && (nb[lcolnum] == nb[i] ==> MetFirst(step, lcolnum, i))
  {
    var limit := Iceil(step * b.percent, 100);
    LimitNonNegative(step, b.percent);
    if step >= max {
      return max - 1;
    }
    assert step > 1;
    var lavg := step - 1;
    var lmin := Max(lavg - limit - 1, b.blcolmin);
    var lmax := Min(lavg + limit + 1, max);
    lcolnum := lavg;
    var nbsplit := nb[lcolnum];
    var i := lavg + 1;
    while i < lmax
      invariant lavg < i && (i <= lmax || i == lavg + 1)
      invariant InWindow(step, b.blcolmin, max, limit, lcolnum) && nbsplit == nb[lcolnum]
      invariant lavg <= lcolnum < i
      invariant forall k :: lavg <= k < i ==> nbsplit <= nb[k] && (k < lcolnum ==> nbsplit < nb[k])
    {
      if nb[i] < nbsplit {
        lcolnum, nbsplit := i, nb[i];
      }
      i := i + 1;
    }
    i := lavg - 1;
    while i > lmin
      invariant i < lavg
      invariant InWindow(step, b.blcolmin, max, limit, lcolnum) && nbsplit == nb[lcolnum]
      invariant lcolnum > i
      invariant forall k :: lavg <= k < lmax || k == lavg ==>
        nbsplit <= nb[k] && (k < lcolnum || lcolnum < lavg ==> nbsplit < nb[k])
      invariant forall k :: i < k < lavg && lmin < k ==> nbsplit <= nb[k] && (lcolnum < k ==> nbsplit < nb[k])
    {
      if nb[i] < nbsplit {
        lcolnum, nbsplit := i, nb[i];
      }
      i := i - 1;
    }
  }

  lemma LimitNonNegative(step: int, percent: int)
    requires step >= 0 && percent >= 0
    ensures Iceil(step * percent, 100) >= 0
  {
    Product(0, step, percent);
  }

  /** The last of the cuts crossing fewest blocks, within the allowed shift of the step. */
  method SmallestSplitMax(nb: seq<int>, step: int, max: int, b: Widths) returns (lcolnum: int)
    requires CutAsked(b, step, max) && max <= |nb|
    ensures CutOK(b, step, max, lcolnum)
    ensures step >= max ==> lcolnum == max - 1
    ensures step < max ==>
      var limit := Iceil(step * b.percent, 100);
      var lmin, lmax := Max(step - 1 - limit, b.blcolmin), Min(step + limit, max);
      lmin <= lcolnum < Max(lmax, lmin + 1) && forall i :: lmin <= i < lmax ==>
        nb[lcolnum] <= nb[i] && (i > lcolnum ==> nb[lcolnum] < nb[i])
  {
    var limit := Iceil(step * b.percent, 100);
    LimitNonNegative(step, b.percent);
    if step >= max {
      return max - 1;
    }
    assert step > 1;
    var lavg := step - 1;
    var lmin := Max(lavg - limit, b.blcolmin);
    var lmax := Min(lavg + limit + 1, max);
    lcolnum := lmin;
    var nbsplit := nb[lcolnum];
    var i := lmin;
    while i < lmax
      invariant lmin <= i <= Max(lmax, lmin) && lmin <= lcolnum < Max(lmax, lmin + 1)
      invariant nbsplit == nb[lcolnum]
      invariant lcolnum < Max(i, lmin + 1)
      invariant forall k :: lmin <= k < i ==> nbsplit <= nb[k] && (k > lcolnum ==> nbsplit < nb[k])
    {
      if nb[i] <= nbsplit {
        lcolnum, nbsplit := i, nb[i];
      }
      i := i + 1;
    }
  }

  method ConstantSplit(step: int, max: int, b: Widths) returns (lcolnum: int)
    requires CutAsked(b, step, max)
    ensures CutOK(b, step, max, lcolnum)
    ensures lcolnum == Min(step, max) - 1
  {
    LimitNonNegative(step, b.percent);
    if step >= max {
      return max - 1;
    }
    assert step > 1;
    return step - 1;
  }
}
