/** In-place permutation of the rows of a right-hand side, following the cycles of the
    permutation and marking the rows seen by flipping the sign of its entries. */
module Permute {

  /** `inv` undoes `p`. */
  ghost predicate Inverse(p: seq<int>, inv: seq<int>) {
    && |inv| == |p|
    && (forall i :: 0 <= i < |p| ==> 0 <= p[i] < |p| && inv[p[i]] == i)
    && (forall i :: 0 <= i < |p| ==> 0 <= inv[i] < |p| && p[inv[i]] == i)
  }

  ghost predicate IsPerm(p: seq<int>) {
    exists inv: seq<int> :: Inverse(p, inv)
  }

  ghost predicate IsIdentity(p: seq<int>) {
    forall i :: 0 <= i < |p| ==> p[i] == i
  }

  /** Entries of `seen` are marked, the others plain. */
  ghost predicate Marks(p: seq<int>, cpy: seq<int>, seen: set<int>) {
    && |cpy| == |p|
    && (forall x :: 0 <= x < |p| ==> cpy[x] == if x in seen then -p[x] - 1 else p[x])
  }

  ghost predicate Closed(p: seq<int>, inv: seq<int>, seen: set<int>)
    requires Inverse(p, inv)
  {
    && (forall x :: x in seen ==> 0 <= x < |p|)
    && (forall x :: 0 <= x < |p| ==> (x in seen <==> inv[x] in seen))
  }

  /** The cycle of `k` is followed up to `i`, whose image is `j`. */
  ghost predicate Following(p: seq<int>, inv: seq<int>, seen: set<int>, k: int, i: int, j: int)
    requires Inverse(p, inv)
  {
    && 0 <= k < |p| && 0 <= i < |p| && j == p[i] && i in seen && k in seen && (j == k || j !in seen)
    && (forall x :: x in seen ==> 0 <= x < |p|)
    && (forall x :: 0 <= x < |p| && x != j && x != k ==> (x in seen <==> inv[x] in seen))
    && (j != k ==> inv[k] !in seen)
  }

  lemma FollowStart(p: seq<int>, inv: seq<int>, seen: set<int>, k: int)
    requires Inverse(p, inv) && Closed(p, inv, seen) && 0 <= k < |p| && k !in seen
    ensures Following(p, inv, seen + {k}, k, k, p[k])
  {
    assert inv[p[k]] == k;
  }

  lemma FollowNext(p: seq<int>, inv: seq<int>, seen: set<int>, k: int, i: int, j: int)
    requires Inverse(p, inv) && Following(p, inv, seen, k, i, j) && j != k
    ensures Following(p, inv, seen + {j}, k, j, p[j]) && p[j] != j
  {
    var next := p[j];
    assert inv[next] == j && inv[j] == i;
    forall x | 0 <= x < |p| && x != next && x != k
      ensures x in seen + {j} <==> inv[x] in seen + {j}
    {
      assert p[inv[x]] == x;
    }
  }

  lemma FollowEnd(p: seq<int>, inv: seq<int>, seen: set<int>, k: int, i: int)
    requires Inverse(p, inv) && Following(p, inv, seen, k, i, k)
    ensures Closed(p, inv, seen)
  {
    assert inv[k] == i;
  }

  /** Rows swapped in every column. */
  method SwapRows(a: array2<real>, i: int, j: int)
    requires 0 <= i < a.Length0 && 0 <= j < a.Length0
    modifies a
    ensures forall y, c :: 0 <= y < a.Length0 && 0 <= c < a.Length1 ==>
      a[y, c] == old(if y == i then a[j, c] else if y == j then a[i, c] else a[y, c])
  {
    for jj := 0 to a.Length1
      invariant forall y, c :: 0 <= y < a.Length0 && 0 <= c < a.Length1 ==>
        a[y, c] == old(if c >= jj then a[y, c] else if y == i then a[j, c] else if y == j then a[i, c] else a[y, c])
    {
      var tmp := a[j, jj];
      a[j, jj] := a[i, jj];
      a[i, jj] := tmp;
    }
  }

  /** Row whose value stands at row `y` while a cycle is followed backward. */
  ghost function BackwardSource(p: seq<int>, inv: seq<int>, seen: set<int>, k: int, i: int, y: int): int
    requires Inverse(p, inv) && 0 <= i < |p|
  {
    if y == k then i
    else if 0 <= y < |p| && y != p[i] && inv[y] in seen then inv[y]
    else y
  }

  /** Rows of completed cycles hold their new values, the others their own. */
  ghost function BackwardDone(p: seq<int>, inv: seq<int>, seen: set<int>, y: int): int
    requires Inverse(p, inv)
  {
    if 0 <= y < |p| && inv[y] in seen then inv[y] else y
  }

  lemma BackwardStep(p: seq<int>, inv: seq<int>, seen: set<int>, k: int, i: int, j: int, y: int)
    requires Inverse(p, inv) && Following(p, inv, seen, k, i, j) && j != k
    ensures BackwardSource(p, inv, seen + {j}, k, j, y)
         == BackwardSource(p, inv, seen, k, i, if y == j then k else if y == k then j else y)
  {
    if 0 <= y < |p| {
      assert p[inv[y]] == y;
    }
  }

  lemma BackwardStart(p: seq<int>, inv: seq<int>, seen: set<int>, k: int, y: int)
    requires Inverse(p, inv) && Closed(p, inv, seen) && 0 <= k < |p| && k !in seen
    ensures BackwardSource(p, inv, seen + {k}, k, k, y) == BackwardDone(p, inv, seen, y)
  {
    if 0 <= y < |p| {
      assert p[inv[y]] == y;
    }
  }

  lemma BackwardEnd(p: seq<int>, inv: seq<int>, seen: set<int>, k: int, i: int, y: int)
    requires Inverse(p, inv) && Following(p, inv, seen, k, i, k)
    ensures BackwardSource(p, inv, seen, k, i, y) == BackwardDone(p, inv, seen, y)
  {
    assert inv[k] == i;
  }

  /** Entry `x` is marked. */
  lemma MarkOne(p: seq<int>, cpy: seq<int>, next: seq<int>, seen: set<int>, x: int)
    requires Marks(p, cpy, seen) && 0 <= x < |p| && next == cpy[x := -p[x] - 1]
    ensures Marks(p, next, seen + {x})
  {
  }

  /** Rows below `n` not seen yet. */
  ghost function Unseen(seen: set<int>, n: nat): nat {
    if n == 0 then 0 else Unseen(seen, n - 1) + (if n - 1 in seen then 0 else 1)
  }

  lemma {:induction false} SeeOne(seen: set<int>, n: nat, j: int)
    requires j !in seen
    ensures Unseen(seen + {j}, n) == Unseen(seen, n) - (if 0 <= j < n then 1 else 0)
  {
    if n > 0 {
      SeeOne(seen, n - 1, j);
    }
  }

  /** Follow the cycle of `k`, not seen before, moving each row to its place. `val` is
      the matrix before any move. */
  method BackwardCycle(a: array2<real>, cpy: array<int>, k: int, ghost p: seq<int>, ghost inv: seq<int>,
                       ghost seen0: set<int>, ghost val: (int, int) -> real)
      returns (ghost seen: set<int>)
    requires Inverse(p, inv) && |p| <= a.Length0 && Closed(p, inv, seen0) && Marks(p, cpy[..], seen0)
    requires 0 <= k < |p| && k !in seen0
    requires forall y, c :: 0 <= y < a.Length0 && 0 <= c < a.Length1 ==>
      a[y, c] == val(BackwardDone(p, inv, seen0, y), c)
    modifies a, cpy
    ensures Closed(p, inv, seen) && Marks(p, cpy[..], seen) && seen0 <= seen && k in seen
    ensures forall y, c :: 0 <= y < a.Length0 && 0 <= c < a.Length1 ==> a[y, c] == val(BackwardDone(p, inv, seen, y), c)
  {
    hide Closed, BackwardSource, BackwardDone, Marks, Following;
    MarksSigns(p, cpy[..], seen0);
    var i := k;
    var j := cpy[i];
    cpy[i] := -j - 1;
    seen := seen0 + {k};
    MarkOne(p, old(cpy[..]), cpy[..], seen0, k);
    FollowStart(p, inv, seen0, k);
    forall y {:trigger BackwardSource(p, inv, seen, k, i, y)} | 0 <= y < a.Length0
      ensures BackwardSource(p, inv, seen, k, i, y) == BackwardDone(p, inv, seen0, y)
    {
      BackwardStart(p, inv, seen0, k, y);
    }
    while j != k
      invariant 0 <= i < |p| && Following(p, inv, seen, k, i, j) && Marks(p, cpy[..], seen) && seen0 <= seen
      invariant k in seen
      invariant forall y, c :: 0 <= y < a.Length0 && 0 <= c < a.Length1 ==>
        a[y, c] == val(BackwardSource(p, inv, seen, k, i, y), c)
      decreases Unseen(seen, |p|)
    {
      i, j, seen := BackwardMove(a, cpy, k, i, j, p, inv, seen, val);
    }
    FollowEnd(p, inv, seen, k, i);
    forall y {:trigger BackwardDone(p, inv, seen, y)} | 0 <= y < a.Length0
      ensures BackwardSource(p, inv, seen, k, i, y) == BackwardDone(p, inv, seen, y)
    {
      BackwardEnd(p, inv, seen, k, i, y);
    }
  }

  lemma MarksSigns(p: seq<int>, cpy: seq<int>, seen: set<int>)
    requires Marks(p, cpy, seen) && forall x :: 0 <= x < |p| ==> 0 <= p[x]
    ensures |cpy| == |p| && forall x :: 0 <= x < |p| ==> if x in seen then cpy[x] < 0 else cpy[x] == p[x]
  {
  }

  /** Row `j` takes the value carried at `k`; the walk moves on to the image of `j`. */
  method BackwardMove(a: array2<real>, cpy: array<int>, k: int, i0: int, j0: int, ghost p: seq<int>,
          ghost inv: seq<int>,
                      ghost seen0: set<int>, ghost val: (int, int) -> real)
      returns (i: int, j: int, ghost seen: set<int>)
    requires Inverse(p, inv) && |p| <= a.Length0 && Following(p, inv, seen0, k, i0, j0) && Marks(p, cpy[..], seen0)
    requires j0 != k
    requires forall y, c :: 0 <= y < a.Length0 && 0 <= c < a.Length1 ==>
      a[y, c] == val(BackwardSource(p, inv, seen0, k, i0, y), c)
    modifies a, cpy
    ensures Following(p, inv, seen, k, i, j) && Marks(p, cpy[..], seen) && seen0 <= seen
    ensures 0 <= i < |p| && Unseen(seen, |p|) < Unseen(seen0, |p|)
    ensures forall y, c :: 0 <= y < a.Length0 && 0 <= c < a.Length1 ==>
      a[y, c] == val(BackwardSource(p, inv, seen, k, i, y), c)
  {
    hide BackwardSource;
    MarksSigns(p, cpy[..], seen0);
    SwapRows(a, j0, k);
    i := j0;
    j := cpy[i];
    cpy[i] := -j - 1;
    seen := seen0 + {j0};
    MarkOne(p, old(cpy[..]), cpy[..], seen0, j0);
    FollowNext(p, inv, seen0, k, i0, j0);
    assert j != i && j >= 0;
    SeeOne(seen0, |p|, j0);
    forall y {:trigger BackwardSource(p, inv, seen, k, i, y)} | 0 <= y < a.Length0
      ensures BackwardSource(p, inv, seen, k, i, y)
           == BackwardSource(p, inv, seen0, k, i0, if y == j0 then k else if y == k then j0 else y)
    {
      BackwardStep(p, inv, seen0, k, i0, j0, y);
    }
  }

  // ----- forward -----

  /** Row whose value stands at row `y` while the cycle of `k` is followed forward, at `j`. */
  ghost function ForwardSource(p: seq<int>, seen: set<int>, k: int, j: int, y: int): int
    requires 0 <= k < |p|
  {
    if y == j then p[k]
    else if 0 <= y < |p| && y in seen && y != k then p[y]
    else y
  }

  ghost function ForwardDone(p: seq<int>, seen: set<int>, y: int): int {
    if 0 <= y < |p| && y in seen then p[y] else y
  }

  lemma ForwardStep(p: seq<int>, inv: seq<int>, seen: set<int>, k: int, j: int, y: int)
    requires Inverse(p, inv) && 0 <= j < |p| && Following(p, inv, seen, k, inv[j], j) && j != k
    ensures ForwardSource(p, seen + {j}, k, p[j], y)
         == ForwardSource(p, seen, k, j, if y == j then p[j] else if y == p[j] then j else y)
  {
    FollowNext(p, inv, seen, k, inv[j], j);
  }

  /** Rows of a completed cycle keep their mark from `k` on; below, only where it started. */
  ghost predicate ForwardMarks(p: seq<int>, cpy: seq<int>, seen: set<int>, starts: set<int>, k: int) {
    && |cpy| == |p|
    && (forall x :: 0 <= x < |p| ==> cpy[x] == if x in seen && (x >= k || x in starts) then -p[x] - 1 else p[x])
    && (forall x :: 0 <= x < k && x < |p| ==> x in seen)
  }

  /** Each cycle has one start, and a fixed point is always a start. */
  ghost predicate StartsOK(p: seq<int>, seen: set<int>, starts: set<int>) {
    && starts <= seen
    && (forall x :: 0 <= x < |p| && x in starts && p[x] in starts ==> p[x] == x)
    && (forall x :: 0 <= x < |p| && x in seen && p[x] == x ==> x in starts)
  }

  lemma StartAdded(p: seq<int>, inv: seq<int>, seen: set<int>, starts: set<int>, k: int)
    requires Inverse(p, inv) && Closed(p, inv, seen) && StartsOK(p, seen, starts) && 0 <= k < |p| && k !in seen
    ensures StartsOK(p, seen + {k}, starts + {k})
  {
    assert inv[p[k]] == k;
    assert inv[k] !in seen;
  }

  /** A row seen after the start of its cycle. */
  lemma MarkedOnTheWay(p: seq<int>, cpy: seq<int>, next: seq<int>, seen: set<int>, starts: set<int>, k: int, j: int)
    requires ForwardMarks(p, cpy, seen, starts, k) && StartsOK(p, seen, starts) && 0 <= j < |p| && p[j] != j
    requires j !in seen && next == cpy[j := -p[j] - 1]
    ensures ForwardMarks(p, next, seen + {j}, starts, k) && StartsOK(p, seen + {j}, starts)
  {
  }

  /** The value carried at `j` moves on to its image; `j` takes its own. */
  method ForwardMove(a: array2<real>, cpy: array<int>, k: int, j0: int, i0: int, ghost p: seq<int>, ghost inv: seq<int>,
                     ghost seen0: set<int>, ghost starts: set<int>, ghost val: (int, int) -> real)
      returns (j: int, ghost seen: set<int>)
    requires Inverse(p, inv) && |p| <= a.Length0 && 0 <= j0 < |p| && Following(p, inv, seen0, k, inv[j0], j0) && j0 != k
    requires ForwardMarks(p, cpy[..], seen0, starts, k) && StartsOK(p, seen0, starts) && i0 == p[j0]
    requires forall y, c :: 0 <= y < a.Length0 && 0 <= c < a.Length1 ==>
      a[y, c] == val(ForwardSource(p, seen0, k, j0, y), c)
    modifies a, cpy
    ensures j == p[j0] != j0 && Following(p, inv, seen, k, inv[j], j) && seen0 <= seen
    ensures ForwardMarks(p, cpy[..], seen, starts, k) && StartsOK(p, seen, starts)
    ensures Unseen(seen, |p|) < Unseen(seen0, |p|)
    ensures forall y, c :: 0 <= y < a.Length0 && 0 <= c < a.Length1 ==>
      a[y, c] == val(ForwardSource(p, seen, k, j, y), c)
  {
    hide ForwardSource, Following, ForwardMarks, StartsOK;
    FollowingRange(p, inv, seen0, k, inv[j0], j0);
    SwapRows(a, j0, i0);
    MarksSize(p, cpy[..], seen0, starts, k);
    cpy[j0] := -i0 - 1;
    j := i0;
    seen := seen0 + {j0};
    FollowNext(p, inv, seen0, k, inv[j0], j0);
    MarkedOnTheWay(p, old(cpy[..]), cpy[..], seen0, starts, k, j0);
    SeeOne(seen0, |p|, j0);
    forall y {:trigger ForwardSource(p, seen, k, j, y)} | 0 <= y < a.Length0
      ensures ForwardSource(p, seen, k, j, y)
           == ForwardSource(p, seen0, k, j0, if y == j0 then j else if y == j then j0 else y)
    {
      ForwardStep(p, inv, seen0, k, j0, y);
    }
  }

  lemma MarksSize(p: seq<int>, cpy: seq<int>, seen: set<int>, starts: set<int>, k: int)
    requires ForwardMarks(p, cpy, seen, starts, k)
    ensures |cpy| == |p|
  {
  }

  lemma FollowingRange(p: seq<int>, inv: seq<int>, seen: set<int>, k: int, i: int, j: int)
    requires Inverse(p, inv) && Following(p, inv, seen, k, i, j)
    ensures 0 <= k < |p| && 0 <= i < |p| && 0 <= j < |p| && k in seen && (j != k ==> j !in seen)
    ensures inv[j] == i
  {
  }

  /** Follow the cycle of `k`, not seen before, each row taking the value of its image. */
  method ForwardCycle(a: array2<real>, cpy: array<int>, k: int, j0: int, ghost p: seq<int>, ghost inv: seq<int>,
                      ghost seen0: set<int>, ghost starts: set<int>, ghost val: (int, int) -> real)
      returns (ghost seen: set<int>)
    requires Inverse(p, inv) && |p| <= a.Length0 && 0 <= k < |p| && j0 == p[k]
    requires Following(p, inv, seen0, k, k, j0) && k in starts
    requires ForwardMarks(p, cpy[..], seen0, starts, k) && StartsOK(p, seen0, starts)
    requires forall y, c :: 0 <= y < a.Length0 && 0 <= c < a.Length1 ==>
      a[y, c] == val(ForwardSource(p, seen0, k, j0, y), c)
    modifies a, cpy
    ensures Closed(p, inv, seen) && seen0 <= seen
    ensures ForwardMarks(p, cpy[..], seen, starts, k) && StartsOK(p, seen, starts)
    ensures forall y, c :: 0 <= y < a.Length0 && 0 <= c < a.Length1 ==> a[y, c] == val(ForwardDone(p, seen, y), c)
  {
    hide Closed, ForwardSource, ForwardDone, Following, StartsOK;
    seen := seen0;
    var j := j0;
    FollowingRange(p, inv, seen, k, k, j0);
    var i := cpy[j];
    assert inv[j] == k;
    while i >= 0
      invariant 0 <= j < |p| && Following(p, inv, seen, k, inv[j], j) && seen0 <= seen && |cpy[..]| == |p|
      invariant i == cpy[j]
      invariant (j == k ==> i < 0) && (j != k ==> i == p[j] >= 0)
      invariant ForwardMarks(p, cpy[..], seen, starts, k) && StartsOK(p, seen, starts)
      invariant forall y, c :: 0 <= y < a.Length0 && 0 <= c < a.Length1 ==>
        a[y, c] == val(ForwardSource(p, seen, k, j, y), c)
      decreases Unseen(seen, |p|)
    {
      j, seen := ForwardMove(a, cpy, k, j, i, p, inv, seen, starts, val);
      FollowingRange(p, inv, seen, k, inv[j], j);
      i := cpy[j];
      assert j != i;
    }
    FollowEnd(p, inv, seen, k, inv[j]);
    forall y {:trigger ForwardDone(p, seen, y)} | 0 <= y < a.Length0
      ensures ForwardSource(p, seen, k, j, y) == ForwardDone(p, seen, y)
    {
      ForwardEnd(p, inv, seen, k, y);
    }
  }

  lemma ForwardEnd(p: seq<int>, inv: seq<int>, seen: set<int>, k: int, y: int)
    requires Inverse(p, inv) && 0 <= k < |p| && k in seen
    ensures ForwardSource(p, seen, k, k, y) == ForwardDone(p, seen, y)
  {
  }

  lemma ForwardStart(p: seq<int>, inv: seq<int>, seen: set<int>, k: int, y: int)
    requires Inverse(p, inv) && 0 <= k < |p| && k !in seen && Closed(p, inv, seen)
    ensures ForwardSource(p, seen + {k}, k, p[k], y) == ForwardDone(p, seen, y)
  {
    assert inv[p[k]] == k;
  }

  // ----- the whole permutation -----

  datatype Dir = Forward | Backward

  datatype Status = Success | BadParameter

  /** All cycles, each row going to its image. */
  method PermuteBackward(a: array2<real>, cpy: array<int>, ghost p: seq<int>, ghost inv: seq<int>,
          ghost val: (int, int) -> real)
    requires Inverse(p, inv) && |p| <= a.Length0 && cpy[..] == p
    requires forall y, c :: 0 <= y < a.Length0 && 0 <= c < a.Length1 ==> a[y, c] == val(y, c)
    modifies a, cpy
    ensures forall x :: 0 <= x < |p| ==> cpy[..][x] == -p[x] - 1
    ensures forall y, c :: 0 <= y < a.Length0 && 0 <= c < a.Length1 ==> a[y, c] == val(if y < |p| then inv[y] else y, c)
  {
    hide Closed;
    ghost var seen: set<int> := {};
    assert Closed(p, inv, seen) by { NoneClosed(p, inv); }
    for k := 0 to cpy.Length
      invariant Closed(p, inv, seen) && Marks(p, cpy[..], seen) && forall x :: 0 <= x < k ==> x in seen
      invariant forall y, c :: 0 <= y < a.Length0 && 0 <= c < a.Length1 ==>
        a[y, c] == val(BackwardDone(p, inv, seen, y), c)
    {
      if cpy[k] >= 0 {
        seen := BackwardCycle(a, cpy, k, p, inv, seen, val);
      }
    }
  }

  lemma NoneClosed(p: seq<int>, inv: seq<int>)
    requires Inverse(p, inv)
    ensures Closed(p, inv, {})
  {
  }

  /** All cycles, each row taking the value of its image. The sign of an entry is flipped
      before it is tested, so only the start of each cycle is left marked. */
  method PermuteForward(a: array2<real>, cpy: array<int>, ghost p: seq<int>, ghost inv: seq<int>,
          ghost val: (int, int) -> real)
      returns (ghost starts: set<int>)
    requires Inverse(p, inv) && |p| <= a.Length0 && cpy[..] == p
    requires forall y, c :: 0 <= y < a.Length0 && 0 <= c < a.Length1 ==> a[y, c] == val(y, c)
    modifies a, cpy
    ensures forall x :: 0 <= x < |p| ==> cpy[..][x] == if x in starts then -p[x] - 1 else p[x]
    ensures (forall x :: 0 <= x < |p| ==> x in starts) <==> IsIdentity(p)
    ensures forall y, c :: 0 <= y < a.Length0 && 0 <= c < a.Length1 ==> a[y, c] == val(if y < |p| then p[y] else y, c)
  {
    hide Closed, StartsOK;
    ghost var seen: set<int> := {};
    starts := {};
    assert Closed(p, inv, seen) && StartsOK(p, seen, starts) by { NoneStarted(p, inv); }
    for k := 0 to cpy.Length
      invariant Closed(p, inv, seen) && ForwardMarks(p, cpy[..], seen, starts, k) && StartsOK(p, seen, starts)
      invariant forall x :: x in starts ==> x < k
      invariant forall y, c :: 0 <= y < a.Length0 && 0 <= c < a.Length1 ==> a[y, c] == val(ForwardDone(p, seen, y), c)
    {
      seen, starts := ForwardVisit(a, cpy, k, p, inv, seen, starts, val);
    }
    StartsOfIdentity(p, seen, starts);
  }

  lemma NoneStarted(p: seq<int>, inv: seq<int>)
    requires Inverse(p, inv)
    ensures Closed(p, inv, {}) && StartsOK(p, {}, {})
  {
  }

  lemma StartsOfIdentity(p: seq<int>, seen: set<int>, starts: set<int>)
    requires StartsOK(p, seen, starts) && forall x :: 0 <= x < |p| ==> x in seen && 0 <= p[x] < |p|
    ensures (forall x :: 0 <= x < |p| ==> x in starts) <==> IsIdentity(p)
  {
    if forall x :: 0 <= x < |p| ==> x in starts {
      forall x | 0 <= x < |p|
        ensures p[x] == x
      {
        assert x in starts && p[x] in starts;
      }
    }
  }

  /** One step of the outer loop: start a cycle, or flip the mark of a row seen before. */
  method ForwardVisit(a: array2<real>, cpy: array<int>, k: int, ghost p: seq<int>, ghost inv: seq<int>,
                      ghost seen0: set<int>, ghost starts0: set<int>, ghost val: (int, int) -> real)
      returns (ghost seen: set<int>, ghost starts: set<int>)
    requires Inverse(p, inv) && |p| <= a.Length0 && 0 <= k < cpy.Length
    requires Closed(p, inv, seen0) && ForwardMarks(p, cpy[..], seen0, starts0, k) && StartsOK(p, seen0, starts0)
    requires forall x :: x in starts0 ==> x < k
    requires forall y, c :: 0 <= y < a.Length0 && 0 <= c < a.Length1 ==> a[y, c] == val(ForwardDone(p, seen0, y), c)
    modifies a, cpy
    ensures Closed(p, inv, seen) && ForwardMarks(p, cpy[..], seen, starts, k + 1) && StartsOK(p, seen, starts)
    ensures forall x :: x in starts ==> x < k + 1
    ensures forall y, c :: 0 <= y < a.Length0 && 0 <= c < a.Length1 ==> a[y, c] == val(ForwardDone(p, seen, y), c)
  {
    hide Closed, StartsOK, ForwardSource, ForwardDone;
    var j := cpy[k];
    cpy[k] := -j - 1;
    seen, starts := seen0, starts0;
    if j < 0 {
      assert k !in starts;
      return;
    }
    seen, starts := seen0 + {k}, starts0 + {k};
    FollowStart(p, inv, seen0, k);
    StartAdded(p, inv, seen0, starts0, k);
    forall y {:trigger ForwardSource(p, seen, k, j, y)} | 0 <= y < a.Length0
      ensures ForwardSource(p, seen, k, j, y) == ForwardDone(p, seen0, y)
    {
      ForwardStart(p, inv, seen0, k, y);
    }
    seen := ForwardCycle(a, cpy, k, j, p, inv, seen, starts, val);
  }

  ghost function Rows(a: array2<real>): (r: seq<seq<real>>)
    reads a
    ensures |r| == a.Length0 && forall y :: 0 <= y < |r| ==> |r[y]| == a.Length1
    ensures forall y, c :: 0 <= y < |r| && 0 <= c < a.Length1 ==> r[y][c] == a[y, c]
  {
    seq(a.Length0, y requires 0 <= y < a.Length0 reads a =>
          seq(a.Length1, c requires 0 <= c < a.Length1 reads a => a[y, c]))
  }

  ghost function ValueAt(r: seq<seq<real>>, y: int, c: int): real {
    if 0 <= y < |r| && 0 <= c < |r[y]| then r[y][c] else 0.0
  }

  /** Take the marks off, and tell whether every entry was marked. */
  method RestorePerm(perm: array<int>) returns (marked: bool)
    modifies perm
    ensures forall k :: 0 <= k < perm.Length ==> perm[k] == -old(perm[k]) - 1
    ensures marked <==> forall k :: 0 <= k < perm.Length ==> old(perm[k]) < 0
  {
    marked := true;
    for k := 0 to perm.Length
      invariant forall x :: 0 <= x < perm.Length ==> perm[x] == if x < k then -old(perm[x]) - 1 else old(perm[x])
      invariant marked <==> forall x :: 0 <= x < k ==> old(perm[x]) < 0
    {
      marked := marked && perm[k] < 0;
      perm[k] := -perm[k] - 1;
    }
  }

  /** Permute the rows of `a` in place. With a workspace `perm` is left alone; without,
      it carries the marks and the last loop takes them off. */
  method ZlapmrShm(dir: Dir, sameBuffer: bool, a: array2<real>, perm: array<int>, threadSafe: bool)
      returns (rc: Status, marked: bool)
    requires IsPerm(perm[..]) && perm.Length <= a.Length0
    modifies a, perm
    ensures rc == if sameBuffer then Success else BadParameter
    ensures !sameBuffer ==> perm[..] == old(perm[..])
    ensures !sameBuffer ==> forall y, c :: 0 <= y < a.Length0 && 0 <= c < a.Length1 ==> a[y, c] == old(a[y, c])
    ensures sameBuffer ==> forall y, c :: perm.Length <= y < a.Length0 && 0 <= c < a.Length1 ==> a[y, c] == old(a[y, c])
    ensures sameBuffer && dir == Backward ==> forall y, c :: 0 <= y < perm.Length && 0 <= c < a.Length1 ==>
      0 <= old(perm[y]) < a.Length0 && a[old(perm[y]), c] == old(a[y, c])
    ensures sameBuffer && dir == Forward ==> forall y, c :: 0 <= y < perm.Length && 0 <= c < a.Length1 ==>
      0 <= old(perm[y]) < a.Length0 && a[y, c] == old(a[perm[y], c])
    ensures threadSafe ==> perm[..] == old(perm[..])
    ensures sameBuffer && !threadSafe && dir == Backward ==> marked && perm[..] == old(perm[..])
    ensures sameBuffer && !threadSafe && dir == Forward ==>
      (marked <==> IsIdentity(old(perm[..]))) && (perm[..] == old(perm[..]) <==> IsIdentity(old(perm[..])))
  {
    marked := true;
    if !sameBuffer {
      return BadParameter, true;
    }
    rc := Success;
    ghost var p := perm[..];
    ghost var inv: seq<int> :| Inverse(p, inv);
    ghost var rows := Rows(a);
    ghost var was := (y: int, c: int) => ValueAt(rows, y, c);
    var permCpy := perm;
    if threadSafe {
      permCpy := new int[perm.Length];
      forall k | 0 <= k < perm.Length { permCpy[k] := perm[k]; }
      assert permCpy[..] == p;
    }
    if dir == Backward {
      PermuteBackward(a, permCpy, p, inv, was);
    } else {
      ghost var starts := PermuteForward(a, permCpy, p, inv, was);
    }
    ghost var marks := perm[..];
    if !threadSafe {
      marked := RestorePerm(perm);
    }
  }

  /** Rows `r` after the forward permutation are `q`. */
  ghost predicate MovedForward(p: seq<int>, r: seq<seq<real>>, q: seq<seq<real>>) {
    && |p| <= |r| == |q|
    && (forall y :: 0 <= y < |p| ==> 0 <= p[y] < |p| && q[y] == r[p[y]])
    && (forall y :: |p| <= y < |r| ==> q[y] == r[y])
  }

  ghost predicate MovedBackward(p: seq<int>, r: seq<seq<real>>, q: seq<seq<real>>) {
    && |p| <= |r| == |q|
    && (forall y :: 0 <= y < |p| ==> 0 <= p[y] < |p| && q[p[y]] == r[y])
    && (forall y :: |p| <= y < |r| ==> q[y] == r[y])
  }

  /** The two directions undo each other, in either order. */
  lemma UndoEachOther(p: seq<int>, r: seq<seq<real>>, q: seq<seq<real>>, back: seq<seq<real>>)
    requires IsPerm(p)
    requires (MovedForward(p, r, q) && MovedBackward(p, q, back))
        || (MovedBackward(p, r, q) && MovedForward(p, q, back))
    ensures back == r
  {
    var inv: seq<int> :| Inverse(p, inv);
    forall y | 0 <= y < |p|
      ensures back[y] == r[y]
    {
      assert p[inv[y]] == y;
    }
  }

  /** A forward permutation without workspace may leave `perm` damaged: exchanging two
      rows is enough. */
  lemma ExchangeIsNotIdentity()
    ensures IsPerm([1, 0]) && !IsIdentity([1, 0])
  {
    var p := [1, 0];
    assert Inverse(p, p);
    assert p[0] == 1;
  }
}
