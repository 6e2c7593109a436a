/** What the proportional mapping shares out and what it must keep: the sons still
    to map, the idle time of each candidate, and nested candidate intervals. */
module PropMapSpec {
  import opened PQueue
  import opened TreeSpec
  import opened CandTree
  import opened Simu

  // ----- sums over the candidates -----

  lemma {:induction false} SumSplit(a: seq<real>, lo: int, mid: int, hi: int)
    requires 0 <= lo <= mid <= hi <= |a|
    ensures SumReal(a, lo, hi) == SumReal(a, lo, mid) + SumReal(a, mid, hi)
    decreases hi - mid
  {
    if mid < hi {
      SumSplit(a, lo, mid, hi - 1);
    }
  }

  lemma {:induction false} SumSame(a: seq<real>, b: seq<real>, lo: int, hi: int, shift: int)
    requires 0 <= lo <= hi <= |a| && 0 <= lo + shift && hi + shift <= |b|
    requires forall p :: lo <= p < hi ==> b[p + shift] == a[p]
    ensures SumReal(b, lo + shift, hi + shift) == SumReal(a, lo, hi)
    decreases hi - lo
  {
    if lo < hi {
      SumSame(a, b, lo, hi - 1, shift);
    }
  }

  /** Adding `d` to each of the terms. */
  lemma {:induction false} SumShift(a: seq<real>, b: seq<real>, lo: int, hi: int, shift: int, d: real)
    requires 0 <= lo <= hi <= |a| && 0 <= lo + shift && hi + shift <= |b|
    requires forall p :: lo <= p < hi ==> b[p + shift] == a[p] + d
    ensures SumReal(b, lo + shift, hi + shift) == SumReal(a, lo, hi) + (hi - lo) as real * d
    decreases hi - lo
  {
    if lo < hi {
      SumShift(a, b, lo, hi - 1, shift, d);
    }
  }

  lemma {:induction false} SumAtMost(a: seq<real>, lo: int, hi: int, m: real)
    requires 0 <= lo <= hi <= |a| && m <= 0.0 && forall p :: lo <= p < hi ==> a[p] <= m
    ensures SumReal(a, lo, hi) <= 0.0
    ensures lo < hi ==> SumReal(a, lo, hi) <= m
    decreases hi - lo
  {
    if lo < hi {
      SumAtMost(a, lo, hi - 1, m);
    }
  }

  /** `x` shared equally among `n`. */
  function Share(x: real, n: int): (v: real)
    requires n > 0
    ensures v * n as real == x
    ensures x >= 0.0 ==> v >= 0.0
    ensures x > 0.0 ==> v > 0.0
  {
    x / n as real
  }

  /** All idle times in the window are at most `m`, those inside it equal to `m`. */
  ghost predicate Hump(c: seq<real>, lo: int, hi: int, m: real)
    requires 0 <= lo && hi <= |c|
  {
    && (forall p :: lo <= p < hi ==> c[p] <= m)
    && (forall p :: lo < p < hi - 1 ==> c[p] == m)
  }

  /** First and one past the last candidate once overloaded ends are dropped. */
  function FirstIdle(c: seq<real>): int
    requires |c| > 0
  {
    if c[0] <= 0.0 then 1 else 0
  }

  function EndIdle(c: seq<real>): int
    requires |c| > 0
  {
    if c[|c| - 1] <= 0.0 then |c| - 1 else |c|
  }

  /** Some candidate is left exactly when not both of two candidates are overloaded,
      which takes a subtree without any work; and the candidates left can absorb
      all the work of the sons, so idle times are never rescaled. */
  lemma WindowHolds(c: seq<real>, aspt: real, m: real)
    requires |c| >= 2 && Hump(c, 0, |c|, m) && SumReal(c, 0, |c|) == aspt >= 0.0
    ensures 1 <= EndIdle(c) && FirstIdle(c) <= EndIdle(c)
    ensures FirstIdle(c) < EndIdle(c) <==> !(|c| == 2 && c[0] <= 0.0 && c[1] <= 0.0)
    ensures FirstIdle(c) == EndIdle(c) ==> aspt == 0.0
    ensures SumReal(c, FirstIdle(c), EndIdle(c)) >= aspt
    ensures aspt > 0.0 ==> m > 0.0 && forall p :: FirstIdle(c) <= p < EndIdle(c) ==> c[p] > 0.0
    ensures aspt == 0.0 ==> c[FirstIdle(c)] >= 0.0
  {
    var n := |c|;
    SumSplit(c, 0, 1, n);
    SumSplit(c, 1, n - 1, n);
    SumSplit(c, 0, n - 1, n);
    if aspt > 0.0 && m <= 0.0 {
      SumAtMost(c, 0, n, m);
    }
    if m < 0.0 {
      SumAtMost(c, 0, n, m);
    }
  }

  /** Two candidates on a node whose sons have no work, both paid up: none is left. */
  lemma NoCandidateLeft()
    ensures var c := [0.0, 0.0];
      Hump(c, 0, |c|, 0.0) && SumReal(c, 0, |c|) == 0.0 && FirstIdle(c) == EndIdle(c)
  {
    var c := [0.0, 0.0];
    assert SumReal(c, 0, 0) == 0.0 && SumReal(c, 0, 1) == 0.0;
  }

  // ----- sons still to map -----

  function Trunc(x: real): int {
    if x >= 0.0 then x.Floor else -((-x).Floor)
  }

  ghost function Son(fath: Tree, r: int, a: int): (y: int)
    requires 0 <= a < |AllSons(fath, r)|
    ensures 0 <= y < |fath| && fath[y] == r
  {
    SonOf(fath, r, a);
    AllSons(fath, r)[a]
  }

  /** Queue entry of son `a`: largest subtree first, then costliest node. */
  ghost function SonItem(fath: Tree, cost: seq<real>, r: int, a: int): Item
    requires Priced(fath, cost) && 0 <= a < |AllSons(fath, r)|
  {
    Item(a, -SubCost(fath, cost, Son(fath, r, a)), Trunc(-NodeCost(cost, Son(fath, r, a))) as real)
  }

  ghost predicate TodoOK(fath: Tree, cost: seq<real>, r: int, todo: seq<bool>) {
    Priced(fath, cost) && -1 <= r < |fath| && |todo| == |AllSons(fath, r)|
  }

  /** Entries of the sons below `m` still to map. */
  ghost function SonItems(fath: Tree, cost: seq<real>, r: int, todo: seq<bool>, m: int): multiset<Item>
    requires TodoOK(fath, cost, r, todo) && 0 <= m <= |todo|
  {
    if m == 0 then multiset{} else
    SonItems(fath, cost, r, todo, m - 1) + (if todo[m - 1] then multiset{SonItem(fath, cost, r, m - 1)} else multiset{})
  }

  /** Work of the sons below `m` still to map. */
  ghost function SonsLeft(fath: Tree, cost: seq<real>, r: int, todo: seq<bool>, m: int): (v: real)
    requires TodoOK(fath, cost, r, todo) && 0 <= m <= |todo|
    ensures v >= 0.0
  {
    if m == 0 then 0.0 else
    SonsLeft(fath, cost, r, todo, m - 1) + (if todo[m - 1] then SubCost(fath, cost, Son(fath, r, m - 1)) else 0.0)
  }

  lemma {:induction false} ItemIsSon(fath: Tree, cost: seq<real>, r: int, todo: seq<bool>, m: int, x: Item)
    requires TodoOK(fath, cost, r, todo) && 0 <= m <= |todo| && x in SonItems(fath, cost, r, todo, m)
    ensures 0 <= x.elt < m && todo[x.elt] && x == SonItem(fath, cost, r, x.elt)
  {
    hide SubCost, AllSons;
    if x in SonItems(fath, cost, r, todo, m - 1) {
      ItemIsSon(fath, cost, r, todo, m - 1, x);
    }
  }

  lemma {:induction false} SonTaken(fath: Tree, cost: seq<real>, r: int, todo: seq<bool>, m: int, a: int)
    requires TodoOK(fath, cost, r, todo) && 0 <= m <= |todo| && 0 <= a < |todo| && todo[a]
    ensures var left := todo[a := false];
      && SonItems(fath, cost, r, todo, m)
         == SonItems(fath, cost, r, left, m) + (if a < m then multiset{SonItem(fath, cost, r, a)} else multiset{})
      && SonsLeft(fath, cost, r, todo, m)
         == SonsLeft(fath, cost, r, left, m) + (if a < m then SubCost(fath, cost, Son(fath, r, a)) else 0.0)
  {
    hide SubCost, AllSons, SonItem;
    if m > 0 {
      SonTaken(fath, cost, r, todo, m - 1, a);
    }
  }

  lemma {:induction false} AllSonsLeft(fath: Tree, cost: seq<real>, r: int, todo: seq<bool>, m: int)
    requires TodoOK(fath, cost, r, todo) && 0 <= m <= |todo| && forall a :: 0 <= a < m ==> todo[a]
    ensures SonsLeft(fath, cost, r, todo, m) == SonsCost(fath, cost, r, m)
    ensures forall a :: 0 <= a < m ==> SubCost(fath, cost, Son(fath, r, a)) <= SonsCost(fath, cost, r, m)
  {
    hide AllSons;
    if m > 0 {
      AllSonsLeft(fath, cost, r, todo, m - 1);
    }
  }

  lemma {:induction false} NoSonLeft(fath: Tree, cost: seq<real>, r: int, todo: seq<bool>, m: int)
    requires TodoOK(fath, cost, r, todo) && 0 <= m <= |todo|
    ensures SonItems(fath, cost, r, todo, m) == multiset{}
        ==> SonsLeft(fath, cost, r, todo, m) == 0.0 && forall a :: 0 <= a < m ==> !todo[a]
  {
    hide SubCost, AllSons, SonItem;
    if m > 0 {
      NoSonLeft(fath, cost, r, todo, m - 1);
      if todo[m - 1] {
        assert SonItem(fath, cost, r, m - 1) in SonItems(fath, cost, r, todo, m);
      }
    }
  }

  /** The queue holds the sons still to map, and the idle times sum to their work. */
  ghost predicate Balanced(fath: Tree, cost: seq<real>, r: int, todo: seq<bool>, q: Heap, c: seq<real>) {
    && TodoOK(fath, cost, r, todo)
    && Ordered(q)
    && multiset(q) == SonItems(fath, cost, r, todo, |todo|)
    && SumReal(c, 0, |c|) == SonsLeft(fath, cost, r, todo, |todo|)
  }

  // ----- idle candidates -----

  /** Queue entry of candidate `p`: the most idle first. */
  ghost function CandItem(c: seq<real>, p: int): Item
    requires 0 <= p < |c|
  {
    Item(p, -c[p], 0.0)
  }

  ghost function CandItems(c: seq<real>, n: int): multiset<Item>
    requires 0 <= n <= |c|
  {
    if n == 0 then multiset{} else CandItems(c, n - 1) + multiset{CandItem(c, n - 1)}
  }

  lemma {:induction false} ItemIsCand(c: seq<real>, n: int, x: Item)
    requires 0 <= n <= |c|
    ensures x in CandItems(c, n) <==> 0 <= x.elt < n && x == CandItem(c, x.elt)
  {
    if n > 0 {
      ItemIsCand(c, n - 1, x);
    }
  }

  lemma ItemExchanged(a: multiset<Item>, b: multiset<Item>, x: Item, y: Item, z: Item)
    requires a + multiset{x} == b + multiset{y}
    ensures (a + multiset{z}) + multiset{x} == (b + multiset{z}) + multiset{y}
  {
    assert (a + multiset{z}) + multiset{x} == (a + multiset{x}) + multiset{z};
  }

  lemma ItemsCommute(a: multiset<Item>, x: Item, y: Item)
    ensures (a + multiset{x}) + multiset{y} == (a + multiset{y}) + multiset{x}
  {
  }

  lemma CandKept(c: seq<real>, d: seq<real>, k: int, p: int)
    requires 0 <= k < |c| == |d| && (k != p ==> d[k] == c[k])
    ensures k != p ==> CandItem(d, k) == CandItem(c, k)
  {
  }

  /** Changing one idle time changes one entry. */
  lemma {:induction false} CandMoved(c: seq<real>, d: seq<real>, n: int, p: int)
    requires 0 <= p < n <= |c| == |d| && forall k :: 0 <= k < n && k != p ==> d[k] == c[k]
    ensures CandItems(d, n) + multiset{CandItem(c, p)} == CandItems(c, n) + multiset{CandItem(d, p)}
  {
    hide CandItem;
    CandKept(c, d, n - 1, p);
    if p < n - 1 {
      CandMoved(c, d, n - 1, p);
      ItemExchanged(CandItems(d, n - 1), CandItems(c, n - 1), CandItem(c, p), CandItem(d, p), CandItem(c, n - 1));
    } else {
      CandsKept(c, d, n - 1);
      ItemsCommute(CandItems(c, n - 1), CandItem(c, p), CandItem(d, p));
    }
  }

  lemma {:induction false} CandsKept(c: seq<real>, d: seq<real>, n: int)
    requires 0 <= n <= |c| == |d| && forall k :: 0 <= k < n ==> d[k] == c[k]
    ensures CandItems(d, n) == CandItems(c, n)
  {
    if n > 0 {
      CandsKept(c, d, n - 1);
    }
  }

  /** The head of the queue is a most idle candidate. */
  lemma HeadIsMostIdle(procs: Heap, c: seq<real>, n: int)
    requires 1 <= n <= |c| && Ordered(procs) && multiset(procs) == CandItems(c, n)
    ensures |procs| > 0 && forall p :: 0 <= p < n ==> c[p] <= -procs[0].key1
  {
    ItemIsCand(c, n, CandItem(c, 0));
    assert CandItem(c, 0) in multiset(procs);
    forall p | 0 <= p < n
      ensures c[p] <= -procs[0].key1
    {
      ItemIsCand(c, n, CandItem(c, p));
      assert CandItem(c, p) in multiset(procs);
      var k :| 0 <= k < |procs| && procs[k] == CandItem(c, p);
      HeadIsLeast(procs, k);
    }
  }

  /** The candidates still open to the sons: all but the first have idle time left. */
  ghost predicate Window(c: seq<real>, fcand: int, candnbr: int, aspt: real, m: real) {
    && 0 <= fcand < |c| && 1 <= candnbr <= |c|
    && (aspt > 0.0 ==>
          && fcand < candnbr && m > 0.0 && Hump(c, fcand, candnbr, m)
          && (forall p :: fcand < p < candnbr ==> c[p] > 0.0))
    && (aspt <= 0.0 ==> c[fcand] >= 0.0)
  }

  lemma WindowOpens(c: seq<real>, aspt: real, m: real)
    requires |c| >= 2 && Hump(c, 0, |c|, m) && SumReal(c, 0, |c|) == aspt >= 0.0
    ensures Window(c, FirstIdle(c), EndIdle(c), aspt, m) && FirstIdle(c) <= EndIdle(c)
    ensures FirstIdle(c) < EndIdle(c) || aspt == 0.0
    ensures SumReal(c, FirstIdle(c), EndIdle(c)) >= aspt
  {
    WindowHolds(c, aspt, m);
  }

  // ----- nested intervals -----

  /** The candidates of `x` are some of its father's. */
  ghost predicate NestedIn(fath: Tree, c: seq<Cand>, x: int)
    requires |c| == |fath| + 1 && 0 <= x < |fath|
  {
    c[fath[x] + 1].fcandnum <= c[x + 1].fcandnum <= c[x + 1].lcandnum <= c[fath[x] + 1].lcandnum
  }

  /** Node `r` got [f, l], and below it every node some candidates of its father. */
  ghost predicate MappedUnder(fath: Tree, c: seq<Cand>, r: int, f: int, l: int)
    requires |c| == |fath| + 1 && -1 <= r < |fath|
  {
    && c[r + 1].fcandnum == f && c[r + 1].lcandnum == l
    && forall x :: 0 <= x < |fath| && Under(fath, x, r) && x != r ==> NestedIn(fath, c, x)
  }

  ghost predicate SonMapped(fath: Tree, c: seq<Cand>, y: int, f: int, l: int)
    requires |c| == |fath| + 1 && 0 <= y < |fath|
  {
    && f <= c[y + 1].fcandnum <= c[y + 1].lcandnum <= l
    && MappedUnder(fath, c, y, c[y + 1].fcandnum, c[y + 1].lcandnum)
  }

  lemma SonMappedKept(fath: Tree, c: seq<Cand>, d: seq<Cand>, y: int, f: int, l: int)
    requires |c| == |d| == |fath| + 1 && 0 <= y < |fath| && SonMapped(fath, c, y, f, l)
    requires forall x :: -1 <= x < |fath| && Under(fath, x, y) ==> d[x + 1] == c[x + 1]
    ensures SonMapped(fath, d, y, f, l)
  {
    assert Under(fath, y, y);
    forall x | 0 <= x < |fath| && Under(fath, x, y) && x != y
      ensures NestedIn(fath, d, x)
    {
      assert Under(fath, fath[x], y);
      assert NestedIn(fath, c, x);
    }
  }

  /** The whole subtree given to the same candidates is mapped. */
  lemma UniformIsMapped(fath: Tree, c: seq<Cand>, r: int, f: int, l: int)
    requires |c| == |fath| + 1 && -1 <= r < |fath| && f <= l
    requires forall x :: -1 <= x < |fath| && Under(fath, x, r) ==> c[x + 1].fcandnum == f && c[x + 1].lcandnum == l
    ensures MappedUnder(fath, c, r, f, l)
  {
    assert Under(fath, r, r);
    forall x | 0 <= x < |fath| && Under(fath, x, r) && x != r
      ensures NestedIn(fath, c, x)
    {
      assert Under(fath, fath[x], r);
    }
  }

  lemma MappedIsSon(fath: Tree, c: seq<Cand>, y: int, f: int, l: int, lo: int, hi: int)
    requires |c| == |fath| + 1 && 0 <= y < |fath| && MappedUnder(fath, c, y, f, l) && lo <= f <= l <= hi
    ensures SonMapped(fath, c, y, lo, hi)
  {
  }

  /** Nothing moved outside the subtree of `r`, and the sons not in `todo` are mapped. */
  ghost predicate Progress(fath: Tree, was: seq<Cand>, c: seq<Cand>, r: int, todo: seq<bool>, f: int, l: int) {
    && |was| == |c| == |fath| + 1 && -1 <= r < |fath| && |todo| == |AllSons(fath, r)|
    && Touched(fath, was, c, r)
    && c[r + 1].fcandnum == f && c[r + 1].lcandnum == l
    && (forall a :: 0 <= a < |todo| && !todo[a] ==> SonMapped(fath, c, Son(fath, r, a), f, l))
  }

  /** `c` differs from `was` only in the candidates of nodes under `r`. */
  ghost predicate Touched(fath: Tree, was: seq<Cand>, c: seq<Cand>, r: int) {
    && |was| == |c| == |fath| + 1
    && (forall x :: -1 <= x < |fath| ==>
          c[x + 1] == if Under(fath, x, r) then WithCores(was[x + 1], c[x + 1]) else was[x + 1])
  }

  ghost function WithCores(a: Cand, b: Cand): Cand {
    a.(fcandnum := b.fcandnum, lcandnum := b.lcandnum)
  }

  lemma SonProgress(fath: Tree, was: seq<Cand>, c: seq<Cand>, d: seq<Cand>, r: int, todo: seq<bool>, a: int, f: int,
          l: int)
    requires Progress(fath, was, c, r, todo, f, l) && 0 <= a < |todo|
    requires Touched(fath, c, d, Son(fath, r, a)) && SonMapped(fath, d, Son(fath, r, a), f, l)
    ensures Progress(fath, was, d, r, todo[a := false], f, l)
  {
    hide Sons, SonMapped, Under, Level, NestedIn;
    var y := Son(fath, r, a);
    forall x | -1 <= x < |fath|
      ensures Under(fath, x, y) ==> x != r && Under(fath, x, r)
      ensures d[x + 1] == if Under(fath, x, r) then WithCores(was[x + 1], d[x + 1]) else was[x + 1]
    {
      SonVisited(fath, r, a, x);
    }
    assert !Under(fath, r, y) && d[r + 1] == c[r + 1];
    forall b | 0 <= b < |todo| && !todo[b] && b != a
      ensures SonMapped(fath, d, Son(fath, r, b), f, l)
    {
      var z := Son(fath, r, b);
      forall x | -1 <= x < |fath| && Under(fath, x, z) ensures d[x + 1] == c[x + 1] {
        if Under(fath, x, y) {
          SonsApart(fath, x, y, z);
          SonsMembers(fath, r, |fath|);
        }
      }
      SonMappedKept(fath, c, d, z, f, l);
    }
  }

  lemma NoneMapped(fath: Tree, was: seq<Cand>, c: seq<Cand>, r: int, todo: seq<bool>, f: int, l: int)
    requires |was| == |fath| + 1 && -1 <= r < |fath| && c == was[r + 1 := was[r + 1].(fcandnum := f, lcandnum := l)]
    requires |todo| == |AllSons(fath, r)| && forall a :: 0 <= a < |todo| ==> todo[a]
    ensures Progress(fath, was, c, r, todo, f, l)
  {
    assert Under(fath, r, r);
  }

  lemma AllMapped(fath: Tree, was: seq<Cand>, c: seq<Cand>, r: int, todo: seq<bool>, f: int, l: int)
    requires Progress(fath, was, c, r, todo, f, l) && forall a :: 0 <= a < |todo| ==> !todo[a]
    ensures MappedUnder(fath, c, r, f, l) && Touched(fath, was, c, r)
  {
    hide Sons, Under, Level, Touched;
    forall x | 0 <= x < |fath| && Under(fath, x, r) && x != r
      ensures NestedIn(fath, c, x)
    {
      var y := UnderSon(fath, x, r);
      SonsMembers(fath, r, |fath|);
      assert y in AllSons(fath, r);
      var a :| 0 <= a < |todo| && AllSons(fath, r)[a] == y;
      assert Son(fath, r, a) == y;
      assert SonMapped(fath, c, y, f, l);
    }
  }
}
