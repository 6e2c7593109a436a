/** The binary min-heap behind the scheduler and the proportional mapping,
    ordered by the couple (key1, key2). The growable item array is a sequence. */
module PQueue {

  datatype Item = Item(elt: int, key1: real, key2: real)

  type Heap = seq<Item>

  predicate Less(a: Item, b: Item) {
    if a.key1 == b.key1 then a.key2 < b.key2 else a.key1 < b.key1
  }

  /** `a` may stand above `b`. */
  predicate Le(a: Item, b: Item) {
    !Less(b, a)
  }

  function Parent(i: int): int {
    (i + 1) / 2 - 1
  }

  ghost predicate Ordered(q: Heap) {
    forall i :: 0 < i < |q| ==> Le(q[Parent(i)], q[i])
  }

  /** Ordered, except that item `x` may be smaller than its parent. */
  ghost predicate OrderedUpTo(q: Heap, x: int) {
    && (forall i :: 0 < i < |q| && i != x ==> Le(q[Parent(i)], q[i]))
    && (forall i :: 0 < i < |q| && Parent(i) == x && x > 0 ==> Le(q[Parent(x)], q[i]))
  }

  /** Ordered, except that item `x` may be larger than its children. */
  ghost predicate OrderedDownTo(q: Heap, x: int) {
    && (forall i :: 0 < i < |q| && Parent(i) != x ==> Le(q[Parent(i)], q[i]))
    && (forall i :: 0 < i < |q| && Parent(i) == x && x > 0 ==> Le(q[Parent(x)], q[i]))
  }

  lemma {:induction false} HeadIsLeast(q: Heap, i: int)
    requires Ordered(q) && 0 <= i < |q|
    ensures Le(q[0], q[i])
    decreases i
  {
    if i > 0 {
      HeadIsLeast(q, Parent(i));
      assert Le(q[Parent(i)], q[i]);
    }
  }

  /** Exchange items `i` and `j`. */
  function Swap(q: Heap, i: int, j: int): (r: Heap)
    requires 0 <= i < |q| && 0 <= j < |q|
    ensures multiset(r) == multiset(q) && |r| == |q|
  {
    var r := q[i := q[j]][j := q[i]];
    assert multiset(q[i := q[j]]) == multiset(q) - multiset{q[i]} + multiset{q[j]};
    r
  }

  lemma SiftUpStep(q: Heap, i: int)
    requires 0 < i < |q| && OrderedUpTo(q, i) && Less(q[i], q[Parent(i)])
    ensures OrderedUpTo(Swap(q, i, Parent(i)), Parent(i))
  {
    var hi := Parent(i);
    var r := Swap(q, i, hi);
    forall x | 0 < x < |r| && x != hi
      ensures Le(r[Parent(x)], r[x])
    {
      assert Parent(x) != x;
      assert x != i ==> Le(q[Parent(x)], q[x]);
    }
    forall x | 0 < x < |r| && Parent(x) == hi && hi > 0
      ensures Le(r[Parent(hi)], r[x])
    {
      assert Le(q[Parent(hi)], q[hi]);
      assert x != i ==> Le(q[Parent(x)], q[x]);
    }
  }

  /** `i` and `j` count from 1, as in the source; `j` is the smaller child of `i`. */
  lemma SiftDownStep(q: Heap, i: int, j: int)
    requires 1 <= i < j <= |q| && Parent(j - 1) == i - 1 && OrderedDownTo(q, i - 1)
    requires Le(q[j - 1], q[i - 1])
    requires forall x :: 0 < x < |q| && Parent(x) == i - 1 ==> Le(q[j - 1], q[x])
    ensures OrderedDownTo(Swap(q, i - 1, j - 1), j - 1)
  {
    var r := Swap(q, i - 1, j - 1);
    forall x | 0 < x < |r| && Parent(x) != j - 1
      ensures Le(r[Parent(x)], r[x])
    {
      assert Parent(x) < x;
      if Parent(x) == i - 1 {
        assert Le(q[j - 1], q[x]);
      } else if x == i - 1 {
        assert Parent(j - 1) == x;
        assert Le(q[Parent(i - 1)], q[j - 1]);
      } else {
        assert Le(q[Parent(x)], q[x]);
      }
    }
    forall x | 0 < x < |r| && Parent(x) == j - 1
      ensures Le(r[Parent(j - 1)], r[x])
    {
      assert Le(q[Parent(x)], q[x]);
    }
  }

  lemma SameMembers(q: Heap, r: Heap, x: Item)
    requires multiset(r) == multiset(q) + multiset{x}
    ensures forall y :: y in r <==> y in q || y == x
  {
    assert forall y :: y in r <==> y in multiset(r);
    assert forall y :: y in q <==> y in multiset(q);
  }

  /** Insert, then sift up. */
  method Push2(q: Heap, elt: int, key1: real, key2: real) returns (r: Heap)
    requires Ordered(q)
    ensures Ordered(r)
    ensures multiset(r) == multiset(q) + multiset{Item(elt, key1, key2)}
    ensures forall x :: x in r <==> x in q || x == Item(elt, key1, key2)
  {
    r := q + [Item(elt, key1, key2)];
    var i := |r| - 1;
    var hi := Parent(i);
    assert forall x :: 0 < x < |r| ==> 0 <= Parent(x) < x;
    while i > 0 && Less(r[i], r[hi])
      invariant 0 <= i < |r| && hi == Parent(i)
      invariant multiset(r) == multiset(q) + multiset{Item(elt, key1, key2)}
      invariant OrderedUpTo(r, i)
    {
      SiftUpStep(r, i);
      r := Swap(r, i, hi);
      i := hi;
      hi := Parent(i);
    }
    SameMembers(q, r, Item(elt, key1, key2));
  }

  /** The head's place is taken by the last item: ordered except at the top. */
  lemma DropHead(q: Heap) returns (r: Heap)
    requires Ordered(q) && |q| > 0
    ensures r == q[0 := q[|q| - 1]][..|q| - 1]
    ensures multiset(q) == multiset(r) + multiset{q[0]}
    ensures OrderedDownTo(r, 0)
  {
    var last := q[|q| - 1];
    var t := q[..|q| - 1];
    assert q == t + [last];
    r := q[0 := last][..|q| - 1];
    if |t| > 0 {
      assert r == t[0 := last];
      assert multiset(r) == multiset(t) - multiset{q[0]} + multiset{last};
    }
    forall i | 0 < i < |r| && Parent(i) != 0
      ensures Le(r[Parent(i)], r[i])
    {
      assert Le(q[Parent(i)], q[i]);
    }
  }

  /** The smaller of the children of `i`, counting from 1. */
  function SmallerChild(q: Heap, i: int): (j: int)
    requires 1 <= i <= |q| / 2
    ensures i < j <= |q| && Parent(j - 1) == i - 1
    ensures forall x :: 0 < x < |q| && Parent(x) == i - 1 ==> Le(q[j - 1], q[x])
  {
    assert forall x :: 0 < x < |q| && Parent(x) == i - 1 ==> x == 2 * i - 1 || x == 2 * i;
    if 2 * i == |q| || Less(q[2 * i - 1], q[2 * i]) then 2 * i else 2 * i + 1
  }

  lemma SiftedIsOrdered(q: Heap, i: int)
    requires 1 <= i <= |q| + 1 && OrderedDownTo(q, i - 1)
    requires i > |q| / 2 || Less(q[i - 1], q[SmallerChild(q, i) - 1])
    ensures Ordered(q)
  {
    forall x | 0 < x < |q|
      ensures Le(q[Parent(x)], q[x])
    {
      if Parent(x) == i - 1 {
        assert i <= |q| / 2;
      }
    }
  }

  method SiftDown(q: Heap) returns (r: Heap)
    requires OrderedDownTo(q, 0)
    ensures Ordered(r)
    ensures multiset(r) == multiset(q)
  {
    hide OrderedDownTo, Ordered;
    r := q;
    var i := 1;
    while i <= |r| / 2
      invariant 1 <= i <= |r| + 1
      invariant multiset(r) == multiset(q) && |r| == |q|
      invariant OrderedDownTo(r, i - 1)
      decreases |q| - i
    {
      var j := SmallerChild(r, i);
      if !Less(r[i - 1], r[j - 1]) {
        SiftDownStep(r, i, j);
        r := Swap(r, i - 1, j - 1);
        i := j;
      } else {
        break;
      }
    }
    SiftedIsOrdered(r, i);
  }

  /** Remove the head: the last item replaces it and sifts down. */
  method Pop(q: Heap) returns (head: Item, r: Heap)
    requires Ordered(q) && |q| > 0
    ensures Ordered(r)
    ensures head == q[0] && head in q
    ensures multiset(q) == multiset(r) + multiset{head}
    ensures |r| == |q| - 1
    ensures forall x :: x in q <==> x in r || x == head
  {
    head := q[0];
    ghost var dropped := DropHead(q);
    r := SiftDown(q[0 := q[|q| - 1]][..|q| - 1]);
    SameMembers(r, q, head);
    assert |multiset(q)| == |multiset(r)| + 1;
  }

  /** Numbers of the items of a queue. */
  ghost function Elts(q: seq<Item>): multiset<int> {
    if q == [] then multiset{} else Elts(q[..|q| - 1]) + multiset{q[|q| - 1].elt}
  }

  lemma {:induction false} EltsJoin(q: seq<Item>, r: seq<Item>)
    ensures Elts(q + r) == Elts(q) + Elts(r)
  {
    if r == [] {
      assert q + r == q;
    } else {
      assert (q + r)[..|q + r| - 1] == q + r[..|r| - 1];
      EltsJoin(q, r[..|r| - 1]);
    }
  }

  lemma OneElt(x: Item)
    ensures Elts([x]) == multiset{x.elt}
  {
    assert [x][..0] == [];
  }

  /** The same items, whatever their order, have the same numbers. */
  lemma {:induction false} EltsPermuted(q: seq<Item>, r: seq<Item>)
    requires multiset(q) == multiset(r)
    ensures Elts(q) == Elts(r)
    decreases |q|
  {
    assert |q| == |multiset(q)| && |r| == |multiset(r)|;
    if q != [] {
      var x := q[|q| - 1];
      var init := q[..|q| - 1];
      assert q == init + [x];
      assert x in multiset(r);
      var k :| 0 <= k < |r| && r[k] == x;
      var a, b := r[..k], r[k + 1..];
      assert r == (a + [x]) + b;
      SameButOne(multiset(init), multiset(a + b), x);
      EltsPermuted(init, a + b);
      EltsJoin(a + [x], b);
      EltsJoin(a, [x]);
      EltsJoin(a, b);
    }
  }

  lemma SameButOne(a: multiset<Item>, b: multiset<Item>, x: Item)
    requires a + multiset{x} == b + multiset{x}
    ensures a == b
  {
    assert a == (a + multiset{x}) - multiset{x};
    assert b == (b + multiset{x}) - multiset{x};
  }

  /** An item leaves one queue and its number enters another, under other keys. */
  lemma EltMoves(ready: Heap, future: Heap, ready': Heap, future': Heap, head: Item, it: Item)
    requires multiset(future) == multiset(future') + multiset{head}
    requires multiset(ready') == multiset(ready) + multiset{it}
    requires it.elt == head.elt
    ensures Elts(ready') + Elts(future') == Elts(ready) + Elts(future)
  {
    hide Elts;
    EltsPermuted(future, future' + [head]);
    EltsPermuted(ready', ready + [it]);
    EltsJoin(future', [head]);
    EltsJoin(ready, [it]);
    OneElt(head);
    OneElt(it);
  }
}
