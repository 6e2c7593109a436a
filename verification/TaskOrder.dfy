/** The order in which the simulation maps tasks, and the task list of each core. */
module TaskOrder {
  import opened Symbol
  import opened Contributions

  /** Every contributor of a mapped task was mapped before it. */
  ghost predicate DependencyOrder(s: SymbolMatrix, order: seq<int>)
    requires s.Valid()
  {
    forall b, u :: 0 <= b < |order| && 0 <= u < s.CblkNbr() && Contributes(s, u, order[b]) ==> u in order[..b]
  }

  ghost predicate NoRepeat(order: seq<int>) {
    forall a, b :: 0 <= a < b < |order| ==> order[a] != order[b]
  }

  /** The tasks of `order` mapped on core `p`, in that order. */
  ghost function OnCore(order: seq<int>, own: seq<int>, p: int): seq<int> {
    if order == [] then []
    else
      var t := order[|order| - 1];
      OnCore(order[..|order| - 1], own, p) + (if 0 <= t < |own| && own[t] == p then [t] else [])
  }

  lemma {:induction false} OnCoreMembers(order: seq<int>, own: seq<int>, p: int)
    ensures forall t :: t in OnCore(order, own, p) <==> t in order && 0 <= t < |own| && own[t] == p
  {
    if order != [] {
      var n := |order| - 1;
      OnCoreMembers(order[..n], own, p);
      assert order == order[..n] + [order[n]];
    }
  }

  lemma {:induction false} OnCoreFrame(order: seq<int>, own: seq<int>, own': seq<int>, p: int)
    requires |own| == |own'| && forall t :: t in order && 0 <= t < |own| ==> own[t] == own'[t]
    ensures OnCore(order, own, p) == OnCore(order, own', p)
  {
    if order != [] {
      OnCoreFrame(order[..|order| - 1], own, own', p);
    }
  }

  /** On each core, a task comes after every task of that core contributing to it. */
  lemma {:induction false} CoreListInOrder(s: SymbolMatrix, order: seq<int>, own: seq<int>, p: int, a: int, b: int)
    requires s.Valid() && |own| == s.CblkNbr() && DependencyOrder(s, order) && NoRepeat(order)
    requires 0 <= a < b < |OnCore(order, own, p)|
    ensures 0 <= OnCore(order, own, p)[b] < |own|
    ensures !Contributes(s, OnCore(order, own, p)[b], OnCore(order, own, p)[a])
  {
    var n := |order| - 1;
    var prev := OnCore(order[..n], own, p);
    OnCoreMembers(order, own, p);
    assert OnCore(order, own, p)[b] in OnCore(order, own, p);
    assert forall x :: 0 <= x <= n ==> order[..n][..x] == order[..x];
    if b < |prev| {
      CoreListInOrder(s, order[..n], own, p, a, b);
    } else {
      OnCoreMembers(order[..n], own, p);
      assert prev[a] in prev;
      var x :| 0 <= x < n && order[x] == prev[a];
      assert order[n] !in order[..x];
    }
  }

  lemma {:induction false} NoRepeatBound(order: seq<int>, n: int)
    requires NoRepeat(order) && n >= 0 && forall x :: x in order ==> 0 <= x < n
    ensures |order| <= n
    ensures (forall x :: 0 <= x < n ==> x in order) ==> |order| == n
  {
    var all := Upto(n);
    var got := Elements(order);
    assert all == got + (all - got);
    if forall x :: 0 <= x < n ==> x in order {
      assert got == all;
    }
  }

  ghost function Upto(n: int): (r: set<int>)
    requires n >= 0
    ensures |r| == n && forall x :: x in r <==> 0 <= x < n
  {
    if n == 0 then {} else Upto(n - 1) + {n - 1}
  }

  ghost function Elements(order: seq<int>): (r: set<int>)
    requires NoRepeat(order)
    ensures |r| == |order| && forall x :: x in r <==> x in order
  {
    if order == [] then {}
    else
      assert order == order[..|order| - 1] + [order[|order| - 1]];
      Elements(order[..|order| - 1]) + {order[|order| - 1]}
  }
}
