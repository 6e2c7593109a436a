/** When the fan-ins of a task are received, as the source computes it: the latest one,
    the date kept beside it, and what each candidate cluster then waits for. */
module SimuReceive {
  import opened SimuHeaps

  /** Receive date of fan-in `i`: when it is complete, plus its costs. */
  ghost function Received(ftgttime: seq<real>, cost: seq<real>, i: int): real
    requires 0 <= i < |ftgttime| == |cost|
  {
    ftgttime[i] + cost[i]
  }

  /** The first fan-in received last, or -1 when all are there from the start. */
  ghost function Latest(f: seq<real>, cost: seq<real>, lo: int, hi: int): (m: int)
    requires 0 <= lo <= hi <= |f| == |cost|
    ensures m == -1 || lo <= m < hi
    decreases hi - lo
  {
    if lo == hi then -1
    else
      var m := Latest(f, cost, lo, hi - 1);
      if Received(f, cost, hi - 1) > DateOf(f, cost, m) then hi - 1 else m
  }

  ghost function DateOf(f: seq<real>, cost: seq<real>, m: int): real
    requires |f| == |cost| && m < |f|
  {
    if m < 0 then 0.0 else Received(f, cost, m)
  }

  /** The date kept as second latest: that of the fan-ins that were not the latest when met. */
  ghost function Second(f: seq<real>, cost: seq<real>, lo: int, hi: int): real
    requires 0 <= lo <= hi <= |f| == |cost|
    decreases hi - lo
  {
    if lo == hi then 0.0
    else
      var before := Second(f, cost, lo, hi - 1);
      if Latest(f, cost, lo, hi) == hi - 1 then before else Max(before, Received(f, cost, hi - 1))
  }

  /** Date from which a task may run on the cluster of fan-in `i`, once all are dated. */
  ghost function Wait(f: seq<real>, cost: seq<real>, lo: int, hi: int, i: int): real
    requires 0 <= lo <= i < hi <= |f| == |cost|
  {
    var m := Latest(f, cost, lo, hi);
    if i == m then Max(Second(f, cost, lo, hi), f[i]) else DateOf(f, cost, m)
  }

  lemma {:induction false} LatestIsGreatest(f: seq<real>, cost: seq<real>, lo: int, hi: int)
    requires 0 <= lo <= hi <= |f| == |cost|
    ensures forall i :: lo <= i < hi ==> Received(f, cost, i) <= DateOf(f, cost, Latest(f, cost, lo, hi))
    ensures DateOf(f, cost, Latest(f, cost, lo, hi)) >= 0.0
    decreases hi - lo
  {
    if lo < hi {
      LatestIsGreatest(f, cost, lo, hi - 1);
    }
  }

  lemma {:induction false} SecondBounds(f: seq<real>, cost: seq<real>, lo: int, hi: int)
    requires 0 <= lo <= hi <= |f| == |cost|
    ensures 0.0 <= Second(f, cost, lo, hi) <= DateOf(f, cost, Latest(f, cost, lo, hi))
    ensures var m := Latest(f, cost, lo, hi);
      m != -1 ==> forall i :: m < i < hi ==> Received(f, cost, i) <= Second(f, cost, lo, hi)
    ensures Latest(f, cost, lo, hi) == -1 ==> Second(f, cost, lo, hi) == 0.0
    decreases hi - lo
  {
    if lo < hi {
      SecondBounds(f, cost, lo, hi - 1);
      LatestIsGreatest(f, cost, lo, hi - 1);
    }
  }

  /** The latest fan-in was the latest of those up to it, and the rest stayed below. */
  lemma {:induction false} LatestAtItsTurn(f: seq<real>, cost: seq<real>, lo: int, hi: int)
    requires 0 <= lo <= hi <= |f| == |cost| && Latest(f, cost, lo, hi) != -1
    ensures var m := Latest(f, cost, lo, hi);
      && Latest(f, cost, lo, m + 1) == m
      && Second(f, cost, lo, hi) >= Second(f, cost, lo, m)
    decreases hi - lo
  {
    if Latest(f, cost, lo, hi) != hi - 1 {
      LatestAtItsTurn(f, cost, lo, hi - 1);
    }
  }

  /** Every cluster waits for the fan-ins of the others, except that the cluster of the
      latest fan-in does so if and only if the fan-in that was the latest before it was
      met comes no later than the date kept beside it, or than its own completion. */
  lemma WaitsForOthers(f: seq<real>, cost: seq<real>, lo: int, hi: int, i: int)
    requires 0 <= lo <= i < hi <= |f| == |cost|
    ensures var m := Latest(f, cost, lo, hi);
      (forall j :: lo <= j < hi && j != i ==> Received(f, cost, j) <= Wait(f, cost, lo, hi, i))
      <==> (i == m ==> DateOf(f, cost, Latest(f, cost, lo, m)) <= Max(f[m], Second(f, cost, lo, hi)))
  {
    var m := Latest(f, cost, lo, hi);
    LatestIsGreatest(f, cost, lo, hi);
    SecondBounds(f, cost, lo, hi);
    if i == m {
      LatestAtItsTurn(f, cost, lo, hi);
      LatestIsGreatest(f, cost, lo, m);
      var p := Latest(f, cost, lo, m);
      if p != -1 {
        assert p != m && DateOf(f, cost, p) == Received(f, cost, p);
      }
    }
  }

  /** Two fan-ins received at 5 and 10, complete at 4 and 1: the cluster of the second one
      may start at 1, before it has the first. */
  lemma LatestMayNotWait()
    ensures var f, cost := [4.0, 1.0], [1.0, 9.0];
      Wait(f, cost, 0, 2, 1) < Received(f, cost, 0)
  {
    var f, cost := [4.0, 1.0], [1.0, 9.0];
    assert Latest(f, cost, 0, 0) == -1;
    assert Latest(f, cost, 0, 1) == 0 && Second(f, cost, 0, 1) == 0.0;
    assert Latest(f, cost, 0, 2) == 1;
  }
}
