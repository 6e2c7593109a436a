/** How contributions move dates, and how far any date can go: all clocks and
    dates stay within the work of the mapped tasks and of the released fan-ins. */
module SimuDates {
  import opened Symbol
  import opened Simu
  import opened SimuHeaps

  /** The fan-ins of distinct diagonal blocks are distinct. */
  lemma SlotsApart(s: SymbolMatrix, c: Ctrl, t: int, u: int, p: int)
    requires CtrlOK(s, c) && 0 <= t < s.CblkNbr() && 0 <= u < s.CblkNbr() && t != u && IsCand(c, u, p)
    ensures !(FtgtBase(s, c, s.First(t)) <= Slot(s, c, u, p) < FtgtBase(s, c, s.First(t) + 1))
  {
    var a, b := s.First(t), s.First(u);
    CtrlGivesCands(s, c);
    assert s.bloktab[a].lcblknm == t && s.bloktab[b].lcblknm == u;
    if a < b {
      FtgtBaseMonotone(s, c, a, b);
    } else {
      FtgtBaseMonotone(s, c, b, a);
    }
  }

  /** Writing the fan-in dates of an unreleased task of several clusters. */
  lemma FaninDatesMove(s: SymbolMatrix, c: Ctrl, d: Dates, d': Dates, rel: set<int>, t: int)
    requires Setting(s, c, d) && Setting(s, c, d') && DatesOK(s, c, d) && d'.tasktime == d.tasktime
    requires 0 <= t < s.CblkNbr() && !SingleCluster(c, t) && t !in rel
    requires forall i :: 0 <= i < |d.ftgttime| ==> d'.ftgttime[i] >= 0.0
    requires 0 <= s.First(t) < |s.bloktab|
    requires forall i :: 0 <= i < |d.ftgttime| && !(FtgtBase(s, c, s.First(t)) <= i < FtgtBase(s, c, s.First(t) + 1))
                         ==> d'.ftgttime[i] == d.ftgttime[i]
    ensures DatesOK(s, c, d')
    ensures forall u, p :: Entitled(s, c, rel, u, p) ==> Date(s, c, d', u, p) == Date(s, c, d, u, p)
  {
    forall u, p | 0 <= u < s.CblkNbr() && IsCand(c, u, p) && u != t
      ensures d'.ftgttime[Slot(s, c, u, p)] == d.ftgttime[Slot(s, c, u, p)]
    {
      SlotsApart(s, c, t, u, p);
    }
  }

  /** Writing the date of an unreleased task of a single cluster. */
  lemma TaskDateMoves(s: SymbolMatrix, c: Ctrl, d: Dates, rel: set<int>, t: int, v: real)
    requires Setting(s, c, d) && DatesOK(s, c, d)
    requires 0 <= t < s.CblkNbr() && SingleCluster(c, t) && t !in rel && v >= 0.0
    ensures Setting(s, c, d.(tasktime := d.tasktime[t := v]))
    ensures DatesOK(s, c, d.(tasktime := d.tasktime[t := v]))
    ensures forall u, p :: Entitled(s, c, rel, u, p)
              ==> Date(s, c, d.(tasktime := d.tasktime[t := v]), u, p) == Date(s, c, d, u, p)
  {
  }

  // ----- bound on dates -----

  ghost function CblkCost(s: SymbolMatrix, c: Ctrl, i: int): real
    requires s.Valid() && |c.blokcost| == |s.bloktab| && 0 <= i < s.CblkNbr()
  {
    SumReal(c.blokcost, s.First(i), s.End(i))
  }

  /** Cost of receiving and adding every fan-in of column block `i`. */
  ghost function FaninCost(s: SymbolMatrix, c: Ctrl, i: int): real
    requires CtrlOK(s, c) && 0 <= i < s.CblkNbr()
  {
    CtrlGivesCands(s, c);
    FtgtBaseMonotone(s, c, s.First(i), |s.bloktab|);
    SumReal(c.ftgtcost, FtgtBase(s, c, s.First(i)), FtgtBase(s, c, s.First(i) + 1))
  }

  /** Work of the mapped tasks and of the fan-ins of the released ones, below `n`. */
  ghost function Work(s: SymbolMatrix, c: Ctrl, own: seq<int>, rel: set<int>, n: int): real
    requires CtrlOK(s, c) && |own| == s.CblkNbr() && 0 <= n <= |own|
  {
    if n == 0 then 0.0
    else Work(s, c, own, rel, n - 1)
         + (if own[n - 1] >= 0 then CblkCost(s, c, n - 1) else 0.0)
         + (if n - 1 in rel then FaninCost(s, c, n - 1) else 0.0)
  }

  /** All the work there is: a figure known before the simulation starts. */
  ghost function TotalWork(s: SymbolMatrix, c: Ctrl, n: int): real
    requires CtrlOK(s, c) && 0 <= n <= s.CblkNbr()
  {
    if n == 0 then 0.0 else TotalWork(s, c, n - 1) + CblkCost(s, c, n - 1) + FaninCost(s, c, n - 1)
  }

  lemma CostsNonNegative(s: SymbolMatrix, c: Ctrl, i: int)
    requires CtrlOK(s, c) && 0 <= i < s.CblkNbr()
    ensures CblkCost(s, c, i) >= 0.0 && FaninCost(s, c, i) >= 0.0
  {
    RealSumAtLeast(c.blokcost, s.First(i), s.End(i), -1);
    CtrlGivesCands(s, c);
    FtgtBaseMonotone(s, c, s.First(i), |s.bloktab|);
    RealSumAtLeast(c.ftgtcost, FtgtBase(s, c, s.First(i)), FtgtBase(s, c, s.First(i) + 1), -1);
  }

  lemma {:induction false} WorkWithinTotal(s: SymbolMatrix, c: Ctrl, own: seq<int>, rel: set<int>, n: int)
    requires CtrlOK(s, c) && |own| == s.CblkNbr() && 0 <= n <= |own|
    ensures 0.0 <= Work(s, c, own, rel, n) <= TotalWork(s, c, n)
  {
    if n > 0 {
      WorkWithinTotal(s, c, own, rel, n - 1);
      CostsNonNegative(s, c, n - 1);
    }
  }

  lemma {:induction false} WorkMaps(s: SymbolMatrix, c: Ctrl, own: seq<int>, rel: set<int>, n: int, t: int, p: int)
    requires CtrlOK(s, c) && |own| == s.CblkNbr() && 0 <= n <= |own|
    requires 0 <= t < |own| && own[t] < 0 <= p
    ensures Work(s, c, own[t := p], rel, n) == Work(s, c, own, rel, n) + (if t < n then CblkCost(s, c, t) else 0.0)
  {
    if n > 0 {
      WorkMaps(s, c, own, rel, n - 1, t, p);
    }
  }

  lemma {:induction false} WorkReleases(s: SymbolMatrix, c: Ctrl, own: seq<int>, rel: set<int>, n: int, t: int)
    requires CtrlOK(s, c) && |own| == s.CblkNbr() && 0 <= n <= |own| && 0 <= t < |own| && t !in rel
    ensures Work(s, c, own, rel + {t}, n) == Work(s, c, own, rel, n) + (if t < n then FaninCost(s, c, t) else 0.0)
  {
    if n > 0 {
      WorkReleases(s, c, own, rel, n - 1, t);
    }
  }

  lemma {:induction false} SumFromBelow(a: seq<real>, lo: int, hi: int)
    requires 0 <= lo < hi <= |a|
    ensures SumReal(a, lo, hi) == a[lo] + SumReal(a, lo + 1, hi)
    decreases hi - lo
  {
    if lo < hi - 1 {
      SumFromBelow(a, lo, hi - 1);
    }
  }

  /** No clock or date exceeds `w`; the clock of `pr` leaves room for `slack` more. */
  ghost predicate Bounded(d: Dates, timers: seq<real>, w: real, pr: int, slack: real) {
    && w >= 0.0
    && (forall p :: 0 <= p < |timers| ==> 0.0 <= timers[p] && timers[p] + (if p == pr then slack else 0.0) <= w)
    && (forall t :: 0 <= t < |d.tasktime| ==> d.tasktime[t] <= w)
    && (forall i :: 0 <= i < |d.ftgttime| ==> d.ftgttime[i] <= w)
  }
}
