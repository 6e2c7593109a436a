/** What computing one task does to the dates of the tasks it contributes to. */
module SimuTimes {
  import opened Symbol
  import opened Simu
  import opened SimuHeaps
  import opened SimuReceive
  import opened SimuDates

  /** A task about to be computed on core `pr`, with the clocks, the dates and the released
      tasks it finds. */
  datatype Computed = Computed(t: int, pr: int, timers: seq<real>, dates: Dates, released: set<int>)

  ghost predicate ComputedOK(s: SymbolMatrix, c: Ctrl, g: Computed) {
    && Setting(s, c, g.dates) && 0 <= g.t < s.CblkNbr() && IsCand(c, g.t, g.pr)
    && |g.timers| == |c.core2clust| && 0 <= g.pr < |g.timers|
    && 0 <= s.First(g.t) < s.End(g.t) <= |c.blokcost|
  }

  /** Last block of the task, below `hi`, that faces column block `v`; its diagonal block if none does. */
  ghost function LastFacing(s: SymbolMatrix, t: int, v: int, hi: int): (k: int)
    requires s.Valid() && 0 <= t < s.CblkNbr() && s.First(t) < hi <= s.End(t)
    ensures s.First(t) <= k < hi && (k > s.First(t) ==> s.bloktab[k].fcblknm == v)
    ensures forall x :: k < x < hi ==> s.bloktab[x].fcblknm != v
    decreases hi
  {
    if hi == s.First(t) + 1 then s.First(t)
    else if s.bloktab[hi - 1].fcblknm == v then hi - 1
    else LastFacing(s, t, v, hi - 1)
  }

  /** Clock of the core once block `k` is computed. */
  ghost function ClockAt(s: SymbolMatrix, c: Ctrl, g: Computed, k: int): real
    requires ComputedOK(s, c, g) && s.First(g.t) <= k < s.End(g.t)
  {
    g.timers[g.pr] + SumReal(c.blokcost, s.First(g.t), k + 1)
  }

  /** First fan-in of the diagonal block of `v`, and one past the last. */
  ghost function Lo(s: SymbolMatrix, c: Ctrl, v: int): int
    requires CtrlOK(s, c) && 0 <= v < s.CblkNbr()
  {
    FtgtBase(s, c, s.First(v))
  }

  ghost function Hi(s: SymbolMatrix, c: Ctrl, v: int): (r: int)
    requires CtrlOK(s, c) && 0 <= v < s.CblkNbr()
    ensures 0 <= Lo(s, c, v) < r <= |c.ftgtcost|
  {
    CtrlGivesCands(s, c);
    FtgtBaseMonotone(s, c, s.First(v), |s.bloktab|);
    FtgtBase(s, c, s.First(v) + 1)
  }

  /** Fan-in of core `p` for the diagonal block of `v`. */
  ghost function FaninOf(s: SymbolMatrix, c: Ctrl, v: int, p: int): int
    requires CtrlOK(s, c) && 0 <= v < s.CblkNbr() && 0 <= p < |c.core2clust|
  {
    Lo(s, c, v) + c.core2clust[p] - c.candtab[v].fccandnum
  }

  ghost function Raised(f: seq<real>, x: int, date: real): (r: seq<real>)
    ensures |r| == |f|
  {
    if 0 <= x < |f| then f[x := Max(date, f[x])] else f
  }

  /** Fan-in dates once the blocks up to `k`, the last that faces `v`, are computed. */
  ghost function Fanins(s: SymbolMatrix, c: Ctrl, g: Computed, v: int, k: int): (f: seq<real>)
    requires CtrlOK(s, c) && ComputedOK(s, c, g) && 0 <= v < s.CblkNbr() && s.First(g.t) <= k < s.End(g.t)
    ensures |f| == |c.ftgtcost|
  {
    if k == s.First(g.t) then g.dates.ftgttime
    else Raised(g.dates.ftgttime, FaninOf(s, c, v, g.pr), ClockAt(s, c, g, k))
  }

  /** Date of fan-in `x` of `v` by then: what its cluster waits for, once `v` is released. */
  ghost function FaninDate(s: SymbolMatrix, c: Ctrl, g: Computed, v: int, k: int, complete: bool, x: int): real
    requires CtrlOK(s, c) && ComputedOK(s, c, g) && 0 <= v < s.CblkNbr() && s.First(g.t) <= k < s.End(g.t)
    requires Lo(s, c, v) <= x < Hi(s, c, v)
  {
    if SingleCluster(c, v) then g.dates.ftgttime[x]
    else if complete then Wait(Fanins(s, c, g, v, k), c.ftgtcost, Lo(s, c, v), Hi(s, c, v), x)
    else Fanins(s, c, g, v, k)[x]
  }

  /** Dates of `v` once the blocks up to `k`, the last that faces it, are computed: the date
      of a task of one cluster is raised to the clock of block `k`, and so is the fan-in that
      the core fills for a task of several. */
  ghost predicate DatedBy(s: SymbolMatrix, c: Ctrl, g: Computed, d: Dates, v: int, k: int, complete: bool)
    requires CtrlOK(s, c) && ComputedOK(s, c, g) && 0 <= v < s.CblkNbr() && s.First(g.t) <= k < s.End(g.t)
    requires Setting(s, c, d)
  {
    && d.tasktime[v] == (if SingleCluster(c, v) && k > s.First(g.t) then Max(ClockAt(s, c, g, k), g.dates.tasktime[v])
                         else g.dates.tasktime[v])
    && (forall x :: Lo(s, c, v) <= x < Hi(s, c, v) ==> d.ftgttime[x] == FaninDate(s, c, g, v, k, complete, x))
  }

  /** `v` is dated by the blocks below `hi`; none of them faces it if it was released before. */
  ghost predicate DatedUpto(s: SymbolMatrix, c: Ctrl, g: Computed, d: Dates, rel: set<int>, hi: int, v: int)
    requires CtrlOK(s, c) && ComputedOK(s, c, g) && 0 <= v < s.CblkNbr() && s.First(g.t) < hi <= s.End(g.t)
    requires Setting(s, c, d)
  {
    var k := LastFacing(s, g.t, v, hi);
    && DatedBy(s, c, g, d, v, k, v in rel && v !in g.released)
    && (v in g.released ==> k == s.First(g.t))
  }

  /** Dates once the blocks of the task below `hi` are computed. */
  ghost predicate DatesAt(s: SymbolMatrix, c: Ctrl, g: Computed, d: Dates, rel: set<int>, hi: int)
    requires CtrlOK(s, c) && ComputedOK(s, c, g) && s.First(g.t) < hi <= s.End(g.t)
  {
    && Setting(s, c, d) && g.released <= rel
    && forall v :: 0 <= v < s.CblkNbr() ==> DatedUpto(s, c, g, d, rel, hi, v)
  }

  lemma NothingDated(s: SymbolMatrix, c: Ctrl, g: Computed)
    requires CtrlOK(s, c) && ComputedOK(s, c, g)
    ensures DatesAt(s, c, g, g.dates, g.released, s.First(g.t) + 1)
  {
    hide ClockAt, Lo, Hi, FaninOf, Wait;
    var hi := s.First(g.t) + 1;
    forall v | 0 <= v < s.CblkNbr()
      ensures DatedUpto(s, c, g, g.dates, g.released, hi, v)
    {
    }
  }

  /** The fan-in that a core fills is that of its cluster. */
  lemma FaninIsSlot(s: SymbolMatrix, c: Ctrl, v: int, p: int)
    requires CtrlOK(s, c) && 0 <= v < s.CblkNbr() && IsCand(c, v, p)
    ensures 0 <= p < |c.core2clust| && FaninOf(s, c, v, p) == Slot(s, c, v, p)
    ensures Lo(s, c, v) <= FaninOf(s, c, v, p) < Hi(s, c, v)
  {
    assert CandOK(c, v);
    var slot := Slot(s, c, v, p);
  }

  /** Two tasks have their fan-ins apart. */
  lemma FaninsApart(s: SymbolMatrix, c: Ctrl, u: int, v: int, x: int)
    requires CtrlOK(s, c) && 0 <= u < s.CblkNbr() && 0 <= v < s.CblkNbr() && u != v
    requires Lo(s, c, u) <= x < Hi(s, c, u)
    ensures !(Lo(s, c, v) <= x < Hi(s, c, v))
  {
    CtrlGivesCands(s, c);
    assert s.bloktab[s.First(u)].lcblknm == u && s.bloktab[s.First(v)].lcblknm == v;
    if s.First(u) < s.First(v) {
      FtgtBaseMonotone(s, c, s.First(u), s.First(v));
    } else {
      FtgtBaseMonotone(s, c, s.First(v), s.First(u));
    }
  }

  lemma ClockGrows(s: SymbolMatrix, c: Ctrl, g: Computed, k: int, l: int)
    requires CtrlOK(s, c) && ComputedOK(s, c, g) && s.First(g.t) <= k <= l < s.End(g.t)
    ensures ClockAt(s, c, g, k) <= ClockAt(s, c, g, l)
    ensures g.timers[g.pr] <= ClockAt(s, c, g, k)
    decreases l
  {
    RealSumAtLeast(c.blokcost, s.First(g.t), k + 1, -1);
    if k < l {
      ClockGrows(s, c, g, k, l - 1);
    }
  }

  lemma FirstClock(s: SymbolMatrix, c: Ctrl, g: Computed)
    requires CtrlOK(s, c) && ComputedOK(s, c, g)
    ensures ClockAt(s, c, g, s.First(g.t)) == g.timers[g.pr] + c.blokcost[s.First(g.t)]
  {
    assert SumReal(c.blokcost, s.First(g.t), s.First(g.t)) == 0.0;
  }

  /** One more block facing `v` raises its date, or its fan-in, to the clock once more. */
  lemma DateRaised(s: SymbolMatrix, c: Ctrl, g: Computed, d: Dates, d': Dates, v: int, k: int, i: int)
    requires CtrlOK(s, c) && ComputedOK(s, c, g) && 0 <= v < s.CblkNbr() && Setting(s, c, d) && Setting(s, c, d')
    requires s.First(g.t) <= k <= i < s.End(g.t) && s.First(g.t) < i && IsCand(c, v, g.pr)
    requires DatedBy(s, c, g, d, v, k, false)
    requires d' == if SingleCluster(c, v) then d.(tasktime := d.tasktime[v := Max(ClockAt(s, c, g, i), d.tasktime[v])])
      else d.(ftgttime := Raised(d.ftgttime, FaninOf(s, c, v, g.pr), ClockAt(s, c, g, i)))
    ensures DatedBy(s, c, g, d', v, i, false)
  {
    hide Lo, Hi, FaninOf, ClockAt, Slot, Wait;
    ClockGrows(s, c, g, k, i);
    FaninIsSlot(s, c, v, g.pr);
    var x := FaninOf(s, c, v, g.pr);
    forall y | Lo(s, c, v) <= y < Hi(s, c, v)
      ensures d'.ftgttime[y] == FaninDate(s, c, g, v, i, false, y)
    {
      assert d.ftgttime[y] == FaninDate(s, c, g, v, k, false, y);
    }
  }

  /** The dates of the other tasks are left alone. */
  lemma DateKept(s: SymbolMatrix, c: Ctrl, g: Computed, d: Dates, d': Dates, v: int, k: int, complete: bool)
    requires CtrlOK(s, c) && ComputedOK(s, c, g) && 0 <= v < s.CblkNbr() && Setting(s, c, d) && Setting(s, c, d')
    requires s.First(g.t) <= k < s.End(g.t) && DatedBy(s, c, g, d, v, k, complete) && d'.tasktime[v] == d.tasktime[v]
    requires forall x :: Lo(s, c, v) <= x < Hi(s, c, v) ==> d'.ftgttime[x] == d.ftgttime[x]
    ensures DatedBy(s, c, g, d', v, k, complete)
  {
    hide Lo, Hi, FaninDate, ClockAt;
    forall y | Lo(s, c, v) <= y < Hi(s, c, v)
      ensures d'.ftgttime[y] == FaninDate(s, c, g, v, k, complete, y)
    {
      assert d.ftgttime[y] == FaninDate(s, c, g, v, k, complete, y);
    }
  }

  /** Block `i` contributes once more to the task it faces, not released yet. */
  lemma Postponed(s: SymbolMatrix, c: Ctrl, g: Computed, d: Dates, d': Dates, rel: set<int>, i: int, hi: int)
    requires CtrlOK(s, c) && ComputedOK(s, c, g) && s.First(g.t) < i < s.End(g.t) && i <= hi <= i + 1
    requires DatesAt(s, c, g, d, rel, hi) && Setting(s, c, d')
    requires var v := s.bloktab[i].fcblknm;
      && 0 <= v < s.CblkNbr() && v !in rel && IsCand(c, v, g.pr)
      && d' == if SingleCluster(c, v) then d.(tasktime := d.tasktime[v := Max(ClockAt(s, c, g, i), d.tasktime[v])])
               else d.(ftgttime := Raised(d.ftgttime, FaninOf(s, c, v, g.pr), ClockAt(s, c, g, i)))
    ensures DatesAt(s, c, g, d', rel, i + 1)
  {
    hide Lo, Hi, FaninOf, ClockAt, FaninDate, DatedBy, Slot;
    var fc := s.bloktab[i].fcblknm;
    FaninIsSlot(s, c, fc, g.pr);
    var next := i + 1;
    forall v | 0 <= v < s.CblkNbr()
      ensures DatedUpto(s, c, g, d', rel, next, v)
    {
      assert DatedUpto(s, c, g, d, rel, hi, v);
      var k := LastFacing(s, g.t, v, hi);
      if v == fc {
        DateRaised(s, c, g, d, d', v, k, i);
      } else {
        OthersFaced(s, c, fc, v, g.pr);
        DateKept(s, c, g, d, d', v, k, v in rel && v !in g.released);
      }
    }
  }

  lemma OthersFaced(s: SymbolMatrix, c: Ctrl, fc: int, v: int, p: int)
    requires CtrlOK(s, c) && 0 <= fc < s.CblkNbr() && 0 <= v < s.CblkNbr() && fc != v && IsCand(c, fc, p)
    ensures 0 <= p < |c.core2clust| && !(Lo(s, c, v) <= FaninOf(s, c, fc, p) < Hi(s, c, v))
  {
    hide Lo, Hi, FaninOf, Slot;
    FaninIsSlot(s, c, fc, p);
    FaninsApart(s, c, fc, v, FaninOf(s, c, fc, p));
  }

  // ----- release -----

  lemma {:induction false} LatestAgrees(f: seq<real>, h: seq<real>, cost: seq<real>, lo: int, hi: int)
    requires 0 <= lo <= hi <= |f| == |h| == |cost| && forall x :: lo <= x < hi ==> f[x] == h[x]
    ensures Latest(f, cost, lo, hi) == Latest(h, cost, lo, hi) && Second(f, cost, lo, hi) == Second(h, cost, lo, hi)
    decreases hi - lo
  {
    if lo < hi {
      LatestAgrees(f, h, cost, lo, hi - 1);
    }
  }

  /** What a cluster waits for depends on the fan-ins of the task only. */
  lemma WaitAgrees(f: seq<real>, h: seq<real>, cost: seq<real>, lo: int, hi: int, x: int)
    requires 0 <= lo <= x < hi <= |f| == |h| == |cost| && forall y :: lo <= y < hi ==> f[y] == h[y]
    ensures Wait(f, cost, lo, hi, x) == Wait(h, cost, lo, hi, x)
  {
    hide Latest, Second;
    LatestAgrees(f, h, cost, lo, hi);
  }

  /** The fan-in dates of `t` are those its candidate clusters wait for, from the dates `f`
      of its fan-ins; no other date moved. */
  ghost predicate Dated(s: SymbolMatrix, c: Ctrl, t: int, f: seq<real>, f': seq<real>)
    requires CtrlOK(s, c) && 0 <= t < s.CblkNbr()
  {
    && |f| == |f'| == |c.ftgtcost|
    && (forall x :: 0 <= x < |f| && !(Lo(s, c, t) <= x < Hi(s, c, t)) ==> f'[x] == f[x])
    && (forall x :: Lo(s, c, t) <= x < Hi(s, c, t) ==> f'[x] == Wait(f, c.ftgtcost, Lo(s, c, t), Hi(s, c, t), x))
  }

  /** A task just released is dated from its fan-ins. */
  lemma DateComplete(s: SymbolMatrix, c: Ctrl, g: Computed, d: Dates, d': Dates, v: int, k: int)
    requires CtrlOK(s, c) && ComputedOK(s, c, g) && 0 <= v < s.CblkNbr() && Setting(s, c, d) && Setting(s, c, d')
    requires s.First(g.t) <= k < s.End(g.t) && DatedBy(s, c, g, d, v, k, false) && d'.tasktime == d.tasktime
    requires if SingleCluster(c, v) then d'.ftgttime == d.ftgttime else Dated(s, c, v, d.ftgttime, d'.ftgttime)
    ensures DatedBy(s, c, g, d', v, k, true)
  {
    hide Lo, Hi, Fanins, ClockAt, Wait;
    forall x | Lo(s, c, v) <= x < Hi(s, c, v)
      ensures d'.ftgttime[x] == FaninDate(s, c, g, v, k, true, x)
    {
      assert d.ftgttime[x] == FaninDate(s, c, g, v, k, false, x);
      if !SingleCluster(c, v) {
        forall y | Lo(s, c, v) <= y < Hi(s, c, v)
          ensures d.ftgttime[y] == Fanins(s, c, g, v, k)[y]
        {
          assert d.ftgttime[y] == FaninDate(s, c, g, v, k, false, y);
        }
        WaitAgrees(d.ftgttime, Fanins(s, c, g, v, k), c.ftgtcost, Lo(s, c, v), Hi(s, c, v), x);
      }
    }
  }

  lemma NowReleased(s: SymbolMatrix, c: Ctrl, g: Computed, d: Dates, d': Dates, rel: set<int>, fc: int, hi: int)
    requires CtrlOK(s, c) && ComputedOK(s, c, g) && s.First(g.t) < hi <= s.End(g.t)
    requires DatesAt(s, c, g, d, rel, hi) && 0 <= fc < s.CblkNbr() && fc !in rel
    requires Setting(s, c, d') && d'.tasktime == d.tasktime
    requires if SingleCluster(c, fc) then d'.ftgttime == d.ftgttime else Dated(s, c, fc, d.ftgttime, d'.ftgttime)
    ensures DatesAt(s, c, g, d', rel + {fc}, hi)
  {
    hide Lo, Hi, DatedBy, Wait;
    forall v | 0 <= v < s.CblkNbr()
      ensures DatedUpto(s, c, g, d', rel + {fc}, hi, v)
    {
      assert DatedUpto(s, c, g, d, rel, hi, v);
      var k := LastFacing(s, g.t, v, hi);
      if v == fc {
        DateComplete(s, c, g, d, d', v, k);
      } else {
        forall x | Lo(s, c, v) <= x < Hi(s, c, v)
          ensures d'.ftgttime[x] == d.ftgttime[x]
        {
          FaninsApart(s, c, v, fc, x);
        }
        DateKept(s, c, g, d, d', v, k, v in rel && v !in g.released);
      }
    }
  }
}
