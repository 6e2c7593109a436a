/** The schedule that the simulation builds: when each task starts and ends, and what it waits for. */
module SimuSchedule {
  import opened Symbol
  import opened Simu
  import opened Contributions
  import opened SimuHeaps
  import opened SimuReceive
  import opened SimuDates
  import opened SimuTimes
  import opened TaskOrder

  /** Owners and dates of the tasks mapped so far, in mapping order. */
  datatype Schedule = Schedule(own: seq<int>, order: seq<int>, released: set<int>, timers: seq<real>, dates: Dates,
      start: seq<real>, end: seq<real>)

  ghost predicate Sized(s: SymbolMatrix, c: Ctrl, w: Schedule) {
    && Setting(s, c, w.dates) && |w.own| == |w.start| == |w.end| == s.CblkNbr() && |w.timers| == |c.core2clust|
    && (forall x :: x in w.order ==> 0 <= x < |w.own| && w.own[x] >= 0)
  }

  /** A mapped task starts once its data is there, takes its cost, and ends by the clock of its core. */
  ghost predicate Planned(s: SymbolMatrix, c: Ctrl, w: Schedule, t: int)
    requires Sized(s, c, w) && 0 <= t < s.CblkNbr()
  {
    w.own[t] >= 0 ==>
      && IsCand(c, t, w.own[t]) && w.own[t] < |w.timers| && t in w.released
      && Date(s, c, w.dates, t, w.own[t]) <= w.start[t] && 0.0 <= w.start[t]
      && w.end[t] == w.start[t] + CblkCost(s, c, t) <= w.timers[w.own[t]]
  }

  /** Block `k` of a mapped task has been taken into account, when computed, in the date of the task it faces. */
  ghost predicate Brought(s: SymbolMatrix, c: Ctrl, w: Schedule, u: int, k: int)
    requires Sized(s, c, w) && 0 <= u < s.CblkNbr() && 0 <= s.First(u) < k < s.End(u) <= |s.bloktab|
  {
    var v := s.bloktab[k].fcblknm;
    w.own[u] >= 0 ==>
      && 0 <= v < s.CblkNbr() && IsCand(c, v, w.own[u])
      && w.start[u] + SumReal(c.blokcost, s.First(u), k + 1) <= Date(s, c, w.dates, v, w.own[u])
  }

  /** Block `k` of a mapped task is in fan-in dates `f`, as one of the fan-in that its core fills. */
  ghost predicate FedBy(s: SymbolMatrix, c: Ctrl, w: Schedule, u: int, k: int, f: seq<real>)
    requires CtrlOK(s, c) && Sized(s, c, w) && 0 <= u < s.CblkNbr() && s.First(u) < k < s.End(u) && |f| == |c.ftgtcost|
  {
    var v := s.bloktab[k].fcblknm;
    w.own[u] >= 0 && 0 <= v < s.CblkNbr() ==>
      && IsCand(c, v, w.own[u]) && w.own[u] < |c.core2clust| && 0 <= FaninOf(s, c, v, w.own[u]) < |f|
      && w.start[u] + SumReal(c.blokcost, s.First(u), k + 1) <= f[FaninOf(s, c, v, w.own[u])]
  }

  /** From the fan-in dates `f`, which hold all that is contributed to `v`, come the dates of its clusters. */
  ghost predicate Gathered(s: SymbolMatrix, c: Ctrl, w: Schedule, v: int, f: seq<real>)
    requires CtrlOK(s, c) && Sized(s, c, w) && 0 <= v < s.CblkNbr()
  {
    && |f| == |c.ftgtcost|
    && (forall x :: Lo(s, c, v) <= x < Hi(s, c, v) ==>
          w.dates.ftgttime[x] == Wait(f, c.ftgtcost, Lo(s, c, v), Hi(s, c, v), x))
    && (forall u, k :: 0 <= u < s.CblkNbr() && s.First(u) < k < s.End(u) && s.bloktab[k].fcblknm == v ==>
          FedBy(s, c, w, u, k, f))
  }

  /** No block faces `v`. */
  ghost predicate Unfed(s: SymbolMatrix, v: int)
    requires s.Valid()
  {
    forall u, k :: 0 <= u < s.CblkNbr() && s.First(u) < k < s.End(u) ==> s.bloktab[k].fcblknm != v
  }

  /** A released task of several clusters is dated from what is contributed to it. */
  ghost predicate Arrived(s: SymbolMatrix, c: Ctrl, w: Schedule, v: int)
    requires CtrlOK(s, c) && Sized(s, c, w) && 0 <= v < s.CblkNbr()
  {
    v in w.released && !SingleCluster(c, v) ==> Unfed(s, v) || exists f :: Gathered(s, c, w, v, f)
  }

  /** Tasks mapped `a`-th and `b`-th, if on one core, do not overlap. */
  ghost predicate InTurn(w: Schedule, a: int, b: int)
    requires 0 <= a < b < |w.order| && |w.own| == |w.start| == |w.end|
    requires forall x :: x in w.order ==> 0 <= x < |w.own|
  {
    assert w.order[a] in w.order && w.order[b] in w.order;
    w.own[w.order[a]] == w.own[w.order[b]] ==> w.end[w.order[a]] <= w.start[w.order[b]]
  }

  ghost predicate ScheduleOK(s: SymbolMatrix, c: Ctrl, w: Schedule) {
    && Sized(s, c, w)
    && (forall t :: 0 <= t < s.CblkNbr() ==> Planned(s, c, w, t))
    && (forall u, k :: 0 <= u < s.CblkNbr() && s.First(u) < k < s.End(u) ==> Brought(s, c, w, u, k))
    && (forall v :: 0 <= v < s.CblkNbr() ==> Arrived(s, c, w, v))
    && (forall a, b :: 0 <= a < b < |w.order| ==> InTurn(w, a, b))
  }

  /** The schedule once the task is mapped and computed. */
  ghost function Next(s: SymbolMatrix, c: Ctrl, w: Schedule, t: int, pr: int, start: real, d: Dates, rel: set<int>):
      Schedule
    requires CtrlOK(s, c) && 0 <= t < |w.own| == s.CblkNbr() && |w.start| == |w.end| == |w.own| && 0 <= pr < |w.timers|
  {
    var end := start + CblkCost(s, c, t);
    Schedule(w.own[t := pr], w.order + [t], rel, w.timers[pr := end], d, w.start[t := start], w.end[t := end])
  }

  ghost predicate Advances(s: SymbolMatrix, c: Ctrl, w: Schedule, g: Computed, d: Dates, rel: set<int>) {
    && CtrlOK(s, c) && Sized(s, c, w) && ComputedOK(s, c, g) && g.dates == w.dates && g.released == w.released
    && w.own[g.t] < 0 && g.t !in w.order && g.t in w.released
    && g.timers[g.pr] >= w.timers[g.pr] >= 0.0 && g.timers[g.pr] >= Date(s, c, w.dates, g.t, g.pr)
    && DatesAt(s, c, g, d, rel, s.End(g.t))
  }

  lemma WaitAtLeast(f: seq<real>, cost: seq<real>, lo: int, hi: int, x: int)
    requires 0 <= lo <= x < hi <= |f| == |cost| && cost[x] >= 0.0
    ensures Wait(f, cost, lo, hi, x) >= f[x]
  {
    LatestIsGreatest(f, cost, lo, hi);
    assert Received(f, cost, x) <= DateOf(f, cost, Latest(f, cost, lo, hi));
  }

  lemma DateIs(s: SymbolMatrix, c: Ctrl, d: Dates, v: int, p: int)
    requires Setting(s, c, d) && 0 <= v < s.CblkNbr() && IsCand(c, v, p)
    ensures 0 <= p < |c.core2clust| && Lo(s, c, v) <= FaninOf(s, c, v, p) < Hi(s, c, v) <= |d.ftgttime|
    ensures Date(s, c, d, v, p) == if SingleCluster(c, v) then d.tasktime[v] else d.ftgttime[FaninOf(s, c, v, p)]
  {
    FaninIsSlot(s, c, v, p);
  }

  /** Dates only go up; those of the tasks released before stay. */
  lemma DatesGoUp(s: SymbolMatrix, c: Ctrl, g: Computed, d: Dates, rel: set<int>, v: int, p: int)
    requires CtrlOK(s, c) && ComputedOK(s, c, g) && DatesAt(s, c, g, d, rel, s.End(g.t))
    requires 0 <= v < s.CblkNbr() && IsCand(c, v, p)
    ensures Date(s, c, d, v, p) >= Date(s, c, g.dates, v, p)
    ensures v in g.released ==> Date(s, c, d, v, p) == Date(s, c, g.dates, v, p)
  {
    hide Date, Lo, Hi, FaninOf, Wait, ClockAt;
    DateIs(s, c, d, v, p);
    DateIs(s, c, g.dates, v, p);
    assert DatedUpto(s, c, g, d, rel, s.End(g.t), v);
    var k, x := LastFacing(s, g.t, v, s.End(g.t)), FaninOf(s, c, v, p);
    WaitAtLeast(Fanins(s, c, g, v, k), c.ftgtcost, Lo(s, c, v), Hi(s, c, v), x);
    assert d.ftgttime[x] == FaninDate(s, c, g, v, k, v in rel && v !in g.released, x);
  }

  /** Each block of the task counts in the date of the task it faces. */
  lemma BlockCounts(s: SymbolMatrix, c: Ctrl, g: Computed, d: Dates, rel: set<int>, k: int)
    requires CtrlOK(s, c) && ComputedOK(s, c, g) && DatesAt(s, c, g, d, rel, s.End(g.t))
    requires s.First(g.t) < k < s.End(g.t)
    ensures var v := s.bloktab[k].fcblknm;
      0 <= v < s.CblkNbr() && IsCand(c, v, g.pr) && ClockAt(s, c, g, k) <= Date(s, c, d, v, g.pr)
  {
    hide Date, Lo, Hi, FaninOf, Wait, ClockAt;
    FacesCandidate(s, c, g.t, k, g.pr);
    var v := s.bloktab[k].fcblknm;
    DateIs(s, c, d, v, g.pr);
    assert DatedUpto(s, c, g, d, rel, s.End(g.t), v);
    var last, x := LastFacing(s, g.t, v, s.End(g.t)), FaninOf(s, c, v, g.pr);
    assert last >= k;
    ClockGrows(s, c, g, k, last);
    WaitAtLeast(Fanins(s, c, g, v, last), c.ftgtcost, Lo(s, c, v), Hi(s, c, v), x);
    assert d.ftgttime[x] == FaninDate(s, c, g, v, last, v in rel && v !in g.released, x);
  }

  lemma FacesCandidate(s: SymbolMatrix, c: Ctrl, t: int, k: int, p: int)
    requires CtrlOK(s, c) && 0 <= t < s.CblkNbr() && s.First(t) < k < s.End(t) && IsCand(c, t, p)
    ensures var v := s.bloktab[k].fcblknm; t < v < s.CblkNbr() && IsCand(c, v, p)
  {
    BlocksShareCblk(s, t, k, k);
    assert s.BlokPlaced(k) && Nested(s, c, k);
  }

  /** The task just computed keeps the schedule. */
  lemma ScheduleGrows(s: SymbolMatrix, c: Ctrl, w: Schedule, g: Computed, d: Dates, rel: set<int>)
    requires Advances(s, c, w, g, d, rel) && ScheduleOK(s, c, w)
    ensures ScheduleOK(s, c, Next(s, c, w, g.t, g.pr, g.timers[g.pr], d, rel))
  {
    hide Date, DatesAt, ClockAt, Arrived, Planned, Brought, InTurn;
    var z := Next(s, c, w, g.t, g.pr, g.timers[g.pr], d, rel);
    StillSized(s, c, w, g, d, rel);
    forall t | 0 <= t < s.CblkNbr()
      ensures Planned(s, c, z, t)
    {
      PlanKept(s, c, w, g, d, rel, t);
    }
    forall u, k | 0 <= u < s.CblkNbr() && s.First(u) < k < s.End(u)
      ensures Brought(s, c, z, u, k)
    {
      BroughtKept(s, c, w, g, d, rel, u, k);
    }
    forall v | 0 <= v < s.CblkNbr()
      ensures Arrived(s, c, z, v)
    {
      ArrivalKept(s, c, w, g, d, rel, v);
    }
    forall a, b | 0 <= a < b < |z.order|
      ensures InTurn(z, a, b)
    {
      assert w.order[a] in w.order;
      TurnKept(s, c, w, g, d, rel, a, b);
    }
  }

  lemma StillSized(s: SymbolMatrix, c: Ctrl, w: Schedule, g: Computed, d: Dates, rel: set<int>)
    requires Advances(s, c, w, g, d, rel)
    ensures Sized(s, c, Next(s, c, w, g.t, g.pr, g.timers[g.pr], d, rel))
  {
    hide Date, ClockAt;
  }

  lemma PlanKept(s: SymbolMatrix, c: Ctrl, w: Schedule, g: Computed, d: Dates, rel: set<int>, t: int)
    requires Advances(s, c, w, g, d, rel) && 0 <= t < s.CblkNbr() && Planned(s, c, w, t)
    requires Sized(s, c, Next(s, c, w, g.t, g.pr, g.timers[g.pr], d, rel))
    ensures Planned(s, c, Next(s, c, w, g.t, g.pr, g.timers[g.pr], d, rel), t)
  {
    hide Date, ClockAt, CblkCost;
    CostsNonNegative(s, c, g.t);
    if t == g.t {
      DatesGoUp(s, c, g, d, rel, t, g.pr);
    } else if w.own[t] >= 0 {
      DatesGoUp(s, c, g, d, rel, t, w.own[t]);
    }
  }

  lemma BroughtKept(s: SymbolMatrix, c: Ctrl, w: Schedule, g: Computed, d: Dates, rel: set<int>, u: int, k: int)
    requires Advances(s, c, w, g, d, rel) && 0 <= u < s.CblkNbr() && 0 <= s.First(u) < k < s.End(u) <= |s.bloktab|
    requires Brought(s, c, w, u, k) && Sized(s, c, Next(s, c, w, g.t, g.pr, g.timers[g.pr], d, rel))
    ensures Brought(s, c, Next(s, c, w, g.t, g.pr, g.timers[g.pr], d, rel), u, k)
  {
    hide Date, CblkCost;
    if u == g.t {
      BlockCounts(s, c, g, d, rel, k);
    } else if w.own[u] >= 0 {
      DatesGoUp(s, c, g, d, rel, s.bloktab[k].fcblknm, w.own[u]);
    }
  }

  /** A task released before keeps what its dates come from: the task computed does not face it. */
  lemma GatheredKept(s: SymbolMatrix, c: Ctrl, w: Schedule, g: Computed, d: Dates, rel: set<int>, v: int, f: seq<real>)
    requires Advances(s, c, w, g, d, rel) && 0 <= v < s.CblkNbr() && v in w.released && Gathered(s, c, w, v, f)
    requires Sized(s, c, Next(s, c, w, g.t, g.pr, g.timers[g.pr], d, rel))
    ensures Gathered(s, c, Next(s, c, w, g.t, g.pr, g.timers[g.pr], d, rel), v, f)
  {
    hide Date, Lo, Hi, FaninOf, Wait, ClockAt, CblkCost, SumReal;
    var z := Next(s, c, w, g.t, g.pr, g.timers[g.pr], d, rel);
    assert DatedUpto(s, c, g, d, rel, s.End(g.t), v);
    var last := LastFacing(s, g.t, v, s.End(g.t));
    forall x | Lo(s, c, v) <= x < Hi(s, c, v)
      ensures z.dates.ftgttime[x] == Wait(f, c.ftgtcost, Lo(s, c, v), Hi(s, c, v), x)
    {
      assert d.ftgttime[x] == FaninDate(s, c, g, v, last, false, x);
    }
    forall u, k | 0 <= u < s.CblkNbr() && s.First(u) < k < s.End(u) && s.bloktab[k].fcblknm == v
      ensures FedBy(s, c, z, u, k, f)
    {
      assert FedBy(s, c, w, u, k, f);
    }
  }

  /** A task just released is dated from its fan-ins, which hold all that is contributed to it. */
  lemma GatheredNow(s: SymbolMatrix, c: Ctrl, w: Schedule, g: Computed, d: Dates, rel: set<int>, v: int)
    requires Advances(s, c, w, g, d, rel) && 0 <= v < s.CblkNbr() && !SingleCluster(c, v)
    requires v in rel && v !in w.released
    requires Sized(s, c, Next(s, c, w, g.t, g.pr, g.timers[g.pr], d, rel))
    requires forall u, k :: 0 <= u < s.CblkNbr() && s.First(u) < k < s.End(u) ==> Brought(s, c, w, u, k)
    ensures Gathered(s, c, Next(s, c, w, g.t, g.pr, g.timers[g.pr], d, rel), v,
                     Fanins(s, c, g, v, LastFacing(s, g.t, v, s.End(g.t))))
  {
    hide Date, Lo, Hi, FaninOf, Wait, CblkCost, SumReal;
    var z := Next(s, c, w, g.t, g.pr, g.timers[g.pr], d, rel);
    assert DatedUpto(s, c, g, d, rel, s.End(g.t), v);
    var last := LastFacing(s, g.t, v, s.End(g.t));
    var f := Fanins(s, c, g, v, last);
    forall x | Lo(s, c, v) <= x < Hi(s, c, v)
      ensures z.dates.ftgttime[x] == Wait(f, c.ftgtcost, Lo(s, c, v), Hi(s, c, v), x)
    {
      assert d.ftgttime[x] == FaninDate(s, c, g, v, last, true, x);
    }
    forall u, k | 0 <= u < s.CblkNbr() && s.First(u) < k < s.End(u) && s.bloktab[k].fcblknm == v
      ensures FedBy(s, c, z, u, k, f)
    {
      if u == g.t {
        NewlyFed(s, c, g, k);
      } else if w.own[u] >= 0 {
        assert Brought(s, c, w, u, k);
        DateIs(s, c, w.dates, v, w.own[u]);
      }
    }
  }

  lemma NewlyFed(s: SymbolMatrix, c: Ctrl, g: Computed, k: int)
    requires CtrlOK(s, c) && ComputedOK(s, c, g) && s.First(g.t) < k < s.End(g.t)
    ensures var v := s.bloktab[k].fcblknm;
      0 <= v < s.CblkNbr() && IsCand(c, v, g.pr) && 0 <= FaninOf(s, c, v, g.pr) < |c.ftgtcost|
      && ClockAt(s, c, g, k) <= Fanins(s, c, g, v, LastFacing(s, g.t, v, s.End(g.t)))[FaninOf(s, c, v, g.pr)]
  {
    hide Lo, Hi, FaninOf, ClockAt, Slot;
    FacesCandidate(s, c, g.t, k, g.pr);
    var v := s.bloktab[k].fcblknm;
    FaninIsSlot(s, c, v, g.pr);
    ClockGrows(s, c, g, k, LastFacing(s, g.t, v, s.End(g.t)));
  }

  lemma ArrivalKept(s: SymbolMatrix, c: Ctrl, w: Schedule, g: Computed, d: Dates, rel: set<int>, v: int)
    requires Advances(s, c, w, g, d, rel) && 0 <= v < s.CblkNbr() && Arrived(s, c, w, v)
    requires Sized(s, c, Next(s, c, w, g.t, g.pr, g.timers[g.pr], d, rel))
    requires forall u, k :: 0 <= u < s.CblkNbr() && s.First(u) < k < s.End(u) ==> Brought(s, c, w, u, k)
    ensures Arrived(s, c, Next(s, c, w, g.t, g.pr, g.timers[g.pr], d, rel), v)
  {
    hide Date, DatesAt, Gathered, Brought, CblkCost, Unfed, Fanins;
    if v in rel && !SingleCluster(c, v) {
      if v !in w.released {
        GatheredNow(s, c, w, g, d, rel, v);
      } else if !Unfed(s, v) {
        var f :| Gathered(s, c, w, v, f);
        GatheredKept(s, c, w, g, d, rel, v, f);
      }
    }
  }

  lemma TurnKept(s: SymbolMatrix, c: Ctrl, w: Schedule, g: Computed, d: Dates, rel: set<int>, a: int, b: int)
    requires Advances(s, c, w, g, d, rel) && 0 <= a < b < |w.order| + 1 && (b < |w.order| ==> InTurn(w, a, b))
    requires 0 <= w.order[a] < s.CblkNbr() && Planned(s, c, w, w.order[a])
    requires Sized(s, c, Next(s, c, w, g.t, g.pr, g.timers[g.pr], d, rel))
    ensures InTurn(Next(s, c, w, g.t, g.pr, g.timers[g.pr], d, rel), a, b)
  {
    hide Date, ClockAt, CblkCost;
    assert w.order[a] in w.order;
    if b < |w.order| {
      assert w.order[b] in w.order;
    }
  }

  lemma NothingScheduled(s: SymbolMatrix, c: Ctrl, w: Schedule)
    requires Sized(s, c, w) && w.order == [] && forall t :: 0 <= t < |w.own| ==> w.own[t] < 0
    requires forall v :: v in w.released ==> Unfed(s, v)
    ensures ScheduleOK(s, c, w)
  {
  }

  lemma ScheduleSized(s: SymbolMatrix, c: Ctrl, w: Schedule)
    requires ScheduleOK(s, c, w)
    ensures Sized(s, c, w)
  {
  }

  // ----- what the schedule promises -----

  /** Two tasks of one core never run at the same time. */
  lemma OneTaskAtATime(s: SymbolMatrix, c: Ctrl, w: Schedule, u: int, v: int)
    requires ScheduleOK(s, c, w) && u in w.order && v in w.order && u != v
    ensures 0 <= u < |w.own| && 0 <= v < |w.own|
    ensures w.own[u] == w.own[v] ==> w.end[u] <= w.start[v] || w.end[v] <= w.start[u]
  {
    var a :| 0 <= a < |w.order| && w.order[a] == u;
    var b :| 0 <= b < |w.order| && w.order[b] == v;
    assert if a < b then InTurn(w, a, b) else InTurn(w, b, a);
  }

  /** A task never starts before the contributions computed on its own cluster are there;
      with one candidate cluster these are all of them. */
  lemma StartsAfter(s: SymbolMatrix, c: Ctrl, w: Schedule, u: int, k: int)
    requires CtrlOK(s, c) && ScheduleOK(s, c, w) && 0 <= u < s.CblkNbr() && s.First(u) < k < s.End(u)
    requires var v := s.bloktab[k].fcblknm; 0 <= v < s.CblkNbr() && w.own[u] >= 0 && w.own[v] >= 0
    ensures var v := s.bloktab[k].fcblknm;
      && w.own[u] < |c.core2clust| && w.own[v] < |c.core2clust|
      && (SingleCluster(c, v) || c.core2clust[w.own[u]] == c.core2clust[w.own[v]] ==>
            w.start[u] + SumReal(c.blokcost, s.First(u), k + 1) <= w.start[v])
  {
    hide Date, Lo, Hi, CblkCost;
    var v := s.bloktab[k].fcblknm;
    assert Brought(s, c, w, u, k) && Planned(s, c, w, u) && Planned(s, c, w, v);
    DateIs(s, c, w.dates, v, w.own[u]);
    DateIs(s, c, w.dates, v, w.own[v]);
  }

  /** A task of several clusters that starts on one of them has received what was contributed
      on the others, sent and added; when its own cluster is that of the fan-in received last,
      provided that the fan-in that was the latest before that one was met comes no later than
      the date kept beside it, or than its own completion. */
  lemma StartsAfterArrivals(s: SymbolMatrix, c: Ctrl, w: Schedule, u: int, k: int) returns (f: seq<real>)
    requires CtrlOK(s, c) && ScheduleOK(s, c, w) && 0 <= u < s.CblkNbr() && s.First(u) < k < s.End(u)
    requires var v := s.bloktab[k].fcblknm;
      && 0 <= v < s.CblkNbr() && w.own[u] >= 0 && w.own[v] >= 0 && !SingleCluster(c, v)
      && w.own[u] < |c.core2clust| && w.own[v] < |c.core2clust|
      && c.core2clust[w.own[u]] != c.core2clust[w.own[v]]
    ensures Gathered(s, c, w, s.bloktab[k].fcblknm, f)
    ensures var v := s.bloktab[k].fcblknm;
      var lo, hi, here := Lo(s, c, v), Hi(s, c, v), FaninOf(s, c, v, w.own[v]);
      var m := Latest(f, c.ftgtcost, lo, hi);
      && lo <= here < hi && 0 <= FaninOf(s, c, v, w.own[u]) < |c.ftgtcost|
      && ((here == m ==> DateOf(f, c.ftgtcost, Latest(f, c.ftgtcost, lo, m))
                         <= Max(f[m], Second(f, c.ftgtcost, lo, hi))) ==>
            w.start[u] + SumReal(c.blokcost, s.First(u), k + 1) + c.ftgtcost[FaninOf(s, c, v, w.own[u])] <= w.start[v])
  {
    hide Date, Lo, Hi, CblkCost, Latest, Second, DateOf, Wait, SumReal;
    var v := s.bloktab[k].fcblknm;
    assert Brought(s, c, w, u, k) && Planned(s, c, w, v) && Arrived(s, c, w, v);
    f :| Gathered(s, c, w, v, f);
    assert FedBy(s, c, w, u, k, f);
    DateIs(s, c, w.dates, v, w.own[u]);
    DateIs(s, c, w.dates, v, w.own[v]);
    var lo, hi, here, there := Lo(s, c, v), Hi(s, c, v), FaninOf(s, c, v, w.own[v]), FaninOf(s, c, v, w.own[u]);
    WaitsForOthers(f, c.ftgtcost, lo, hi, here);
    assert here != there;
    assert w.dates.ftgttime[here] == Wait(f, c.ftgtcost, lo, hi, here);
    assert Received(f, c.ftgtcost, there) == f[there] + c.ftgtcost[there];
  }
}
