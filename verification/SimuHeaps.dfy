/** Dates and heaps of the simulation: when a released task can start on a core,
    and how the ready and future heaps of each core represent those dates. */
module SimuHeaps {
  import opened Symbol
  import opened PQueue
  import opened Simu

  /** Ready dates kept per task, and per fan-in. */
  datatype Dates = Dates(tasktime: seq<real>, ftgttime: seq<real>)

  ghost predicate Setting(s: SymbolMatrix, c: Ctrl, d: Dates) {
    && CtrlOK(s, c)
    && |d.tasktime| == s.CblkNbr()
    && |d.ftgttime| == |c.ftgtcost|
  }

  /** Fan-in index holding the date of task `t` for core `p`. */
  ghost function Slot(s: SymbolMatrix, c: Ctrl, t: int, p: int): (r: int)
    requires CtrlOK(s, c) && 0 <= t < s.CblkNbr() && IsCand(c, t, p)
    ensures CandOK(c, t) && 0 <= p < |c.core2clust| && 0 <= s.First(t) < |s.bloktab|
    ensures s.bloktab[s.First(t)].lcblknm == t
    ensures r == Clust2Index(s, c, s.First(t), c.core2clust[p])
    ensures 0 <= FtgtBase(s, c, s.First(t)) <= r < FtgtBase(s, c, s.First(t) + 1) <= |c.ftgtcost|
  {
    assert CandOK(c, t);
    CtrlGivesCands(s, c);
    assert HasCands(s, c, s.First(t));
    Clust2IndexInRange(s, c, s.First(t), c.core2clust[p]);
    Clust2Index(s, c, s.First(t), c.core2clust[p])
  }

  /** Date at which the data of task `t` is available to core `p`. */
  ghost function Date(s: SymbolMatrix, c: Ctrl, d: Dates, t: int, p: int): real
    requires Setting(s, c, d) && 0 <= t < s.CblkNbr() && IsCand(c, t, p)
  {
    if SingleCluster(c, t) then d.tasktime[t] else d.ftgttime[Slot(s, c, t, p)]
  }

  function Max(a: real, b: real): real {
    if a > b then a else b
  }

  /** The date compared by the search: clock, fan-in date and task date. */
  ghost function StartDate(s: SymbolMatrix, c: Ctrl, d: Dates, timer: real, t: int, p: int): real
    requires Setting(s, c, d) && 0 <= t < s.CblkNbr() && IsCand(c, t, p)
  {
    Max(Max(timer, d.ftgttime[Slot(s, c, t, p)]), d.tasktime[t])
  }

  /** Only one of the two dates of a task is in use; the other stays zero. */
  ghost predicate DatesOK(s: SymbolMatrix, c: Ctrl, d: Dates)
    requires Setting(s, c, d)
  {
    && (forall t :: 0 <= t < |d.tasktime| ==> d.tasktime[t] >= 0.0)
    && (forall i :: 0 <= i < |d.ftgttime| ==> d.ftgttime[i] >= 0.0)
    && (forall t, p :: 0 <= t < s.CblkNbr() && IsCand(c, t, p) ==>
          if SingleCluster(c, t) then d.ftgttime[Slot(s, c, t, p)] == 0.0 else d.tasktime[t] == 0.0)
  }

  lemma StartDateIsMax(s: SymbolMatrix, c: Ctrl, d: Dates, timer: real, t: int, p: int)
    requires Setting(s, c, d) && DatesOK(s, c, d) && 0 <= t < s.CblkNbr() && IsCand(c, t, p) && timer >= 0.0
    ensures StartDate(s, c, d, timer, t, p) == Max(timer, Date(s, c, d, t, p))
  {
  }

  /** Entry of the ready heaps: by level, then block. */
  ghost function ReadyItem(s: SymbolMatrix, c: Ctrl, t: int): Item
    requires CtrlOK(s, c) && 0 <= t < s.CblkNbr()
  {
    Item(t, c.candtab[t].treelevel as real, s.First(t) as real)
  }

  /** Entry of the future heap of core `p`: by date, then level. */
  ghost function FutureItem(s: SymbolMatrix, c: Ctrl, d: Dates, t: int, p: int): Item
    requires Setting(s, c, d) && 0 <= t < s.CblkNbr() && IsCand(c, t, p)
  {
    Item(t, Date(s, c, d, t, p), c.candtab[t].treelevel as real)
  }

  ghost predicate Entitled(s: SymbolMatrix, c: Ctrl, rel: set<int>, t: int, p: int)
    requires CtrlOK(s, c)
  {
    t in rel && 0 <= t < s.CblkNbr() && IsCand(c, t, p)
  }

  ghost predicate ReadyOK(s: SymbolMatrix, c: Ctrl, d: Dates, rel: set<int>, p: int, timer: real, it: Item)
    requires Setting(s, c, d)
  {
    && Entitled(s, c, rel, it.elt, p)
    && it == ReadyItem(s, c, it.elt)
    && Date(s, c, d, it.elt, p) <= timer
  }

  ghost predicate FutureOK(s: SymbolMatrix, c: Ctrl, d: Dates, rel: set<int>, p: int, timer: real, behind: bool,
          it: Item)
    requires Setting(s, c, d)
  {
    && Entitled(s, c, rel, it.elt, p)
    && it == FutureItem(s, c, d, it.elt, p)
    && (!behind ==> Date(s, c, d, it.elt, p) >= timer)
  }

  /** The heaps of core `p`: ready dates are at most its clock and future dates at
      least it (unless the clock has just moved, `behind`); every entry is a
      released task; every released task of the core that is not mapped, other
      than `taken`, has an entry. Stale entries are those of mapped tasks. */
  ghost predicate HeapOK(s: SymbolMatrix, c: Ctrl, d: Dates, own: seq<int>, rel: set<int>, p: int,
                         ready: Heap, future: Heap, timer: real, behind: bool, taken: int)
    requires Setting(s, c, d) && |own| == s.CblkNbr()
  {
    && Ordered(ready) && Ordered(future)
    && (forall it :: it in ready ==> ReadyOK(s, c, d, rel, p, timer, it))
    && (forall it :: it in future ==> FutureOK(s, c, d, rel, p, timer, behind, it))
    && (forall t :: Entitled(s, c, rel, t, p) && own[t] < 0 && t != taken ==> Queued(s, c, d, p, ready, future, t))
  }

  ghost predicate Queued(s: SymbolMatrix, c: Ctrl, d: Dates, p: int, ready: Heap, future: Heap, t: int)
    requires Setting(s, c, d) && 0 <= t < s.CblkNbr() && IsCand(c, t, p)
  {
    ReadyItem(s, c, t) in ready || FutureItem(s, c, d, t, p) in future
  }

  /** Every core but `skip` is up to date. */
  ghost predicate AllHeaps(s: SymbolMatrix, c: Ctrl, d: Dates, own: seq<int>, rel: set<int>,
                           ready: seq<Heap>, future: seq<Heap>, timers: seq<real>, skip: int, taken: int)
    requires Setting(s, c, d) && |own| == s.CblkNbr()
  {
    && |ready| == |future| == |timers| == |c.core2clust|
    && forall p :: 0 <= p < |timers| ==> HeapOK(s, c, d, own, rel, p, ready[p], future[p], timers[p], p == skip, taken)
  }

  /** Reading the head of the future heap yields its earliest date. */
  lemma FutureHeadEarliest(s: SymbolMatrix, c: Ctrl, d: Dates, own: seq<int>, rel: set<int>, p: int,
                           ready: Heap, future: Heap, timer: real, behind: bool, taken: int, t: int)
    requires Setting(s, c, d) && |own| == s.CblkNbr()
    requires HeapOK(s, c, d, own, rel, p, ready, future, timer, behind, taken)
    requires |future| > 0 && Entitled(s, c, rel, t, p) && FutureItem(s, c, d, t, p) in future
    ensures Entitled(s, c, rel, future[0].elt, p)
    ensures Date(s, c, d, future[0].elt, p) <= Date(s, c, d, t, p)
  {
    var it := FutureItem(s, c, d, t, p);
    var i :| 0 <= i < |future| && future[i] == it;
    HeadIsLeast(future, i);
    assert future[0] in future;
    assert FutureOK(s, c, d, rel, p, timer, behind, future[0]);
  }

  /** The head chosen for core `p` starts as early there as any task it could run. */
  lemma HeadStartsFirst(s: SymbolMatrix, c: Ctrl, d: Dates, own: seq<int>, rel: set<int>, p: int,
                        ready: Heap, future: Heap, timer: real, head: int, t: int)
    requires Setting(s, c, d) && DatesOK(s, c, d) && |own| == s.CblkNbr() && timer >= 0.0
    requires HeapOK(s, c, d, own, rel, p, ready, future, timer, false, -1)
    requires if |ready| > 0 then head == ready[0].elt else |future| > 0 && head == future[0].elt
    requires Entitled(s, c, rel, t, p) && own[t] < 0
    ensures Entitled(s, c, rel, head, p)
    ensures StartDate(s, c, d, timer, head, p) <= StartDate(s, c, d, timer, t, p)
  {
    StartDateIsMax(s, c, d, timer, t, p);
    if |ready| > 0 {
      assert ready[0] in ready;
      assert ReadyOK(s, c, d, rel, p, timer, ready[0]);
    } else {
      assert Queued(s, c, d, p, ready, future, t);
      FutureHeadEarliest(s, c, d, own, rel, p, ready, future, timer, false, -1, t);
    }
    StartDateIsMax(s, c, d, timer, head, p);
  }

  /** Core `p` takes task `t` before `u`: of the tasks whose date its clock has passed, the one
      of least level, then of least first block; else the one of least date, then level. */
  ghost predicate GoesFirst(s: SymbolMatrix, c: Ctrl, d: Dates, timer: real, t: int, u: int, p: int)
    requires Setting(s, c, d) && 0 <= t < s.CblkNbr() && 0 <= u < s.CblkNbr() && IsCand(c, t, p) && IsCand(c, u, p)
  {
    var a, b := c.candtab[t].treelevel, c.candtab[u].treelevel;
    var x, y := Date(s, c, d, t, p), Date(s, c, d, u, p);
    && (y < timer ==> a < b || (a == b && s.First(t) <= s.First(u)))
    && (x > timer ==> x < y || (x == y && a <= b))
  }

  /** The head chosen for core `p` goes first among the tasks it could run. */
  lemma HeadGoesFirst(s: SymbolMatrix, c: Ctrl, d: Dates, own: seq<int>, rel: set<int>, p: int, ready: Heap,
          future: Heap, timer: real, head: int, t: int)
    requires Setting(s, c, d) && |own| == s.CblkNbr()
    requires HeapOK(s, c, d, own, rel, p, ready, future, timer, false, -1)
    requires if |ready| > 0 then head == ready[0].elt else |future| > 0 && head == future[0].elt
    requires Entitled(s, c, rel, head, p) && Entitled(s, c, rel, t, p) && own[t] < 0
    ensures GoesFirst(s, c, d, timer, head, t, p)
  {
    assert Queued(s, c, d, p, ready, future, t);
    var heap := if |ready| > 0 then ready else future;
    var it := if |ready| > 0 then ReadyItem(s, c, t) else FutureItem(s, c, d, t, p);
    assert heap[0] in heap;
    assert if |ready| > 0 then ReadyOK(s, c, d, rel, p, timer, heap[0])
      else FutureOK(s, c, d, rel, p, timer, false, heap[0]);
    if FutureItem(s, c, d, t, p) in future {
      assert FutureOK(s, c, d, rel, p, timer, false, FutureItem(s, c, d, t, p));
    }
    if it in heap {
      var i :| 0 <= i < |heap| && heap[i] == it;
      HeadIsLeast(heap, i);
    }
  }

  /** Popping a mapped task, or the task being taken, keeps the heaps. */
  lemma DropReady(s: SymbolMatrix, c: Ctrl, d: Dates, own: seq<int>, rel: set<int>, p: int,
                  ready: Heap, future: Heap, timer: real, behind: bool, taken: int, ready': Heap, head: Item)
    requires Setting(s, c, d) && |own| == s.CblkNbr()
    requires HeapOK(s, c, d, own, rel, p, ready, future, timer, behind, taken)
    requires Ordered(ready') && forall it :: it in ready <==> it in ready' || it == head
    requires head.elt == taken || (0 <= head.elt < |own| && own[head.elt] >= 0)
    ensures HeapOK(s, c, d, own, rel, p, ready', future, timer, behind, taken)
  {
    forall t | Entitled(s, c, rel, t, p) && own[t] < 0 && t != taken
      ensures Queued(s, c, d, p, ready', future, t)
    {
      assert Queued(s, c, d, p, ready, future, t);
    }
  }

  lemma DropFuture(s: SymbolMatrix, c: Ctrl, d: Dates, own: seq<int>, rel: set<int>, p: int,
                   ready: Heap, future: Heap, timer: real, behind: bool, taken: int, future': Heap, head: Item)
    requires Setting(s, c, d) && |own| == s.CblkNbr()
    requires HeapOK(s, c, d, own, rel, p, ready, future, timer, behind, taken)
    requires Ordered(future') && forall it :: it in future <==> it in future' || it == head
    requires head.elt == taken || (0 <= head.elt < |own| && own[head.elt] >= 0)
    ensures HeapOK(s, c, d, own, rel, p, ready, future', timer, behind, taken)
  {
    forall t | Entitled(s, c, rel, t, p) && own[t] < 0 && t != taken
      ensures Queued(s, c, d, p, ready, future', t)
    {
      assert Queued(s, c, d, p, ready, future, t);
    }
  }

  /** Moving an entry whose date has passed from the future to the ready heap. */
  lemma MoveToReady(s: SymbolMatrix, c: Ctrl, d: Dates, own: seq<int>, rel: set<int>, p: int,
                    ready: Heap, future: Heap, timer: real, taken: int, ready': Heap, future': Heap, head: Item)
    requires Setting(s, c, d) && |own| == s.CblkNbr()
    requires HeapOK(s, c, d, own, rel, p, ready, future, timer, true, taken)
    requires head in future && FutureOK(s, c, d, rel, p, timer, true, head) && Date(s, c, d, head.elt, p) < timer
    requires Ordered(future') && forall it :: it in future <==> it in future' || it == head
    requires Ordered(ready') && forall it :: it in ready' <==> it in ready || it == ReadyItem(s, c, head.elt)
    ensures HeapOK(s, c, d, own, rel, p, ready', future', timer, true, taken)
  {
    forall t | Entitled(s, c, rel, t, p) && own[t] < 0 && t != taken
      ensures Queued(s, c, d, p, ready', future', t)
    {
      assert Queued(s, c, d, p, ready, future, t);
    }
  }

  /** Once the head of the future heap is not before the clock, the core is up to date. */
  lemma CaughtUp(s: SymbolMatrix, c: Ctrl, d: Dates, own: seq<int>, rel: set<int>, p: int,
                 ready: Heap, future: Heap, timer: real, taken: int)
    requires Setting(s, c, d) && |own| == s.CblkNbr()
    requires HeapOK(s, c, d, own, rel, p, ready, future, timer, true, taken)
    requires |future| > 0 ==> Entitled(s, c, rel, future[0].elt, p) && Date(s, c, d, future[0].elt, p) >= timer
    ensures HeapOK(s, c, d, own, rel, p, ready, future, timer, false, taken)
  {
    forall it | it in future
      ensures FutureOK(s, c, d, rel, p, timer, false, it)
    {
      assert FutureOK(s, c, d, rel, p, timer, true, it);
      FutureHeadEarliest(s, c, d, own, rel, p, ready, future, timer, true, taken, it.elt);
    }
  }

  /** A clock moving forward leaves its core to be caught up. */
  lemma ClockAdvances(s: SymbolMatrix, c: Ctrl, d: Dates, own: seq<int>, rel: set<int>,
                      ready: seq<Heap>, future: seq<Heap>, timers: seq<real>, p: int, v: real, skip: int, taken: int)
    requires Setting(s, c, d) && |own| == s.CblkNbr()
    requires AllHeaps(s, c, d, own, rel, ready, future, timers, skip, taken)
    requires 0 <= p < |timers| && v >= timers[p] && (skip == -1 || skip == p)
    ensures AllHeaps(s, c, d, own, rel, ready, future, timers[p := v], p, taken)
  {
    forall q | 0 <= q < |timers|
      ensures HeapOK(s, c, d, own, rel, q, ready[q], future[q], timers[p := v][q], q == p, taken)
    {
      assert HeapOK(s, c, d, own, rel, q, ready[q], future[q], timers[q], q == skip, taken);
      forall it | it in ready[q]
        ensures ReadyOK(s, c, d, rel, q, timers[p := v][q], it)
      {
        assert ReadyOK(s, c, d, rel, q, timers[q], it);
      }
      forall it | it in future[q]
        ensures FutureOK(s, c, d, rel, q, timers[p := v][q], q == p, it)
      {
        assert FutureOK(s, c, d, rel, q, timers[q], q == skip, it);
      }
    }
  }

  /** Dates of released tasks unchanged: the heaps are unaffected. */
  lemma DatesOfOthers(s: SymbolMatrix, c: Ctrl, d: Dates, d': Dates, own: seq<int>, rel: set<int>,
                      ready: seq<Heap>, future: seq<Heap>, timers: seq<real>, skip: int, taken: int)
    requires Setting(s, c, d) && Setting(s, c, d') && |own| == s.CblkNbr()
    requires AllHeaps(s, c, d, own, rel, ready, future, timers, skip, taken)
    requires forall t, p :: Entitled(s, c, rel, t, p) ==> Date(s, c, d', t, p) == Date(s, c, d, t, p)
    ensures AllHeaps(s, c, d', own, rel, ready, future, timers, skip, taken)
  {
    forall p | 0 <= p < |timers|
      ensures HeapOK(s, c, d', own, rel, p, ready[p], future[p], timers[p], p == skip, taken)
    {
      assert HeapOK(s, c, d, own, rel, p, ready[p], future[p], timers[p], p == skip, taken);
      forall it | it in ready[p]
        ensures ReadyOK(s, c, d', rel, p, timers[p], it)
      {
        assert ReadyOK(s, c, d, rel, p, timers[p], it);
      }
      forall it | it in future[p]
        ensures FutureOK(s, c, d', rel, p, timers[p], p == skip, it)
      {
        assert FutureOK(s, c, d, rel, p, timers[p], p == skip, it);
      }
      forall t | Entitled(s, c, rel, t, p) && own[t] < 0 && t != taken
        ensures Queued(s, c, d', p, ready[p], future[p], t)
      {
        assert Queued(s, c, d, p, ready[p], future[p], t);
      }
    }
  }

  /** Pushing a newly released task on the heap its date calls for. */
  lemma PushReleased(s: SymbolMatrix, c: Ctrl, d: Dates, own: seq<int>, rel: set<int>, p: int,
                     ready: Heap, future: Heap, timer: real, behind: bool, taken: int, t: int, ready': Heap,
                         future': Heap)
    requires Setting(s, c, d) && |own| == s.CblkNbr()
    requires HeapOK(s, c, d, own, rel, p, ready, future, timer, behind, taken)
    requires 0 <= t < s.CblkNbr() && Ordered(ready') && Ordered(future')
    requires IsCand(c, t, p) ==>
               if Date(s, c, d, t, p) > timer
               then ready' == ready && forall it :: it in future' <==> it in future || it == FutureItem(s, c, d, t, p)
               else future' == future && forall it :: it in ready' <==> it in ready || it == ReadyItem(s, c, t)
    requires !IsCand(c, t, p) ==> ready' == ready && future' == future
    ensures HeapOK(s, c, d, own, rel + {t}, p, ready', future', timer, behind, taken)
  {
    forall it | it in ready'
      ensures ReadyOK(s, c, d, rel + {t}, p, timer, it)
    {
      if it in ready {
        assert ReadyOK(s, c, d, rel, p, timer, it);
      }
    }
    forall it | it in future'
      ensures FutureOK(s, c, d, rel + {t}, p, timer, behind, it)
    {
      if it in future {
        assert FutureOK(s, c, d, rel, p, timer, behind, it);
      }
    }
    forall x | Entitled(s, c, rel + {t}, x, p) && own[x] < 0 && x != taken
      ensures Queued(s, c, d, p, ready', future', x)
    {
      if x != t {
        assert Entitled(s, c, rel, x, p);
        assert Queued(s, c, d, p, ready, future, x);
      }
    }
  }

  /** Task `t` was put once on core `p`, if a candidate: in the future heap when its date is
      after the clock, else in the ready heap. */
  ghost predicate PutOn(s: SymbolMatrix, c: Ctrl, d: Dates, t: int, p: int, timer: real, ready: Heap, future: Heap,
                        ready': Heap, future': Heap)
    requires Setting(s, c, d) && 0 <= t < s.CblkNbr()
  {
    if !IsCand(c, t, p) then ready' == ready && future' == future
    else if Date(s, c, d, t, p) > timer then
      && ready' == ready
      && multiset(future')
         == multiset(future) + multiset{Item(t, Date(s, c, d, t, p), c.candtab[t].treelevel as real)}
    else
      && future' == future
      && multiset(ready')
         == multiset(ready) + multiset{Item(t, c.candtab[t].treelevel as real, s.First(t) as real)}
  }

  /** Mapping the taken task makes its remaining entries stale. */
  lemma MapTaken(s: SymbolMatrix, c: Ctrl, d: Dates, own: seq<int>, rel: set<int>,
                 ready: seq<Heap>, future: seq<Heap>, timers: seq<real>, skip: int, taken: int, p: int)
    requires Setting(s, c, d) && |own| == s.CblkNbr() && 0 <= taken < |own| && p >= 0
    requires AllHeaps(s, c, d, own, rel, ready, future, timers, skip, taken)
    ensures AllHeaps(s, c, d, own[taken := p], rel, ready, future, timers, skip, -1)
  {
    forall q | 0 <= q < |timers|
      ensures HeapOK(s, c, d, own[taken := p], rel, q, ready[q], future[q], timers[q], q == skip, -1)
    {
      assert HeapOK(s, c, d, own, rel, q, ready[q], future[q], timers[q], q == skip, taken);
    }
  }
}
