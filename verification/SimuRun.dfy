/** The static scheduling simulation: a discrete-event run that maps every
    column block on one of its candidate cores. */
module SimuRun {
  import opened Symbol
  import opened PQueue
  import opened Simu
  import opened Contributions
  import opened SimuHeaps
  import opened SimuReceive
  import opened SimuDates
  import opened SimuTimes
  import opened SimuSchedule
  import opened TaskOrder

  class SimuCtrl {
    const s: SymbolMatrix
    const c: Ctrl
    var cblkctrb: seq<int>     // remaining contributions of each column block
    var blokctrb: seq<int>     // remaining contributions of each block
    var ownetab: seq<int>      // core each column block is mapped on, or -1
    var ownerclust: seq<int>   // cluster each block is mapped on, or -1
    var ftgtnum: seq<int>      // first fan-in of each block
    var timers: seq<real>      // clock of each core
    var tasktime: seq<real>    // ready date of each task
    var ftgttime: seq<real>    // ready date of each fan-in
    var ready: seq<Heap>
    var future: seq<Heap>
    var tasktab: seq<seq<int>> // tasks given to each core
    ghost var released: set<int>
    ghost var order: seq<int>
    ghost var startdate: seq<real> // date each mapped task starts
    ghost var enddate: seq<real>   // date it ends

    ghost function D(): Dates
      reads `tasktime, `ftgttime
    {
      Dates(tasktime, ftgttime)
    }

    /** The indices set up once by the initialization. */
    ghost predicate Static()
      reads `ftgtnum
    {
      && CtrlOK(s, c) && s.FillClosed() && AllHaveCands(s, c)
      && |ftgtnum| == |s.bloktab| + 1
      && (forall b :: 0 <= b <= |s.bloktab| ==> ftgtnum[b] == FtgtBase(s, c, b))
    }

    ghost predicate Owners()
      reads `ftgtnum, `ownetab, `ownerclust
      requires Static()
    {
      && |ownetab| == s.CblkNbr() && |ownerclust| == |s.bloktab|
      && (forall i :: 0 <= i < |ownetab| ==> ownetab[i] == -1 || IsCand(c, i, ownetab[i]))
      && (forall b :: 0 <= b < |ownerclust| ==> OwnerClustOK(b))
    }

    ghost predicate OwnerClustOK(b: int)
      reads `ftgtnum, `ownetab, `ownerclust
      requires Static() && |ownetab| == s.CblkNbr() && |ownerclust| == |s.bloktab| && 0 <= b < |ownerclust|
    {
      assert HasCands(s, c, b);
      var own := ownetab[s.bloktab[b].lcblknm];
      if own < 0 then ownerclust[b] == -1 else own < |c.core2clust| && ownerclust[b] == c.core2clust[own]
    }

    ghost predicate Heaps(skip: int, taken: int)
      reads `ftgtnum, `ownetab, `tasktime, `ftgttime, `released, `ready, `future, `timers
      requires Static()
    {
      && |ownetab| == s.CblkNbr()
      && Setting(s, c, D()) && DatesOK(s, c, D())
      && AllHeaps(s, c, D(), ownetab, released, ready, future, timers, skip, taken)
    }

    /** Below `n`, a task is released exactly when it expects no contribution. */
    ghost predicate Released(n: int)
      reads `ftgtnum, `cblkctrb, `released
      requires Static()
    {
      && |cblkctrb| == s.CblkNbr() && 0 <= n <= |cblkctrb|
      && (forall t :: t in released <==> 0 <= t < n && cblkctrb[t] == 0)
    }

    ghost predicate Counters(j: int, k: int, hi: int)
      reads `ftgtnum, `ownetab, `blokctrb, `cblkctrb
      requires Static() && 0 <= j <= hi <= |s.bloktab| && j <= k <= hi
    {
      && |ownetab| == s.CblkNbr()
      && BlokCounters(s, ownetab, blokctrb, j, k, hi)
      && CblkCounters(s, blokctrb, cblkctrb)
    }

    ghost function WorkDone(): real
      reads `ftgtnum, `ownetab, `released
      requires Static() && |ownetab| == s.CblkNbr()
    {
      Work(s, c, ownetab, released, |ownetab|)
    }

    ghost predicate Clocks(pr: int, slack: real)
      reads `ftgtnum, `ownetab, `released, `tasktime, `ftgttime, `timers
      requires Static() && |ownetab| == s.CblkNbr()
    {
      Bounded(D(), timers, WorkDone(), pr, slack)
    }

    ghost predicate Lists()
      reads `ftgtnum, `ownetab, `tasktab, `order
      requires Static()
    {
      && |ownetab| == s.CblkNbr() && |tasktab| == |c.core2clust|
      && NoRepeat(order) && DependencyOrder(s, order)
      && (forall t :: t in order <==> 0 <= t < |ownetab| && ownetab[t] >= 0)
      && (forall p :: 0 <= p < |tasktab| ==> tasktab[p] == OnCore(order, ownetab, p))
    }

    ghost function Plan(): Schedule
      reads `ownetab, `order, `released, `timers, `tasktime, `ftgttime, `startdate, `enddate
    {
      Schedule(ownetab, order, released, timers, D(), startdate, enddate)
    }

    ghost predicate Scheduled()
      reads `ownetab, `order, `released, `timers, `tasktime, `ftgttime, `startdate, `enddate
    {
      ScheduleOK(s, c, Plan())
    }

    /** What holds at the head of the main loop. */
    ghost predicate LoopHead()
      reads this
    {
      && Static() && Owners() && Heaps(-1, -1) && Released(s.CblkNbr())
      && Counters(0, 0, 0) && Clocks(-1, 0.0) && Lists() && Scheduled()
    }

    /** Task `t` is released, not mapped, and core `p` may run it. */
    ghost predicate Available(t: int, p: int)
      reads `ftgtnum, `ownetab, `released
      requires Static() && |ownetab| == s.CblkNbr()
    {
      Entitled(s, c, released, t, p) && ownetab[t] < 0
    }

    ghost function Start(t: int, p: int): real
      reads `ftgtnum, `tasktime, `ftgttime, `timers
      requires Static() && Setting(s, c, D()) && |timers| == |c.core2clust| && 0 <= t < s.CblkNbr() && IsCand(c, t, p)
    {
      assert CandOK(c, t);
      StartDate(s, c, D(), timers[p], t, p)
    }

    function Clust2IndexOf(b: int, clust: int): (r: int)
      reads `ftgtnum
      requires Static() && 0 <= b < |s.bloktab| && HasCands(s, c, b)
      ensures r == Clust2Index(s, c, b, clust)
    {
      clust + ftgtnum[b] - c.candtab[s.bloktab[b].lcblknm].fccandnum
    }

    /** Offer task `t` to core `p`: to its ready heap when its date has passed there, to its
        future heap otherwise. */
    method PutOnCore(t: int, p: int, ghost skip: int, ghost taken: int)
      requires Static() && 0 <= t < s.CblkNbr() && IsCand(c, t, p) && 0 <= p < |timers| == |ready| == |future|
      requires Setting(s, c, D()) && |ownetab| == s.CblkNbr()
      requires HeapOK(s, c, D(), ownetab, released, p, ready[p], future[p], timers[p], p == skip, taken)
      modifies `ready, `future
      ensures |ready| == |old(ready)| && |future| == |old(future)|
      ensures ready == old(ready)[p := ready[p]] && future == old(future)[p := future[p]]
      ensures HeapOK(s, c, D(), ownetab, released + {t}, p, ready[p], future[p], timers[p], p == skip, taken)
      ensures PutOn(s, c, D(), t, p, timers[p], old(ready)[p], old(future)[p], ready[p], future[p])
    {
      var cand := c.candtab[t];
      var bloknum := s.First(t);
      assert CandOK(c, t) && HasCands(s, c, bloknum) && s.bloktab[bloknum].lcblknm == t;
      ghost var slot := Slot(s, c, t, p);
      var date := if cand.fccandnum == cand.lccandnum then tasktime[t]
                  else ftgttime[Clust2IndexOf(bloknum, c.core2clust[p])];
      assert date == Date(s, c, D(), t, p);
      ghost var ready0, future0 := ready[p], future[p];
      if date > timers[p] {
        var h := Push2(future[p], t, date, cand.treelevel as real);
        future := future[p := h];
      } else {
        var h := Push2(ready[p], t, cand.treelevel as real, bloknum as real);
        ready := ready[p := h];
      }
      PushReleased(s, c, D(), ownetab, released, p, ready0, future0, timers[p], p == skip, taken, t, ready[p],
                   future[p]);
    }

    /** Give a released task to every candidate core: to the ready heap when its
        date has passed there, to the future heap otherwise. */
    method PutInAllReadyQueues(t: int, ghost skip: int, ghost taken: int)
      requires Static() && Heaps(skip, taken) && 0 <= t < s.CblkNbr()
      modifies `ready, `future, `released
      ensures Heaps(skip, taken) && released == old(released) + {t}
      ensures |ready| == |future| == |timers| == |old(ready)| == |old(future)|
      ensures forall p :: 0 <= p < |timers| ==>
        PutOn(s, c, D(), t, p, timers[p], old(ready)[p], old(future)[p], ready[p], future[p])
    {
      hide HeapOK, DatesOK, PutOn;
      var cand := c.candtab[t];
      assert CandOK(c, t);
      var p := cand.fcandnum;
      while p <= cand.lcandnum
        invariant cand.fcandnum <= p <= cand.lcandnum + 1
        invariant released == old(released)
        invariant |ready| == |future| == |timers| == |c.core2clust|
        invariant forall q :: 0 <= q < |timers| && IsCand(c, t, q) && q < p ==>
                    && HeapOK(s, c, D(), ownetab, released + {t}, q, ready[q], future[q], timers[q], q == skip, taken)
                    && PutOn(s, c, D(), t, q, timers[q], old(ready)[q], old(future)[q], ready[q], future[q])
        invariant forall q :: 0 <= q < |timers| && !(IsCand(c, t, q) && q < p) ==>
                    ready[q] == old(ready)[q] && future[q] == old(future)[q]
      {
        assert HeapOK(s, c, D(), ownetab, released, p, ready[p], future[p], timers[p], p == skip, taken);
        PutOnCore(t, p, skip, taken);
        p := p + 1;
      }
      forall q | 0 <= q < |timers|
        ensures HeapOK(s, c, D(), ownetab, released + {t}, q, ready[q], future[q], timers[q], q == skip, taken)
        ensures PutOn(s, c, D(), t, q, timers[q], old(ready)[q], old(future)[q], ready[q], future[q])
      {
        if !IsCand(c, t, q) {
          assert HeapOK(s, c, D(), ownetab, released, q, ready[q], future[q], timers[q], q == skip, taken);
          NotPut(t, q, skip, taken);
        }
      }
      released := released + {t};
    }

    /** A core that may not run `t` keeps its heaps. */
    lemma NotPut(t: int, q: int, skip: int, taken: int)
      requires CtrlOK(s, c) && Setting(s, c, D()) && 0 <= t < s.CblkNbr() == |ownetab| && !IsCand(c, t, q)
      requires 0 <= q < |timers| == |ready| == |future|
      requires HeapOK(s, c, D(), ownetab, released, q, ready[q], future[q], timers[q], q == skip, taken)
      ensures HeapOK(s, c, D(), ownetab, released + {t}, q, ready[q], future[q], timers[q], q == skip, taken)
      ensures PutOn(s, c, D(), t, q, timers[q], ready[q], future[q], ready[q], future[q])
    {
      PushReleased(s, c, D(), ownetab, released, q, ready[q], future[q], timers[q], q == skip, taken, t, ready[q],
                   future[q]);
    }

    /** First entry of core `p`'s ready heap, else of its future heap, that is not
        mapped yet; the mapped ones met on the way are removed. */
    method HeadOf(p: int) returns (tasknum: int)
      requires Static() && Owners() && Heaps(-1, -1) && 0 <= p < |timers|
      modifies `ready, `future
      ensures Heaps(-1, -1)
      ensures ready == old(ready)[p := ready[p]] && future == old(future)[p := future[p]]
      ensures tasknum == -1 ==> ready[p] == [] && future[p] == []
      ensures tasknum != -1 ==> 0 <= tasknum < |ownetab| && ownetab[tasknum] < 0
      ensures tasknum != -1 ==> if |ready[p]| > 0 then tasknum == ready[p][0].elt
                                else |future[p]| > 0 && tasknum == future[p][0].elt
    {
      tasknum := PruneReady(p);
      if tasknum == -1 {
        tasknum := PruneFuture(p);
      }
    }

    method PruneReady(p: int) returns (tasknum: int)
      requires Static() && Owners() && Heaps(-1, -1) && 0 <= p < |timers|
      modifies `ready
      ensures Heaps(-1, -1)
      ensures ready == old(ready)[p := ready[p]]
      ensures tasknum == -1 ==> ready[p] == []
      ensures tasknum != -1 ==> 0 <= tasknum < |ownetab| && ownetab[tasknum] < 0
      ensures tasknum != -1 ==> |ready[p]| > 0 && tasknum == ready[p][0].elt
    {
      tasknum := -1;
      while |ready[p]| > 0
        invariant |ready| == |timers| && ready == old(ready)[p := ready[p]]
        invariant Heaps(-1, -1)
        invariant tasknum == -1
        decreases |ready[p]|
      {
        assert HeapOK(s, c, D(), ownetab, released, p, ready[p], future[p], timers[p], false, -1);
        assert ready[p][0] in ready[p] && ReadyOK(s, c, D(), released, p, timers[p], ready[p][0]);
        tasknum := ready[p][0].elt;
        assert OwnerClustOK(s.First(tasknum)) && s.bloktab[s.First(tasknum)].lcblknm == tasknum;
        if ownerclust[s.First(tasknum)] >= 0 {
          var head, rest := Pop(ready[p]);
          DropReady(s, c, D(), ownetab, released, p, ready[p], future[p], timers[p], false, -1, rest, head);
          ready := ready[p := rest];
          tasknum := -1;
        } else {
          break;
        }
      }
    }

    method PruneFuture(p: int) returns (tasknum: int)
      requires Static() && Owners() && Heaps(-1, -1) && 0 <= p < |timers|
      modifies `future
      ensures Heaps(-1, -1)
      ensures future == old(future)[p := future[p]]
      ensures tasknum == -1 ==> future[p] == []
      ensures tasknum != -1 ==> 0 <= tasknum < |ownetab| && ownetab[tasknum] < 0
      ensures tasknum != -1 ==> |future[p]| > 0 && tasknum == future[p][0].elt
    {
      tasknum := -1;
      while |future[p]| > 0
        invariant |future| == |timers| && future == old(future)[p := future[p]]
        invariant Heaps(-1, -1)
        invariant tasknum == -1
        decreases |future[p]|
      {
        assert HeapOK(s, c, D(), ownetab, released, p, ready[p], future[p], timers[p], false, -1);
        assert future[p][0] in future[p] && FutureOK(s, c, D(), released, p, timers[p], false, future[p][0]);
        tasknum := future[p][0].elt;
        assert OwnerClustOK(s.First(tasknum)) && s.bloktab[s.First(tasknum)].lcblknm == tasknum;
        if ownerclust[s.First(tasknum)] >= 0 {
          var head, rest := Pop(future[p]);
          DropFuture(s, c, D(), ownetab, released, p, ready[p], future[p], timers[p], false, -1, rest, head);
          future := future[p := rest];
          tasknum := -1;
        } else {
          break;
        }
      }
    }

    /** Task `t` heads the heaps of core `p`. */
    ghost predicate Heads(t: int, p: int)
      reads `ready, `future
      requires 0 <= p < |ready| && |ready| == |future|
    {
      if |ready[p]| > 0 then ready[p][0].elt == t else |future[p]| > 0 && future[p][0].elt == t
    }

    /** Core `p` takes task `t` before any other it could run. */
    ghost predicate FirstInLine(t: int, p: int)
      reads `ftgtnum, `ownetab, `released, `tasktime, `ftgttime, `timers
      requires Static() && |ownetab| == s.CblkNbr() && Setting(s, c, D()) && Available(t, p) && 0 <= p < |timers|
    {
      forall u :: Available(u, p) ==> GoesFirst(s, c, D(), timers[p], t, u, p)
    }

    /** The head of a core's heaps starts there no later than any task the core could run,
        and goes before the others of its heap. */
    lemma HeadIsBest(t: int, p: int)
      requires Static() && Owners() && Heaps(-1, -1) && 0 <= p < |timers| && timers[p] >= 0.0
      requires 0 <= t < |ownetab| && ownetab[t] < 0 && Heads(t, p)
      ensures Available(t, p) && FirstInLine(t, p)
      ensures forall u :: Available(u, p) ==> Start(t, p) <= Start(u, p)
    {
      hide GoesFirst;
      assert HeapOK(s, c, D(), ownetab, released, p, ready[p], future[p], timers[p], false, -1);
      if |ready[p]| > 0 {
        assert ready[p][0] in ready[p] && ReadyOK(s, c, D(), released, p, timers[p], ready[p][0]);
      } else {
        assert future[p][0] in future[p] && FutureOK(s, c, D(), released, p, timers[p], false, future[p][0]);
      }
      forall u | Available(u, p)
        ensures Start(t, p) <= Start(u, p)
      {
        HeadStartsFirst(s, c, D(), ownetab, released, p, ready[p], future[p], timers[p], t, u);
      }
      forall u | Available(u, p)
        ensures GoesFirst(s, c, D(), timers[p], t, u, p)
      {
        HeadGoesFirst(s, c, D(), ownetab, released, p, ready[p], future[p], timers[p], t, u);
      }
    }

    lemma EmptyHeapsOfferNothing(p: int)
      requires Static() && Owners() && Heaps(-1, -1) && 0 <= p < |timers| && ready[p] == [] && future[p] == []
      ensures forall u :: !Available(u, p)
    {
      assert HeapOK(s, c, D(), ownetab, released, p, ready[p], future[p], timers[p], false, -1);
    }

    /** No task starts before `time` on the cores below `p`, and the couple found
        so far, if any, starts then. */
    ghost predicate BestSoFar(task: int, proc: int, time: real, p: int)
      reads `ftgtnum, `ownetab, `released, `tasktime, `ftgttime, `timers, `ready, `future
      requires Static() && Heaps(-1, -1)
    {
      && (task == -1 ==> time == c.intmax)
      && (task != -1 ==> 0 <= proc < p && proc < |ready| && Available(task, proc) && Heads(task, proc))
      && (task != -1 ==> FirstInLine(task, proc))
      && (task != -1 ==> Start(task, proc) == time)
      && (forall t, q :: Available(t, q) && q < p ==> time <= Start(t, q))
    }

    /** First task of core `p`, and the date it can start there. */
    method FirstOf(p: int, ghost task: int, ghost proc: int, ghost time: real) returns (tasknum: int, timeready: real)
      requires Static() && Owners() && Heaps(-1, -1) && 0 <= p < |timers| && timers[p] >= 0.0
      requires BestSoFar(task, proc, time, p)
      modifies `ready, `future
      ensures Heaps(-1, -1) && BestSoFar(task, proc, time, p)
      ensures tasknum == -1 ==> forall u :: !Available(u, p)
      ensures tasknum != -1 ==> Available(tasknum, p) && Heads(tasknum, p) && FirstInLine(tasknum, p)
      ensures tasknum != -1 ==> timeready == Start(tasknum, p)
      ensures tasknum != -1 ==> forall u :: Available(u, p) ==> timeready <= Start(u, p)
    {
      timeready := 0.0;
      tasknum := HeadOf(p);
      if tasknum != -1 {
        HeadIsBest(tasknum, p);
        ghost var slot := Slot(s, c, tasknum, p);
        assert HasCands(s, c, s.First(tasknum)) && CandOK(c, tasknum);
        timeready := Max(timers[p], ftgttime[Clust2IndexOf(s.First(tasknum), c.core2clust[p])]);
        timeready := Max(timeready, tasktime[tasknum]);
      } else {
        EmptyHeapsOfferNothing(p);
      }
    }

    lemma AcceptCouple(task: int, proc: int, time: real, t: int, p: int)
      requires Static() && Heaps(-1, -1) && BestSoFar(task, proc, time, p) && 0 <= p < |timers|
      requires Available(t, p) && Heads(t, p) && FirstInLine(t, p) && Start(t, p) <= time
      requires forall u :: Available(u, p) ==> Start(t, p) <= Start(u, p)
      ensures BestSoFar(t, p, Start(t, p), p + 1)
    {
      hide DatesOK, HeapOK;
      forall u, q | Available(u, q) && q < p + 1
        ensures Start(t, p) <= Start(u, q)
      {
        assert q < p ==> time <= Start(u, q);
      }
    }

    lemma KeepCouple(task: int, proc: int, time: real, p: int)
      requires Static() && Heaps(-1, -1) && BestSoFar(task, proc, time, p) && 0 <= p < |timers|
      requires forall u :: Available(u, p) ==> time <= Start(u, p)
      ensures BestSoFar(task, proc, time, p + 1)
    {
    }

    /** Some task could start on core `q` at date `time`. */
    ghost predicate Tied(q: int, time: real)
      reads `ftgtnum, `ownetab, `released, `tasktime, `ftgttime, `timers
      requires Static() && |ownetab| == s.CblkNbr() && Setting(s, c, D()) && |timers| == |c.core2clust|
    {
      exists t :: Available(t, q) && Start(t, q) == time
    }

    /** Among the cores below `p` that can start at date `time`, the one taken: the first of
        them, or the one of least clock among the next ones whose clock is below the last one
        kept, that of a core met before the first. */
    ghost predicate CoreTaken(first: int, proc: int, time: real, kept: real, p: int)
      reads `ftgtnum, `ownetab, `released, `tasktime, `ftgttime, `timers
      requires Static() && |ownetab| == s.CblkNbr() && Setting(s, c, D()) && |timers| == |c.core2clust|
    {
      && 0 <= first <= proc < p <= |timers| && Tied(first, time) && (forall q :: 0 <= q < first ==> !Tied(q, time))
      && (forall q :: first < q < p && Tied(q, time) ==> kept <= timers[q] && (q < proc ==> timers[proc] < timers[q]))
      && (if proc == first then KeptFrom(kept, first) else kept == timers[proc] < c.intmax && Tied(proc, time))
    }

    /** The clock kept is that of a core below `p`, or none. */
    ghost predicate KeptFrom(kept: real, p: int)
      reads `timers
    {
      kept == c.intmax || exists r :: 0 <= r < p && r < |timers| && timers[r] == kept
    }

    /** The rule between cores that can start at the same date, below the initial one. */
    ghost predicate TieRule(proc: int, time: real)
      reads `ftgtnum, `ownetab, `released, `tasktime, `ftgttime, `timers
      requires Static() && |ownetab| == s.CblkNbr() && Setting(s, c, D()) && |timers| == |c.core2clust|
    {
      time < c.intmax ==> exists first, kept :: CoreTaken(first, proc, time, kept, |timers|)
    }

    /** What is known of the couple found so far, and of the clock kept with it. */
    ghost predicate TieSoFar(first: int, proc: int, time: real, kept: real, p: int)
      reads `ftgtnum, `ownetab, `released, `tasktime, `ftgttime, `timers
      requires Static() && |ownetab| == s.CblkNbr() && Setting(s, c, D()) && |timers| == |c.core2clust|
    {
      KeptFrom(kept, p) && kept <= c.intmax && (time < c.intmax ==> CoreTaken(first, proc, time, kept, p))
    }

    lemma TieKept(first: int, proc: int, time: real, kept: real, p: int)
      requires Static() && |ownetab| == s.CblkNbr() && Setting(s, c, D()) && |timers| == |c.core2clust|
      requires 0 <= p < |timers| && TieSoFar(first, proc, time, kept, p) && (Tied(p, time) ==> kept <= timers[p])
      ensures TieSoFar(first, proc, time, kept, p + 1)
    {
      hide Tied;
    }

    lemma TieTaken(first: int, proc: int, time: real, kept: real, p: int)
      requires Static() && |ownetab| == s.CblkNbr() && Setting(s, c, D()) && |timers| == |c.core2clust|
      requires 0 <= p < |timers| && TieSoFar(first, proc, time, kept, p) && Tied(p, time) && timers[p] < kept
      ensures TieSoFar(first, p, time, timers[p], p + 1)
    {
      hide Tied;
    }

    lemma TieRestarts(first: int, proc: int, time: real, kept: real, p: int, early: real)
      requires Static() && |ownetab| == s.CblkNbr() && Setting(s, c, D()) && |timers| == |c.core2clust|
      requires 0 <= p < |timers| && TieSoFar(first, proc, time, kept, p) && Tied(p, early)
      requires forall q :: 0 <= q < p ==> !Tied(q, early)
      ensures TieSoFar(p, p, early, kept, p + 1)
    {
      hide Tied;
    }

    /** Core `p` can start at `time` exactly when its first task does; nothing below starts earlier than `early`. */
    lemma TiedIs(task: int, proc: int, early: real, p: int, t: int, time: real)
      requires Static() && Heaps(-1, -1) && BestSoFar(task, proc, early, p) && 0 <= p < |timers|
      requires t == -1 ==> forall u :: !Available(u, p)
      requires t != -1 ==> Available(t, p) && time == Start(t, p) && forall u :: Available(u, p) ==> time <= Start(u, p)
      ensures t != -1 ==> Tied(p, time)
      ensures t == -1 || time > early ==> !Tied(p, early)
      ensures forall q :: t != -1 && time < early && 0 <= q < p ==> !Tied(q, time)
    {
      hide DatesOK, HeapOK, StartDate;
    }

    /** Visit the cores in turn, keeping the couple that starts the earliest. */
    method EarliestCouple() returns (earlytask: int, procnum: int, ghost earlytimeready: real)
      requires Static() && Owners() && Heaps(-1, -1)
      requires forall p :: 0 <= p < |timers| ==> timers[p] >= 0.0
      modifies `ready, `future
      ensures Heaps(-1, -1) && BestSoFar(earlytask, procnum, earlytimeready, |timers|)
      ensures TieRule(procnum, earlytimeready)
    {
      hide DatesOK, HeapOK, FirstInLine, Tied, Heads, CoreTaken, KeptFrom, StartDate;
      earlytask, procnum := -1, -1;
      var early, earlyproctimer := c.intmax, c.intmax;
      ghost var first := -1;
      StartsWithNone();
      CandsAreCores();
      var p := 0;
      while p < |c.core2clust|
        invariant 0 <= p <= |c.core2clust|
        invariant Heaps(-1, -1)
        invariant BestSoFar(earlytask, procnum, early, p) && TieSoFar(first, procnum, early, earlyproctimer, p)
      {
        var tasknum, timeready := FirstOf(p, earlytask, procnum, early);
        TiedIs(earlytask, procnum, early, p, tasknum, timeready);
        if tasknum != -1 && timeready <= early {
          AcceptCouple(earlytask, procnum, early, tasknum, p);
        }
        if tasknum == -1 || timeready >= early {
          KeepCouple(earlytask, procnum, early, p);
        }
        if tasknum != -1 {
          if timeready < early {
            TieRestarts(first, procnum, early, earlyproctimer, p, timeready);
            first := p;
          } else if timeready == early && timers[p] < earlyproctimer {
            TieTaken(first, procnum, early, earlyproctimer, p);
          } else {
            TieKept(first, procnum, early, earlyproctimer, p);
          }
          if timeready == early && timers[p] < earlyproctimer {
            procnum, earlyproctimer, earlytask, early := p, timers[p], tasknum, timeready;
          }
          if timeready < early {
            procnum, earlytask, early := p, tasknum, timeready;
          }
        } else {
          TieKept(first, procnum, early, earlyproctimer, p);
        }
        p := p + 1;
      }
      earlytimeready := early;
    }

    lemma StartsWithNone()
      requires Static() && |ownetab| == s.CblkNbr() && Setting(s, c, D()) && |timers| == |c.core2clust|
      ensures TieSoFar(-1, -1, c.intmax, c.intmax, 0)
    {
    }

    /** The couple (task, core) that starts the earliest, over all released tasks
        that are not mapped and all their candidate cores. */
    method GetNextTaskNextProc() returns (earlytask: int, procnum: int)
      requires Static() && Owners() && Heaps(-1, -1)
      requires forall p :: 0 <= p < |timers| ==> timers[p] >= 0.0
      modifies `ready, `future
      ensures Heaps(-1, earlytask)
      ensures earlytask == -1 ==> forall t, p :: Available(t, p) ==> Start(t, p) >= c.intmax
      ensures earlytask != -1 ==> Available(earlytask, procnum) && 0 <= procnum < |timers|
      ensures earlytask != -1 ==> FirstInLine(earlytask, procnum) && TieRule(procnum, Start(earlytask, procnum))
      ensures earlytask != -1 ==> forall t, p :: Available(t, p) ==> Start(earlytask, procnum) <= Start(t, p)
    {
      hide DatesOK, HeapOK, FirstInLine, TieRule, StartDate;
      ghost var time;
      earlytask, procnum, time := EarliestCouple();
      CandsAreCores();
      TakenExempt(earlytask);
      if c.asserts && earlytask != -1 {
        PopChosen(earlytask, procnum);
      }
    }

    lemma CandsAreCores()
      requires Static() && |ownetab| == s.CblkNbr()
      ensures forall t, p :: Available(t, p) ==> 0 <= p < |c.core2clust|
    {
      forall t, p | Available(t, p)
        ensures 0 <= p < |c.core2clust|
      {
        assert CandOK(c, t);
      }
    }

    lemma TakenExempt(taken: int)
      requires Static() && Heaps(-1, -1)
      ensures Heaps(-1, taken)
    {
      forall p | 0 <= p < |timers|
        ensures HeapOK(s, c, D(), ownetab, released, p, ready[p], future[p], timers[p], p == -1, taken)
      {
        assert HeapOK(s, c, D(), ownetab, released, p, ready[p], future[p], timers[p], p == -1, -1);
      }
    }

    /** With asserts compiled in, the chosen task is popped, and is the one expected. */
    method PopChosen(earlytask: int, procnum: int)
      requires Static() && Heaps(-1, earlytask) && 0 <= procnum < |timers| && Heads(earlytask, procnum)
      modifies `ready, `future
      ensures Heaps(-1, earlytask)
    {
      assert HeapOK(s, c, D(), ownetab, released, procnum, ready[procnum], future[procnum], timers[procnum], false,
                    earlytask);
      if |ready[procnum]| > 0 {
        var head, rest := Pop(ready[procnum]);
        assert head.elt == earlytask;
        DropReady(s, c, D(), ownetab, released, procnum, ready[procnum], future[procnum], timers[procnum], false,
                  earlytask, rest, head);
        ready := ready[procnum := rest];
      } else {
        var head, rest := Pop(future[procnum]);
        assert head.elt == earlytask;
        DropFuture(s, c, D(), ownetab, released, procnum, ready[procnum], future[procnum], timers[procnum], false,
                   earlytask, rest, head);
        future := future[procnum := rest];
      }
    }

    /** Move to the ready heap the task that comes first in the future heap, if its date is past. */
    method MoveDue(procnum: int) returns (moved: bool)
      requires Static() && 0 <= procnum < |timers| && Heaps(procnum, -1)
      requires |future| == |ready| == |timers| && |future[procnum]| > 0
      modifies `ready, `future
      ensures |future| == |ready| == |timers| && Heaps(procnum, -1)
      ensures OthersKept(procnum, old(ready), old(future)) && SameTasks(procnum, old(ready), old(future))
      ensures if moved then |future[procnum]| == |old(future)[procnum]| - 1
          else future == old(future) && ready == old(ready)
      ensures !moved ==> |future[procnum]| > 0 && NotDue(procnum) && future[procnum][0].key1 >= timers[procnum]
      ensures moved ==> old(future)[procnum][0].key1 < timers[procnum]
      ensures moved ==> forall it ::
        it in old(future)[procnum] <==> it in future[procnum] || it == old(future)[procnum][0]
    {
      hide DatesOK, Elts;
      assert HeapOK(s, c, D(), ownetab, released, procnum, ready[procnum], future[procnum], timers[procnum], true, -1);
      assert future[procnum][0] in future[procnum]
          && FutureOK(s, c, D(), released, procnum, timers[procnum], true, future[procnum][0]);
      var tasknum := future[procnum][0].elt;
      var cand := c.candtab[tasknum];
      var bloknum := s.First(tasknum);
      ghost var slot := Slot(s, c, tasknum, procnum);
      assert HasCands(s, c, bloknum) && CandOK(c, tasknum);
      var timer := if cand.fccandnum == cand.lccandnum then tasktime[tasknum]
                   else ftgttime[Clust2IndexOf(bloknum, c.core2clust[procnum])];
      moved := timer < timers[procnum];
      if moved {
        var head, rest := Pop(future[procnum]);
        var h := Push2(ready[procnum], tasknum, cand.treelevel as real, bloknum as real);
        MoveToReady(s, c, D(), ownetab, released, procnum, ready[procnum], future[procnum], timers[procnum], -1, h,
                    rest, head);
        EltMoves(ready[procnum], future[procnum], h, rest, head,
                 Item(tasknum, cand.treelevel as real, bloknum as real));
        future := future[procnum := rest];
        ready := ready[procnum := h];
      }
    }

    /** The first task of the future heap is not due. */
    ghost predicate NotDue(procnum: int)
      reads this
      requires Static() && 0 <= procnum < |future| == |timers| && |future[procnum]| > 0
    {
      var t := future[procnum][0].elt;
      Entitled(s, c, released, t, procnum) && Setting(s, c, D()) && Date(s, c, D(), t, procnum) >= timers[procnum]
    }

    ghost predicate OthersKept(procnum: int, ready0: seq<Heap>, future0: seq<Heap>)
      reads `ready, `future
    {
      && |ready| == |ready0| && |future| == |future0|
      && (forall q :: 0 <= q < |ready| && q != procnum ==> ready[q] == ready0[q])
      && (forall q :: 0 <= q < |future| && q != procnum ==> future[q] == future0[q])
    }

    /** The core has the same tasks, in one heap or the other. */
    ghost predicate SameTasks(procnum: int, ready0: seq<Heap>, future0: seq<Heap>)
      reads `ready, `future
    {
      && 0 <= procnum < |ready| == |future| && |ready0| == |future0| == |ready|
      && Elts(ready[procnum]) + Elts(future[procnum]) == Elts(ready0[procnum]) + Elts(future0[procnum])
    }

    /** The future heap starts with its earliest date. */
    lemma NoneDueLeft(procnum: int)
      requires Static() && 0 <= procnum < |timers| && Heaps(procnum, -1)
      requires |future| == |timers| && (|future[procnum]| > 0 ==> future[procnum][0].key1 >= timers[procnum])
      ensures forall it :: it in future[procnum] ==> it.key1 >= timers[procnum]
    {
      hide DatesOK, ReadyOK, FutureOK, Queued;
      assert HeapOK(s, c, D(), ownetab, released, procnum, ready[procnum], future[procnum], timers[procnum], true, -1);
      forall it | it in future[procnum]
        ensures it.key1 >= timers[procnum]
      {
        var i :| 0 <= i < |future[procnum]| && future[procnum][i] == it;
        HeadIsLeast(future[procnum], i);
      }
    }

    /** Move to the ready heap every task whose date the clock has passed. */
    method PushToReadyHeap(procnum: int)
      requires Static() && 0 <= procnum < |timers| && Heaps(procnum, -1)
      modifies `ready, `future
      ensures Heaps(-1, -1)
      ensures OthersKept(procnum, old(ready), old(future)) && SameTasks(procnum, old(ready), old(future))
      ensures procnum < |future| == |old(future)|
      ensures forall it :: it in future[procnum] <==> it in old(future)[procnum] && it.key1 >= timers[procnum]
    {
      hide DatesOK, Elts;
      var due := true;
      while |future[procnum]| > 0 && due
        invariant |future| == |ready| == |timers| && Heaps(procnum, -1)
        invariant OthersKept(procnum, old(ready), old(future)) && SameTasks(procnum, old(ready), old(future))
        invariant !due ==> |future[procnum]| > 0 && NotDue(procnum) && future[procnum][0].key1 >= timers[procnum]
        invariant |old(future)| == |timers|
        invariant forall it :: it in future[procnum] ==> it in old(future)[procnum]
        invariant forall it :: it in old(future)[procnum] ==> it in future[procnum] || it.key1 < timers[procnum]
        decreases |future[procnum]|, due
      {
        due := MoveDue(procnum);
      }
      NoneDueLeft(procnum);
      forall p | 0 <= p < |timers|
        ensures HeapOK(s, c, D(), ownetab, released, p, ready[p], future[p], timers[p], p == -1, -1)
      {
        assert HeapOK(s, c, D(), ownetab, released, p, ready[p], future[p], timers[p], p == procnum, -1);
        if p == procnum {
          CaughtUp(s, c, D(), ownetab, released, p, ready[p], future[p], timers[p], -1);
        }
      }
    }

    /** Date the fan-ins of a task of several clusters once its last contribution is
        in: each is received after its own costs, and a cluster waits for the latest
        fan-in of the others. */
    method ComputeTaskReceiveTime(t: int, ghost skip: int, ghost taken: int, ghost w: real, ghost pr: int,
            ghost slack: real)
      requires Static() && Heaps(skip, taken) && 0 <= t < s.CblkNbr() && t !in released && !SingleCluster(c, t)
      requires Bounded(D(), timers, w, pr, slack)
      modifies `ftgttime
      ensures Heaps(skip, taken)
      ensures Bounded(D(), timers, w + FaninCost(s, c, t), pr, slack)
      ensures Dated(s, c, t, old(ftgttime), ftgttime)
    {
      hide Wait, Second, Latest;
      var bloknum := s.First(t);
      assert HasCands(s, c, bloknum);
      ghost var d0 := D();
      var lo, hi := ftgtnum[bloknum], ftgtnum[bloknum + 1];
      FtgtBaseMonotone(s, c, bloknum, |s.bloktab|);
      ghost var bound := w + FaninCost(s, c, t);
      CostsNonNegative(s, c, t);
      var lftgttime, sftgttime, lftgtnum := LatestFanins(lo, hi, w);
      WriteFanins(lo, hi, lftgttime, sftgttime, lftgtnum, bound);
      FaninDatesMove(s, c, d0, D(), released, t);
      DatesOfOthers(s, c, d0, D(), ownetab, released, ready, future, timers, skip, taken);
    }

    /** Give each cluster the date from which it has the fan-ins of the others. */
    method WriteFanins(lo: int, hi: int, lftgttime: real, sftgttime: real, lftgtnum: int, ghost bound: real)
      requires 0 <= lo <= hi <= |ftgttime| == |c.ftgtcost|
      requires lftgtnum == Latest(ftgttime, c.ftgtcost, lo, hi) && lftgttime == DateOf(ftgttime, c.ftgtcost, lftgtnum)
      requires sftgttime == Second(ftgttime, c.ftgtcost, lo, hi) && 0.0 <= sftgttime <= lftgttime <= bound
      requires forall x :: 0 <= x < |ftgttime| ==> 0.0 <= ftgttime[x] <= bound
      modifies `ftgttime
      ensures |ftgttime| == |old(ftgttime)|
      ensures forall x :: 0 <= x < |ftgttime| && !(lo <= x < hi) ==> ftgttime[x] == old(ftgttime)[x]
      ensures forall x :: lo <= x < hi ==> ftgttime[x] == Wait(old(ftgttime), c.ftgtcost, lo, hi, x)
      ensures forall x :: 0 <= x < |ftgttime| ==> 0.0 <= ftgttime[x] <= bound
    {
      hide Latest, Second, DateOf;
      ghost var f := ftgttime;
      for i := lo to hi
        invariant |ftgttime| == |f|
        invariant forall x :: 0 <= x < |ftgttime| && !(lo <= x < i) ==> ftgttime[x] == f[x]
        invariant forall x :: lo <= x < i ==> ftgttime[x] == Wait(f, c.ftgtcost, lo, hi, x)
        invariant forall x :: 0 <= x < |ftgttime| ==> 0.0 <= ftgttime[x] <= bound
      {
        if i != lftgtnum {
          ftgttime := ftgttime[i := lftgttime];
        } else {
          ftgttime := ftgttime[i := Max(sftgttime, ftgttime[i])];
        }
      }
    }

    /** Latest receive date of the fan-ins, and the second date kept beside it. */
    method LatestFanins(lo: int, hi: int, ghost w: real) returns (lftgttime: real, sftgttime: real, lftgtnum: int)
      requires 0 <= lo <= hi <= |ftgttime| == |c.ftgtcost|
      requires forall i :: 0 <= i < |c.ftgtcost| ==> c.ftgtcost[i] >= 0.0
      requires forall i :: lo <= i < hi ==> 0.0 <= ftgttime[i] <= w
      requires w >= 0.0
      ensures lftgtnum == Latest(ftgttime, c.ftgtcost, lo, hi) && lftgttime == DateOf(ftgttime, c.ftgtcost, lftgtnum)
      ensures sftgttime == Second(ftgttime, c.ftgtcost, lo, hi)
      ensures 0.0 <= sftgttime <= lftgttime <= w + SumReal(c.ftgtcost, lo, hi)
    {
      lftgttime, sftgttime, lftgtnum := 0.0, 0.0, -1;
      RealSumAtLeast(c.ftgtcost, lo, hi, -1);
      var i := lo;
      while i < hi
        invariant lo <= i <= hi
        invariant lftgtnum == Latest(ftgttime, c.ftgtcost, lo, i) && lftgttime == DateOf(ftgttime, c.ftgtcost, lftgtnum)
        invariant sftgttime == Second(ftgttime, c.ftgtcost, lo, i)
        invariant 0.0 <= sftgttime <= lftgttime <= w + SumReal(c.ftgtcost, lo, hi)
      {
        RealSumAtLeast(c.ftgtcost, lo, hi, i);
        var timerecv := ftgttime[i] + c.ftgtcost[i];
        if timerecv > lftgttime {
          lftgttime, lftgtnum := timerecv, i;
        } else if timerecv > sftgttime {
          sftgttime := timerecv;
        }
        i := i + 1;
      }
    }

    /** A contribution computed by `pr` postpones the date of the task it goes to. */
    method PostponeTask(fc: int, pr: int, ghost slack: real)
      requires Static() && Heaps(pr, -1) && 0 <= fc < s.CblkNbr() && fc !in released
      requires IsCand(c, fc, pr) && 0 <= pr < |timers| && slack >= 0.0 && Clocks(pr, slack)
      modifies `tasktime, `ftgttime
      ensures Heaps(pr, -1) && Clocks(pr, slack)
      ensures tasktime == if SingleCluster(c, fc) then old(tasktime)[fc := Max(timers[pr], old(tasktime[fc]))]
          else old(tasktime)
      ensures ftgttime == if SingleCluster(c, fc) then old(ftgttime)
                          else old(ftgttime)[Slot(s, c, fc, pr) := Max(timers[pr], old(ftgttime)[Slot(s, c, fc, pr)])]
    {
      var facingdiag := s.First(fc);
      ghost var slot := Slot(s, c, fc, pr);
      assert HasCands(s, c, facingdiag);
      ghost var d0 := D();
      if c.candtab[fc].fccandnum != c.candtab[fc].lccandnum {
        var ftgt := Clust2IndexOf(facingdiag, c.core2clust[pr]);
        ftgttime := ftgttime[ftgt := Max(timers[pr], ftgttime[ftgt])];
        FaninDatesMove(s, c, d0, D(), released, fc);
      } else {
        TaskDateMoves(s, c, d0, released, fc, Max(timers[pr], tasktime[fc]));
        tasktime := tasktime[fc := Max(timers[pr], tasktime[fc])];
      }
      DatesOfOthers(s, c, d0, D(), ownetab, released, ready, future, timers, pr, -1);
    }

    /** The last contribution of `t` is in: date it and offer it to its candidates. */
    method Release(t: int, ghost skip: int, ghost pr: int, ghost slack: real)
      requires Static() && Heaps(skip, -1) && 0 <= t < s.CblkNbr() && t !in released
      requires Clocks(pr, slack)
      modifies `ftgttime, `ready, `future, `released
      ensures Heaps(skip, -1) && released == old(released) + {t}
      ensures Clocks(pr, slack)
      ensures if SingleCluster(c, t) then ftgttime == old(ftgttime) else Dated(s, c, t, old(ftgttime), ftgttime)
    {
      CostsNonNegative(s, c, t);
      WorkReleases(s, c, ownetab, released, |ownetab|, t);
      if c.candtab[t].fccandnum != c.candtab[t].lccandnum {
        ComputeTaskReceiveTime(t, skip, -1, WorkDone(), pr, slack);
      }
      PutInAllReadyQueues(t, skip, -1);
    }

    /** Count the update of blocks `i` and `j` as delivered. */
    method CountContribution(i: int, j: int, facingblok: int, ghost hi: int) returns (facingcblk: int)
      requires Static() && Released(s.CblkNbr())
      requires 0 <= i <= j < hi <= |s.bloktab| && s.Pair(i, j) && Counters(i, j, hi)
      requires facingblok == s.Face(i, j)
      modifies `cblkctrb, `blokctrb
      ensures Counters(i, j + 1, hi)
      ensures facingcblk == s.bloktab[i].fcblknm && 0 <= facingcblk < |cblkctrb| == s.CblkNbr()
      ensures facingcblk !in released && cblkctrb[facingcblk] >= 0
      ensures forall t :: t in released <==> 0 <= t < |cblkctrb| && t != facingcblk && cblkctrb[t] == 0
    {
      NextUpdateExpected(s, ownetab, blokctrb, cblkctrb, i, j, hi);
      Deliver(s, ownetab, blokctrb, cblkctrb, i, j, hi);
      facingcblk := s.bloktab[i].fcblknm;
      cblkctrb := cblkctrb[facingcblk := cblkctrb[facingcblk] - 1];
      blokctrb := blokctrb[facingblok := blokctrb[facingblok] - 1];
    }

    /** What a task being computed keeps, stopped at the update of blocks `i` and `j`. */
    ghost predicate Computing(i: int, j: int, hi: int, pr: int)
      reads this
      requires Static() && 0 <= i <= j <= hi <= |c.blokcost|
    {
      && Heaps(pr, -1) && Released(s.CblkNbr()) && Counters(i, j, hi) && 0 <= pr < |timers|
      && Clocks(pr, SumReal(c.blokcost, if i < hi then i + 1 else hi, hi))
    }

    /** The task `g` is being computed: the clock of its core shows that block `k` is done, no
        other clock has moved, and the blocks below `hi` have set the dates. */
    ghost predicate Logged(g: Computed, hi: int, k: int)
      reads `timers, `tasktime, `ftgttime, `released
      requires CtrlOK(s, c) && ComputedOK(s, c, g) && s.First(g.t) < hi <= s.End(g.t) && s.First(g.t) <= k < s.End(g.t)
    {
      timers == g.timers[g.pr := ClockAt(s, c, g, k)] && DatesAt(s, c, g, D(), released, hi)
    }

    /** The contribution of block `i` postpones the task it faces. */
    method PostponeFaced(i: int, pr: int, ghost slack: real, ghost g: Computed, ghost hi: int)
      requires Static() && Heaps(pr, -1) && 0 <= pr < |timers| && slack >= 0.0 && Clocks(pr, slack)
      requires ComputedOK(s, c, g) && g.pr == pr && s.First(g.t) < i < s.End(g.t) && i <= hi <= i + 1
      requires 0 <= s.bloktab[i].fcblknm < s.CblkNbr() && IsCand(c, s.bloktab[i].fcblknm, pr)
      requires s.bloktab[i].fcblknm !in released && Logged(g, hi, i)
      modifies `tasktime, `ftgttime
      ensures Heaps(pr, -1) && Clocks(pr, slack) && Logged(g, i + 1, i)
    {
      hide DatesOK, AllHeaps, Bounded, DatesAt, ClockAt, FaninOf, Slot;
      ghost var d := D();
      var fc := s.bloktab[i].fcblknm;
      PostponeTask(fc, pr, slack);
      FaninIsSlot(s, c, fc, pr);
      Postponed(s, c, g, d, D(), released, i, hi);
    }

    /** Release the task that block `i` faces. */
    method ReleaseFaced(fc: int, pr: int, ghost slack: real, ghost g: Computed, ghost i: int)
      requires Static() && Heaps(pr, -1) && 0 <= fc < s.CblkNbr() && fc !in released && Clocks(pr, slack)
      requires ComputedOK(s, c, g) && s.First(g.t) < i < s.End(g.t) && Logged(g, i + 1, i)
      modifies `ftgttime, `ready, `future, `released
      ensures Heaps(pr, -1) && released == old(released) + {fc}
      ensures Clocks(pr, slack) && Logged(g, i + 1, i)
    {
      hide DatesOK, AllHeaps, Bounded, DatesAt, ClockAt, Dated;
      ghost var d, rel := D(), released;
      Release(fc, pr, pr, slack);
      NowReleased(s, c, g, d, D(), rel, fc, i + 1);
    }

    /** Deliver the update of blocks `i` and `j`: count it, postpone the task it
        goes to, and release that task if nothing more is expected. */
    method Contribute(i: int, j: int, facingblok: int, pr: int, ghost g: Computed)
      requires Static() && ComputedOK(s, c, g) && g.pr == pr && s.First(g.t) < i <= j < s.End(g.t) && s.Pair(i, j)
      requires Computing(i, j, s.End(g.t), pr) && Logged(g, if j > i then i + 1 else i, i)
      requires facingblok == s.Face(i, j)
      requires 0 <= s.bloktab[i].fcblknm < |c.candtab| && IsCand(c, s.bloktab[i].fcblknm, pr)
      modifies `cblkctrb, `blokctrb, `tasktime, `ftgttime, `ready, `future, `released
      ensures Computing(i, j + 1, s.End(g.t), pr) && Logged(g, i + 1, i)
    {
      hide DatesOK, AllHeaps, BlokCounters, CblkCounters, Bounded, Logged;
      ghost var hi := s.End(g.t);
      ghost var slack := SumReal(c.blokcost, i + 1, hi);
      RealSumAtLeast(c.blokcost, i + 1, hi, -1);
      var facingcblk := CountContribution(i, j, facingblok, hi);
      PostponeFaced(i, pr, slack, g, if j > i then i + 1 else i);
      if cblkctrb[facingcblk] == 0 {
        ReleaseFaced(facingcblk, pr, slack, g, i);
      }
    }

    /** The clock of core `pr` takes the cost of block `i`, out of the room left for
        the blocks up to `hi`. */
    method AdvanceClock(pr: int, i: int, ghost hi: int)
      requires Static() && Heaps(pr, -1) && 0 <= pr < |timers|
      requires 0 <= i < hi <= |c.blokcost| && Clocks(pr, SumReal(c.blokcost, i, hi))
      modifies `timers
      ensures Heaps(pr, -1) && Clocks(pr, SumReal(c.blokcost, i + 1, hi))
      ensures timers == old(timers)[pr := old(timers)[pr] + c.blokcost[i]]
    {
      SumFromBelow(c.blokcost, i, hi);
      RealSumAtLeast(c.blokcost, i + 1, hi, -1);
      ClockAdvances(s, c, D(), ownetab, released, ready, future, timers, pr, timers[pr] + c.blokcost[i], pr, -1);
      timers := timers[pr := timers[pr] + c.blokcost[i]];
    }

    lemma RowStart(t: int, i: int, pr: int)
      requires Static() && 0 <= t < s.CblkNbr() && s.First(t) < i < s.End(t) && IsCand(c, t, pr)
      ensures s.Pair(i, i) && s.bloktab[i].lcblknm == t && 0 <= s.bloktab[i].fcblknm < |c.candtab| == s.CblkNbr()
      ensures IsCand(c, s.bloktab[i].fcblknm, pr)
      ensures s.First(s.bloktab[i].fcblknm) <= s.Face(i, i)
    {
      BlocksShareCblk(s, t, i, i);
      assert s.BlokPlaced(i) && Nested(s, c, i);
      FaceReceives(s, i, i);
    }

    lemma RowNext(t: int, i: int, j: int)
      requires Static() && 0 <= t < s.CblkNbr() && s.First(t) < i <= j && j + 1 < s.End(t)
      ensures s.Pair(i, j + 1) && 0 <= i && j < |s.bloktab| && s.Face(i, j) <= s.Face(i, j + 1) < |s.bloktab|
    {
      BlocksShareCblk(s, t, i, j);
      BlocksShareCblk(s, t, i, j + 1);
      FaceMonotone(s, i, j, j + 1);
      FaceReceives(s, i, j + 1);
    }

    /** Deliver the update of blocks `i` and `j`, searching its block from the last one found. */
    method ContributeNext(i: int, j: int, firstfacingblok: int, pr: int, t: int, ghost g: Computed)
        returns (facingblok: int)
      requires Static() && 0 <= t < s.CblkNbr() && s.First(t) < i <= j < s.End(t) && IsCand(c, t, pr)
      requires ComputedOK(s, c, g) && g.t == t && g.pr == pr
      requires Computing(i, j, s.End(t), pr) && Logged(g, if j > i then i + 1 else i, i)
      requires s.Pair(i, j) && firstfacingblok <= s.Face(i, j)
      modifies `cblkctrb, `blokctrb, `tasktime, `ftgttime, `ready, `future, `released
      ensures Computing(i, j + 1, s.End(t), pr) && Logged(g, i + 1, i)
      ensures j + 1 < s.End(t) ==> s.Pair(i, j + 1) && facingblok <= s.Face(i, j + 1)
    {
      hide Computing, Logged;
      RowStart(t, i, pr);
      facingblok := GetFacingBloknum(s, i, j, firstfacingblok);
      Contribute(i, j, facingblok, pr, g);
      if j + 1 < s.End(t) {
        RowNext(t, i, j);
      }
    }

    /** The updates of one off-diagonal block `i` with the blocks below it. */
    method ContributeRow(i: int, pr: int, t: int, ghost g: Computed)
      requires Static() && 0 <= t < s.CblkNbr() && s.First(t) < i < s.End(t) && IsCand(c, t, pr)
      requires ComputedOK(s, c, g) && g.t == t && g.pr == pr
      requires Computing(i, i, s.End(t), pr) && Logged(g, i, i)
      modifies `cblkctrb, `blokctrb, `tasktime, `ftgttime, `ready, `future, `released
      ensures Computing(i, s.End(t), s.End(t), pr) && Logged(g, i + 1, i)
    {
      hide Computing, Logged;
      RowStart(t, i, pr);
      var firstfacingblok := s.First(s.bloktab[i].fcblknm);
      var lbloknum := s.End(t);
      var j := i;
      while j < lbloknum
        invariant i <= j <= lbloknum
        invariant Computing(i, j, lbloknum, pr) && Logged(g, if j > i then i + 1 else i, i)
        invariant j < lbloknum ==> s.Pair(i, j) && firstfacingblok <= s.Face(i, j)
      {
        firstfacingblok := ContributeNext(i, j, firstfacingblok, pr, t, g);
        j := j + 1;
      }
    }

    /** What a task being computed keeps before block `i`. */
    ghost predicate AtBlock(i: int, hi: int, pr: int)
      reads this
      requires Static() && 0 <= i <= hi <= |c.blokcost|
    {
      && Heaps(pr, -1) && Released(s.CblkNbr()) && Counters(i, i, hi) && 0 <= pr < |timers|
      && Clocks(pr, SumReal(c.blokcost, i, hi))
    }

    method ComputeBlock(i: int, pr: int, t: int, ghost g: Computed)
      requires Static() && 0 <= t < s.CblkNbr() && s.First(t) < i < s.End(t) && IsCand(c, t, pr)
      requires ComputedOK(s, c, g) && g.t == t && g.pr == pr
      requires AtBlock(i, s.End(t), pr) && Logged(g, i, i - 1)
      modifies `timers, `cblkctrb, `blokctrb, `tasktime, `ftgttime, `ready, `future, `released
      ensures AtBlock(i + 1, s.End(t), pr) && Logged(g, i + 1, i)
    {
      AdvanceClock(pr, i, s.End(t));
      ContributeRow(i, pr, t, g);
      RowDelivered(s, ownetab, blokctrb, i, s.End(t));
    }

    lemma OneClockACore(skip: int)
      requires Static() && Heaps(skip, -1)
      ensures |timers| == |c.core2clust|
    {
    }

    /** The diagonal block takes its cost; nothing is contributed yet. */
    method ComputeDiagonal(pr: int, t: int, ghost g: Computed)
      requires Static() && 0 <= t < s.CblkNbr() && Heaps(pr, -1) && Released(s.CblkNbr())
      requires Clocks(pr, CblkCost(s, c, t)) && Counters(s.First(t) + 1, s.First(t) + 1, s.End(t))
      requires g == Computed(t, pr, timers, D(), released) && ComputedOK(s, c, g)
      modifies `timers
      ensures AtBlock(s.First(t) + 1, s.End(t), pr) && Logged(g, s.First(t) + 1, s.First(t))
    {
      hide DatesOK, HeapOK, BlokCounters, CblkCounters, DatesAt;
      NothingDated(s, c, g);
      FirstClock(s, c, g);
      AdvanceClock(pr, s.First(t), s.End(t));
    }

    /** Run task `t` on the core it was given: its clock takes the cost of every
        block, and each couple of off-diagonal blocks delivers one contribution. */
    method ComputeTask(t: int)
      requires Static() && Owners() && 0 <= t < s.CblkNbr() && ownetab[t] >= 0
      requires Heaps(ownetab[t], -1) && Released(s.CblkNbr()) && Clocks(ownetab[t], CblkCost(s, c, t))
      requires Counters(s.First(t) + 1, s.First(t) + 1, s.End(t))
      modifies `timers, `cblkctrb, `blokctrb, `tasktime, `ftgttime, `ready, `future, `released
      ensures Heaps(ownetab[t], -1) && Released(s.CblkNbr()) && Counters(0, 0, 0) && Clocks(-1, 0.0)
      ensures ComputedOK(s, c, Computed(t, ownetab[t], old(timers), old(D()), old(released)))
      ensures timers == old(timers)[ownetab[t] := old(timers)[ownetab[t]] + CblkCost(s, c, t)]
      ensures DatesAt(s, c, Computed(t, ownetab[t], old(timers), old(D()), old(released)), D(), released, s.End(t))
    {
      hide DatesOK, AllHeaps, BlokCounters, CblkCounters, OwnerClustOK, DatesAt;
      var procnum := ownetab[t];
      assert CandOK(c, t);
      OneClockACore(procnum);
      ghost var g := Computed(t, procnum, timers, D(), released);
      var fbloknum, lbloknum := s.First(t), s.End(t);
      ComputeDiagonal(procnum, t, g);
      var i := fbloknum + 1;
      while i < lbloknum
        invariant fbloknum < i <= lbloknum
        invariant AtBlock(i, lbloknum, procnum) && Logged(g, i, i - 1)
      {
        ComputeBlock(i, procnum, t, g);
        i := i + 1;
      }
      AllDelivered(s, ownetab, blokctrb, lbloknum);
    }

    method CountNext(i: int, j: int, k: int, firstbloknum: int) returns (facebloknum: int)
      requires Static() && |ownetab| == s.CblkNbr() && 0 <= i < s.CblkNbr() && s.First(i) < j <= k < s.End(i)
      requires CountedAt(s, ownetab, blokctrb, i, j, k)
      requires s.Pair(j, k) && firstbloknum <= s.Face(j, k)
      modifies `blokctrb
      ensures CountedAt(s, ownetab, blokctrb, i, j, k + 1)
      ensures k + 1 < s.End(i) ==> s.Pair(j, k + 1) && facebloknum <= s.Face(j, k + 1)
    {
      facebloknum := GetFacingBloknum(s, j, k, firstbloknum);
      FaceReceives(s, j, k);
      CountOne(s, ownetab, blokctrb, i, j, k);
      blokctrb := blokctrb[facebloknum := blokctrb[facebloknum] + 1];
      if k + 1 < s.End(i) {
        RowNext(i, j, k);
      }
    }

    method CountRow(i: int, j: int)
      requires Static() && |ownetab| == s.CblkNbr() && 0 <= i < s.CblkNbr() && s.First(i) < j < s.End(i)
      requires CountedAt(s, ownetab, blokctrb, i, j, j)
      modifies `blokctrb
      ensures CountedAt(s, ownetab, blokctrb, i, j + 1, j + 1)
    {
      BlocksShareCblk(s, i, j, j);
      FaceReceives(s, j, j);
      var firstbloknum := 0;
      var k, lbloknum := j, s.End(i);
      while k < lbloknum
        invariant j <= k <= lbloknum && CountedAt(s, ownetab, blokctrb, i, j, k)
        invariant k < lbloknum ==> s.Pair(j, k) && firstbloknum <= s.Face(j, k)
      {
        firstbloknum := CountNext(i, j, k, firstbloknum);
        k := k + 1;
      }
      CountRowEnds(s, ownetab, blokctrb, i, j);
    }

    method CountCblk(i: int)
      requires Static() && |ownetab| == s.CblkNbr() && 0 <= i < s.CblkNbr() && ownetab[i] == -1
      requires CountedUpto(s, ownetab, blokctrb, i)
      modifies `blokctrb
      ensures CountedUpto(s, ownetab, blokctrb, i + 1)
    {
      CountStarts(s, ownetab, blokctrb, i);
      var j := s.First(i) + 1;
      while j < s.End(i)
        invariant s.First(i) < j <= s.End(i) && CountedAt(s, ownetab, blokctrb, i, j, j)
      {
        CountRow(i, j);
        j := j + 1;
      }
      CountEnds(s, ownetab, blokctrb, i);
    }

    /** Count, for each block and each column block, the contributions it will receive. */
    method ComputeBlockCtrbNbr()
      requires Static() && |ownetab| == s.CblkNbr() && |blokctrb| == |s.bloktab| && |cblkctrb| == s.CblkNbr()
      requires forall i :: 0 <= i < |ownetab| ==> ownetab[i] == -1
      requires forall b :: 0 <= b < |blokctrb| ==> blokctrb[b] == 0
      modifies `blokctrb, `cblkctrb
      ensures Counters(0, 0, 0)
    {
      var i := 0;
      while i < s.CblkNbr()
        invariant 0 <= i <= s.CblkNbr() && |cblkctrb| == s.CblkNbr()
        invariant CountedUpto(s, ownetab, blokctrb, i)
      {
        CountCblk(i);
        i := i + 1;
      }
      CountedAll(s, ownetab, blokctrb);
      SumBlocks();
    }

    method SumBlocks()
      requires Static() && |blokctrb| == |s.bloktab| && |cblkctrb| == s.CblkNbr()
      modifies `cblkctrb
      ensures CblkCounters(s, blokctrb, cblkctrb)
    {
      var i := 0;
      while i < s.CblkNbr()
        invariant 0 <= i <= s.CblkNbr() && |cblkctrb| == s.CblkNbr()
        invariant forall x :: 0 <= x < i ==> IsBlokSum(s, blokctrb, x, cblkctrb[x])
      {
        var ctrbcnt := 0;
        var j := s.First(i);
        while j < s.End(i)
          invariant s.First(i) <= j <= s.End(i) && ctrbcnt == SumInt(blokctrb, s.First(i), j)
        {
          ctrbcnt := ctrbcnt + blokctrb[j];
          j := j + 1;
        }
        cblkctrb := cblkctrb[i := ctrbcnt];
        i := i + 1;
      }
    }

    /** State of the structure before the simulation starts. */
    ghost predicate Initial()
      reads this
    {
      && Static() && Owners() && Heaps(-1, -1) && Clocks(-1, 0.0) && Lists() && Scheduled()
      && |blokctrb| == |s.bloktab| && |cblkctrb| == s.CblkNbr() && released == {} && order == []
      && (forall i :: 0 <= i < |ownetab| ==> ownetab[i] == -1)
      && (forall b :: 0 <= b < |blokctrb| ==> blokctrb[b] == 0)
    }

    static ghost predicate FtgtNums(s: SymbolMatrix, c: Ctrl, ftgtnum: seq<int>, ftgtcur: int) {
      && |ftgtnum| <= |s.bloktab| && ftgtcur == FtgtBase(s, c, |ftgtnum|)
      && forall b :: 0 <= b < |ftgtnum| ==> ftgtnum[b] == FtgtBase(s, c, b)
    }

    /** First fan-in index of each block: a running total of the candidate clusters. */
    static method BuildFtgtNum(s: SymbolMatrix, c: Ctrl) returns (ftgtnum: seq<int>)
      requires s.Valid() && AllHaveCands(s, c) && |c.candtab| == s.CblkNbr()
      ensures |ftgtnum| == |s.bloktab| + 1
      ensures forall b :: 0 <= b <= |s.bloktab| ==> ftgtnum[b] == FtgtBase(s, c, b)
    {
      ftgtnum := [];
      var ftgtcur := 0;
      var i := 0;
      while i < s.CblkNbr()
        invariant 0 <= i <= s.CblkNbr() && |ftgtnum| == s.First(i) && FtgtNums(s, c, ftgtnum, ftgtcur)
      {
        ftgtnum, ftgtcur := AddFtgtNums(s, c, i, ftgtnum, ftgtcur);
        i := i + 1;
      }
      ftgtnum := ftgtnum + [ftgtcur];
    }

    static method AddFtgtNums(s: SymbolMatrix, c: Ctrl, i: int, nums: seq<int>, cur: int)
        returns (ftgtnum: seq<int>, ftgtcur: int)
      requires s.Valid() && AllHaveCands(s, c) && 0 <= i < s.CblkNbr() == |c.candtab|
      requires |nums| == s.First(i) && FtgtNums(s, c, nums, cur)
      ensures |ftgtnum| == s.End(i) && FtgtNums(s, c, ftgtnum, ftgtcur)
    {
      ftgtnum, ftgtcur := nums, cur;
      var candnbr := c.candtab[i].lccandnum - c.candtab[i].fccandnum + 1;
      var j := s.First(i);
      while j < s.End(i)
        invariant s.First(i) <= j <= s.End(i) && |ftgtnum| == j && FtgtNums(s, c, ftgtnum, ftgtcur)
      {
        assert s.bloktab[j].lcblknm == i;
        ftgtnum := ftgtnum + [ftgtcur];
        ftgtcur := ftgtcur + candnbr;
        j := j + 1;
      }
    }

    /** Nothing counted, mapped, released or queued; all clocks at zero. */
    ghost predicate Cleared()
      reads this
      requires s.CblkNbr() >= 0
    {
      && ownetab == seq(s.CblkNbr(), i => -1) && cblkctrb == seq(s.CblkNbr(), i => 0)
      && ownerclust == seq(|s.bloktab|, i => -1) && blokctrb == seq(|s.bloktab|, i => 0)
      && timers == seq(|c.core2clust|, i => 0.0) && tasktime == seq(s.CblkNbr(), i => 0.0)
      && ftgttime == seq(|c.ftgtcost|, i => 0.0)
      && ready == seq(|c.core2clust|, i => []) && future == seq(|c.core2clust|, i => [])
      && tasktab == seq(|c.core2clust|, i => []) && released == {} && order == []
      && |startdate| == |enddate| == s.CblkNbr()
    }

    lemma ClearedIsInitial()
      requires Static() && s.CblkNbr() >= 0 && Cleared()
      ensures Initial()
    {
      hide ScheduleOK, SumReal, TotalWork;
      NothingScheduled(s, c, Plan());
      WorkWithinTotal(s, c, ownetab, released, |ownetab|);
      forall b | 0 <= b < |ownerclust|
        ensures OwnerClustOK(b)
      {
        assert HasCands(s, c, b);
      }
    }

    constructor (s: SymbolMatrix, c: Ctrl)
      requires CtrlOK(s, c) && s.FillClosed()
      ensures this.s == s && this.c == c && Initial()
    {
      this.s, this.c := s, c;
      var n, p := s.CblkNbr(), |c.core2clust|;
      cblkctrb, ownetab := seq(n, i => 0), seq(n, i => -1);
      blokctrb, ownerclust := seq(|s.bloktab|, i => 0), seq(|s.bloktab|, i => -1);
      timers, tasktime, ftgttime := seq(p, i => 0.0), seq(n, i => 0.0), seq(|c.ftgtcost|, i => 0.0);
      ready, future, tasktab := seq(p, i => []), seq(p, i => []), seq(p, i => []);
      released, order := {}, [];
      startdate, enddate := seq(n, i => 0.0), seq(n, i => 0.0);
      CtrlGivesCands(s, c);
      var ftgt := SimuCtrl.BuildFtgtNum(s, c);
      ftgtnum := ftgt;
      new;
      ClearedIsInitial();
    }

    /** Offer every task that expects nothing to its candidates. */
    method ReleaseFirstTasks()
      requires Static() && Owners() && Heaps(-1, -1) && Counters(0, 0, 0) && Clocks(-1, 0.0)
      requires released == {} && |cblkctrb| == s.CblkNbr()
      modifies `ready, `future, `released
      ensures Heaps(-1, -1) && Released(s.CblkNbr()) && Clocks(-1, 0.0)
    {
      var i := 0;
      while i < s.CblkNbr()
        invariant 0 <= i <= s.CblkNbr() && Heaps(-1, -1) && Released(i) && Clocks(-1, 0.0)
      {
        if cblkctrb[i] == 0 {
          CostsNonNegative(s, c, i);
          WorkReleases(s, c, ownetab, released, |ownetab|, i);
          PutInAllReadyQueues(i, -1, -1);
        }
        i := i + 1;
      }
    }

    /** Count the contributions and release the first tasks. */
    method Prepare()
      requires Initial()
      modifies `blokctrb, `cblkctrb, `ready, `future, `released
      ensures LoopHead() && order == []
    {
      hide DatesOK, AllHeaps, BlokCounters, Bounded, OwnerClustOK, DependencyOrder, NoRepeat;
      ComputeBlockCtrbNbr();
      ReleaseFirstTasks();
      ReleasedAreUnfed();
      NothingScheduled(s, c, Plan());
    }

    /** Before anything is mapped, a task that expects nothing is faced by no block. */
    lemma ReleasedAreUnfed()
      requires Static() && |ownetab| == s.CblkNbr() && Counters(0, 0, 0) && Released(s.CblkNbr())
      requires forall i :: 0 <= i < |ownetab| ==> ownetab[i] == -1
      ensures forall v :: v in released ==> Unfed(s, v)
    {
      hide BlokCounters, CblkCounters;
      forall v, u, k | v in released && 0 <= u < s.CblkNbr() && s.First(u) < k < s.End(u)
        ensures s.bloktab[k].fcblknm != v
      {
        if s.bloktab[k].fcblknm == v {
          assert Contributes(s, u, v);
          ContributorsMapped(s, ownetab, blokctrb, cblkctrb, 0, u, v);
        }
      }
    }

    /** Appending a released task to its core's list keeps the lists in dependency order. */
    lemma ListsGrow(t: int, pr: int, tasktab': seq<seq<int>>)
      requires Static() && Lists() && Counters(0, 0, 0) && 0 <= t < |ownetab| && ownetab[t] == -1
      requires 0 <= pr < |tasktab| && |cblkctrb| == |ownetab| && cblkctrb[t] == 0
      requires tasktab' == tasktab[pr := tasktab[pr] + [t]]
      ensures NoRepeat(order + [t]) && DependencyOrder(s, order + [t])
      ensures forall x :: x in order + [t] <==> 0 <= x < |ownetab| && ownetab[t := pr][x] >= 0
      ensures forall p :: 0 <= p < |tasktab'| ==> tasktab'[p] == OnCore(order + [t], ownetab[t := pr], p)
    {
      var order' := order + [t];
      forall b, u | 0 <= b < |order'| && 0 <= u < s.CblkNbr() && Contributes(s, u, order'[b])
        ensures u in order'[..b]
      {
        if b < |order| {
          assert order'[..b] == order[..b];
        } else {
          ContributorsMapped(s, ownetab, blokctrb, cblkctrb, 0, u, t);
          assert order'[..b] == order;
        }
      }
      forall p | 0 <= p < |tasktab'|
        ensures tasktab'[p] == OnCore(order', ownetab[t := pr], p)
      {
        assert order'[..|order'| - 1] == order;
        OnCoreFrame(order, ownetab, ownetab[t := pr], p);
      }
    }

    /** Give task `t` to core `pr`: owner of the column block and of its blocks, and
        place at the end of the core's list. */
    method MapOn(t: int, pr: int)
      requires Static() && Owners() && Heaps(-1, t) && Released(s.CblkNbr()) && Counters(0, 0, 0)
      requires Clocks(-1, 0.0) && Lists() && Available(t, pr)
      modifies `ownetab, `ownerclust, `tasktab, `order
      ensures Owners() && Heaps(-1, -1) && Lists() && order == old(order) + [t]
      ensures ownetab == old(ownetab)[t := pr]
      ensures Counters(s.First(t) + 1, s.First(t) + 1, s.End(t))
      ensures Bounded(D(), timers, WorkDone() - CblkCost(s, c, t), -1, 0.0)
    {
      hide DatesOK, AllHeaps, BlokCounters, CblkCounters, OnCore, DependencyOrder, NoRepeat;
      assert CandOK(c, t);
      ListsGrow(t, pr, tasktab[pr := tasktab[pr] + [t]]);
      MapTask(s, ownetab, blokctrb, t, pr, 0);
      MapTaken(s, c, D(), ownetab, released, ready, future, timers, -1, t, pr);
      WorkMaps(s, c, ownetab, released, |ownetab|, t, pr);
      label Unmapped:
      ownetab := ownetab[t := pr];
      forall b | 0 <= b < |ownerclust| && s.bloktab[b].lcblknm != t
        ensures OwnerClustOK(b)
      {
        assert old@Unmapped(OwnerClustOK(b));
        assert HasCands(s, c, b);
      }
      tasktab := tasktab[pr := tasktab[pr] + [t]];
      order := order + [t];
      SetOwnerClust(t, c.core2clust[pr]);
    }

    method SetOwnerClust(t: int, clustnum: int)
      requires Static() && 0 <= t < s.CblkNbr() && |ownetab| == s.CblkNbr() && |ownerclust| == |s.bloktab|
      requires IsCand(c, t, ownetab[t]) && 0 <= ownetab[t] < |c.core2clust| && clustnum == c.core2clust[ownetab[t]]
      requires forall i :: 0 <= i < |ownetab| ==> ownetab[i] == -1 || IsCand(c, i, ownetab[i])
      requires forall b :: 0 <= b < |ownerclust| && s.bloktab[b].lcblknm != t ==> OwnerClustOK(b)
      modifies `ownerclust
      ensures Owners()
    {
      var j := s.First(t);
      ghost var before := ownerclust;
      while j < s.End(t)
        invariant s.First(t) <= j <= s.End(t) && |ownerclust| == |s.bloktab|
        invariant forall b :: 0 <= b < |ownerclust| ==>
                    ownerclust[b] == if s.First(t) <= b < j then clustnum else before[b]
      {
        ownerclust := ownerclust[j := clustnum];
        j := j + 1;
      }
      forall b | 0 <= b < |ownerclust|
        ensures OwnerClustOK(b)
      {
        assert s.BlokPlaced(b);
      }
    }

    /** The clock of the chosen core waits for the data of its task. */
    method WaitForTask(t: int, pr: int)
      requires Static() && Heaps(-1, -1) && 0 <= t < s.CblkNbr() && IsCand(c, t, pr) && 0 <= pr < |timers|
      requires Bounded(D(), timers, WorkDone() - CblkCost(s, c, t), -1, 0.0)
      modifies `timers
      ensures Heaps(pr, -1) && Clocks(pr, CblkCost(s, c, t))
      ensures timers == old(timers)[pr := old(Start(t, pr))]
      ensures timers[pr] == Max(old(timers)[pr], Date(s, c, D(), t, pr))
    {
      CostsNonNegative(s, c, t);
      ghost var slot := Slot(s, c, t, pr);
      assert HasCands(s, c, s.First(t)) && CandOK(c, t);
      StartDateIsMax(s, c, D(), timers[pr], t, pr);
      var date := if c.candtab[t].fccandnum == c.candtab[t].lccandnum then tasktime[t]
                  else ftgttime[Clust2IndexOf(s.First(t), c.core2clust[pr])];
      ClockAdvances(s, c, D(), ownetab, released, ready, future, timers, pr, Max(date, timers[pr]), -1, -1);
      timers := timers[pr := Max(date, timers[pr])];
    }

    /** Task `t`, just mapped on `pr`, is about to start: nothing but its owner, its place in
        the order and the clock of its core has changed since `w`. */
    ghost predicate Starting(t: int, pr: int, w: Schedule)
      reads `ownetab, `order, `released, `timers, `tasktime, `ftgttime, `startdate, `enddate
      requires CtrlOK(s, c)
    {
      && Sized(s, c, w) && 0 <= t < |w.own| && w.own[t] < 0 && t !in w.order && t in w.released
      && 0 <= pr < |w.timers| == |timers| && IsCand(c, t, pr)
      && w.timers[pr] >= 0.0 && timers[pr] == Max(w.timers[pr], Date(s, c, w.dates, t, pr))
      && Plan() == w.(own := w.own[t := pr], order := w.order + [t], timers := w.timers[pr := timers[pr]],
                      start := w.start[t := timers[pr]])
    }

    /** Simulate a task just mapped, and catch its core up. */
    method Simulate(t: int, pr: int, ghost w: Schedule)
      requires Static() && Owners() && 0 <= t < s.CblkNbr() && ownetab[t] == pr >= 0 && Lists()
      requires Heaps(pr, -1) && Released(s.CblkNbr()) && Clocks(pr, CblkCost(s, c, t))
      requires Counters(s.First(t) + 1, s.First(t) + 1, s.End(t)) && ScheduleOK(s, c, w) && Starting(t, pr, w)
      modifies `timers, `cblkctrb, `blokctrb, `tasktime, `ftgttime, `ready, `future, `released, `enddate
      ensures LoopHead()
      ensures timers == old(timers)[pr := old(timers)[pr] + CblkCost(s, c, t)] && enddate == w.end[t := timers[pr]]
      ensures ComputedOK(s, c, Computed(t, pr, old(timers), w.dates, w.released))
      ensures DatesAt(s, c, Computed(t, pr, old(timers), w.dates, w.released), D(), released, s.End(t))
    {
      hide DatesOK, AllHeaps, BlokCounters, CblkCounters, Bounded, DatesAt, ScheduleOK, Date;
      hide OnCore, DependencyOrder, NoRepeat, OthersKept, SameTasks, Elts, CblkCost;
      ghost var timers0 := timers;
      ComputeTask(t);
      assert CandOK(c, t);
      enddate := enddate[t := timers[pr]];
      Ended(t, pr, w, timers0);
      PushToReadyHeap(pr);
    }

    /** Task `t` has run: the schedule holds with it. */
    lemma Ended(t: int, pr: int, w: Schedule, timers0: seq<real>)
      requires CtrlOK(s, c) && ScheduleOK(s, c, w)
      requires 0 <= t < |w.own| && w.own[t] < 0 && t !in w.order && t in w.released && 0 <= pr < |w.timers| == |timers0|
      requires IsCand(c, t, pr) && w.timers[pr] >= 0.0 && timers0[pr] == Max(w.timers[pr], Date(s, c, w.dates, t, pr))
      requires var g := Computed(t, pr, timers0, w.dates, w.released);
        ComputedOK(s, c, g) && DatesAt(s, c, g, D(), released, s.End(t))
      requires Plan() == Next(s, c, w, t, pr, timers0[pr], D(), released)
      ensures Scheduled()
    {
      hide Date, DatesAt, ScheduleOK, CblkCost;
      ScheduleSized(s, c, w);
      ScheduleGrows(s, c, w, Computed(t, pr, timers0, w.dates, w.released), D(), released);
    }

    lemma MayStart(t: int, pr: int)
      requires Static() && Lists() && Clocks(-1, 0.0) && Scheduled() && Available(t, pr) && 0 <= pr < |timers|
      ensures Sized(s, c, Plan()) && 0 <= t < |startdate| && t !in order && t in released && timers[pr] >= 0.0
    {
    }

    /** Map the chosen couple; its core waits for the data of the task, and the task starts. */
    method Begin(t: int, pr: int)
      requires Static() && Owners() && Heaps(-1, t) && Released(s.CblkNbr()) && Counters(0, 0, 0)
      requires Clocks(-1, 0.0) && Lists() && Available(t, pr) && Scheduled() && 0 <= pr < |timers|
      modifies `ownetab, `ownerclust, `tasktab, `order, `timers, `startdate
      ensures Owners() && Lists() && Heaps(pr, -1) && Clocks(pr, CblkCost(s, c, t))
      ensures Counters(s.First(t) + 1, s.First(t) + 1, s.End(t))
      ensures order == old(order) + [t] && ownetab == old(ownetab)[t := pr]
      ensures Starting(t, pr, old(Plan())) && timers == old(timers)[pr := old(Start(t, pr))]
    {
      hide DatesOK, AllHeaps, BlokCounters, CblkCounters, Bounded, ScheduleOK, Date, OwnerClustOK;
      hide OnCore, DependencyOrder, NoRepeat, Elts, CblkCost;
      MayStart(t, pr);
      MapOn(t, pr);
      WaitForTask(t, pr);
      startdate := startdate[t := timers[pr]];
    }

    /** Map the chosen couple and simulate it. */
    method Execute(t: int, pr: int)
      requires Static() && Owners() && Heaps(-1, t) && Released(s.CblkNbr()) && Counters(0, 0, 0)
      requires Clocks(-1, 0.0) && Lists() && Available(t, pr) && Scheduled() && 0 <= pr < |timers|
      modifies this
      ensures LoopHead() && order == old(order) + [t]
      ensures ownetab == old(ownetab)[t := pr]
      ensures Timed(t, pr, old(Start(t, pr)), old(Plan()))
    {
      hide DatesOK, AllHeaps, BlokCounters, CblkCounters, Bounded, DatesAt, ScheduleOK, Date, OwnerClustOK;
      hide OnCore, DependencyOrder, NoRepeat, Elts, CblkCost;
      ghost var w := Plan();
      Begin(t, pr);
      Simulate(t, pr, w);
    }

    /** Since `w`, task `t` has run on core `pr` from date `start`: its cost has passed on that
        clock and on no other, and the tasks it contributes to are dated. */
    ghost predicate Timed(t: int, pr: int, start: real, w: Schedule)
      reads `released, `timers, `tasktime, `ftgttime, `startdate, `enddate
      requires CtrlOK(s, c)
    {
      && 0 <= t < s.CblkNbr() == |w.start| == |w.end| && 0 <= pr < |w.timers|
      && timers == w.timers[pr := start + CblkCost(s, c, t)]
      && startdate == w.start[t := start] && enddate == w.end[t := start + CblkCost(s, c, t)]
      && var g := Computed(t, pr, w.timers[pr := start], w.dates, w.released);
         ComputedOK(s, c, g) && DatesAt(s, c, g, D(), released, s.End(t))
    }

    /** Every column block is mapped, on one of its candidates. */
    ghost predicate AllMapped()
      reads this
      requires Static()
    {
      |ownetab| == s.CblkNbr() && forall i :: 0 <= i < |ownetab| ==> IsCand(c, i, ownetab[i])
    }

    /** As long as a column block is not mapped, some couple can start, no later
        than the work done so far. */
    lemma SomeCoupleStarts(i: int) returns (t: int, p: int)
      requires LoopHead() && 0 <= i < |ownetab| && ownetab[i] < 0
      ensures Available(t, p) && Start(t, p) <= WorkDone()
    {
      t := FirstUnmapped(i);
      FirstUnmappedIsReleased(s, ownetab, blokctrb, cblkctrb, 0, t);
      assert CandOK(c, t);
      p := c.candtab[t].fcandnum;
      ghost var slot := Slot(s, c, t, p);
    }

    /** When the search finds nothing below a date that the whole work cannot
        reach, nothing is left to map. */
    lemma NothingLeft()
      requires LoopHead()
      requires forall t, p :: Available(t, p) ==> Start(t, p) >= c.intmax
      requires TotalWork(s, c, s.CblkNbr()) < c.intmax
      ensures AllMapped()
    {
      WorkWithinTotal(s, c, ownetab, released, |ownetab|);
      forall i | 0 <= i < |ownetab|
        ensures ownetab[i] >= 0
      {
        if ownetab[i] < 0 {
          var t, p := SomeCoupleStarts(i);
        }
      }
    }

    /** Once every clock has reached the sentinel, the search finds nothing although some
        task still waits. */
    lemma StopsEarly(i: int) returns (t: int, p: int)
      requires LoopHead() && 0 <= i < |ownetab| && ownetab[i] < 0
      requires forall q :: 0 <= q < |timers| ==> timers[q] >= c.intmax
      ensures Available(t, p)
      ensures forall u, q :: Available(u, q) ==> Start(u, q) >= c.intmax
    {
      t, p := SomeCoupleStarts(i);
      CandsAreCores();
    }

    lemma FirstUnmapped(i: int) returns (t: int)
      requires 0 <= i < |ownetab| && ownetab[i] < 0
      ensures 0 <= t <= i && ownetab[t] < 0 && forall u :: 0 <= u < t ==> ownetab[u] >= 0
    {
      t := 0;
      while ownetab[t] >= 0
        invariant 0 <= t <= i && forall u :: 0 <= u < t ==> ownetab[u] >= 0
        decreases i - t
      {
        t := t + 1;
      }
    }

    /** One turn of the main loop: the couple mapped is one that starts the
        earliest; -1 when no couple is found. */
    method Turn() returns (i: int, pr: int)
      requires LoopHead()
      modifies this
      ensures LoopHead()
      ensures i != -1 ==> old(Available(i, pr)) && forall t, p :: old(Available(t, p)) ==>
          old(Start(i, pr)) <= old(Start(t, p))
      ensures i != -1 ==> 0 <= pr < |old(timers)| && old(FirstInLine(i, pr)) && old(TieRule(pr, Start(i, pr)))
      ensures i != -1 ==> ownetab == old(ownetab)[i := pr]
      ensures i == -1 ==> order == old(order) && forall t, p :: Available(t, p) ==> Start(t, p) >= c.intmax
      ensures i != -1 ==> order == old(order) + [i]
      ensures i != -1 ==> Timed(i, pr, old(Start(i, pr)), old(Plan()))
    {
      hide DatesOK, HeapOK, BlokCounters, OwnerClustOK, OnCore, DependencyOrder, NoRepeat;
      hide ScheduleOK, Timed, FirstInLine, TieRule, StartDate;
      CandsAreCores();
      i, pr := GetNextTaskNextProc();
      if i != -1 {
        forall t, p | old(Available(t, p))
          ensures old(Start(i, pr)) <= old(Start(t, p))
        {
          assert Available(t, p) && Start(i, pr) <= Start(t, p);
        }
        Execute(i, pr);
      }
    }

    lemma TurnsBounded()
      requires Static() && Lists()
      ensures |order| <= s.CblkNbr()
      ensures AllMapped() ==> |order| == s.CblkNbr()
    {
      NoRepeatBound(order, s.CblkNbr());
      if AllMapped() {
        forall i | 0 <= i < s.CblkNbr()
          ensures i in order
        {
          assert CandOK(c, i);
        }
      }
    }

    /** On every core, no task contributes to an earlier one. */
    lemma TasksInDependencyOrder(p: int, a: int, b: int)
      requires LoopHead() && 0 <= p < |tasktab| && 0 <= a < b < |tasktab[p]|
      ensures 0 <= tasktab[p][b] < s.CblkNbr() && ownetab[tasktab[p][b]] == p
      ensures !Contributes(s, tasktab[p][b], tasktab[p][a])
    {
      CoreListInOrder(s, order, ownetab, p, a, b);
      OnCoreMembers(order, ownetab, p);
      assert tasktab[p][b] in tasktab[p];
    }

    /** No core runs two tasks at once. */
    lemma OneTaskPerCore(u: int, v: int)
      requires LoopHead() && 0 <= u < |ownetab| && 0 <= v < |ownetab| && u != v && ownetab[u] == ownetab[v] >= 0
      ensures |startdate| == |enddate| == |ownetab|
      ensures enddate[u] == startdate[u] + CblkCost(s, c, u)
      ensures enddate[u] <= startdate[v] || enddate[v] <= startdate[u]
    {
      assert Planned(s, c, Plan(), u);
      OneTaskAtATime(s, c, Plan(), u, v);
    }

    /** The contributors of a mapped task are mapped, and those of its own cluster, all of them
        when it has one candidate cluster, have computed their contributions when it starts. */
    lemma ContributionsComeFirst(u: int, k: int)
      requires LoopHead() && 0 <= u < |ownetab| && s.First(u) < k < s.End(u)
      requires var v := s.bloktab[k].fcblknm; 0 <= v < |ownetab| && ownetab[v] >= 0
      ensures |startdate| == |ownetab|
      ensures var v := s.bloktab[k].fcblknm;
        && 0 <= ownetab[u] < |c.core2clust| && ownetab[v] < |c.core2clust|
        && (SingleCluster(c, v) || c.core2clust[ownetab[u]] == c.core2clust[ownetab[v]] ==>
              startdate[u] + SumReal(c.blokcost, s.First(u), k + 1) <= startdate[v])
    {
      hide DatesOK, AllHeaps, BlokCounters, CblkCounters, Bounded, OwnerClustOK, OnCore;
      var v := s.bloktab[k].fcblknm;
      assert Contributes(s, u, v) && v in order;
      var b :| 0 <= b < |order| && order[b] == v;
      assert u in order[..b];
      assert u in order;
      StartsAfter(s, c, Plan(), u, k);
    }

    /** On several clusters, a task that starts has also received what comes from the others,
        sent and added; when its own cluster is that of the fan-in received last, provided that
        the fan-in that was the latest before that one was met comes no later than the date kept
        beside it, or than its own completion. */
    lemma ContributionsReceived(u: int, k: int) returns (f: seq<real>)
      requires LoopHead() && 0 <= u < |ownetab| && s.First(u) < k < s.End(u)
      requires var v := s.bloktab[k].fcblknm;
        && 0 <= v < |ownetab| && ownetab[u] >= 0 && ownetab[v] >= 0
        && ownetab[u] < |c.core2clust| && ownetab[v] < |c.core2clust|
        && !SingleCluster(c, v) && c.core2clust[ownetab[u]] != c.core2clust[ownetab[v]]
      ensures Sized(s, c, Plan()) && Gathered(s, c, Plan(), s.bloktab[k].fcblknm, f)
      ensures var v := s.bloktab[k].fcblknm;
        var lo, hi, here := Lo(s, c, v), Hi(s, c, v), FaninOf(s, c, v, ownetab[v]);
        var m := Latest(f, c.ftgtcost, lo, hi);
        && lo <= here < hi && 0 <= FaninOf(s, c, v, ownetab[u]) < |c.ftgtcost|
        && ((here == m ==> DateOf(f, c.ftgtcost, Latest(f, c.ftgtcost, lo, m))
                           <= Max(f[m], Second(f, c.ftgtcost, lo, hi))) ==>
              startdate[u] + SumReal(c.blokcost, s.First(u), k + 1) + c.ftgtcost[FaninOf(s, c, v, ownetab[u])]
              <= startdate[v])
    {
      hide DatesOK, AllHeaps, BlokCounters, CblkCounters, Bounded, OwnerClustOK, OnCore;
      ScheduleSized(s, c, Plan());
      f := StartsAfterArrivals(s, c, Plan(), u, k);
    }

    /** The simulation: at each turn the couple that can start the earliest is
        mapped, until no couple is found. */
    method Run() returns (turns: nat)
      requires Initial()
      modifies this
      ensures LoopHead() && turns == |order|
      ensures forall t, p :: Available(t, p) ==> Start(t, p) >= c.intmax
      ensures TotalWork(s, c, s.CblkNbr()) < c.intmax ==> AllMapped() && turns == s.CblkNbr()
    {
      hide DatesOK, HeapOK, BlokCounters, Bounded, OwnerClustOK, OnCore, DependencyOrder, NoRepeat;
      hide ScheduleOK, Timed, StartDate;
      Prepare();
      turns := 0;
      var i := 0;
      TurnsBounded();
      while i != -1
        invariant LoopHead() && turns == |order| <= s.CblkNbr()
        invariant i == -1 ==> forall t, p :: Available(t, p) ==> Start(t, p) >= c.intmax
        decreases i != -1, s.CblkNbr() - turns
      {
        var pr;
        i, pr := Turn();
        TurnsBounded();
        turns := if i != -1 then turns + 1 else turns;
      }
      if TotalWork(s, c, s.CblkNbr()) < c.intmax {
        NothingLeft();
        TurnsBounded();
      }
    }
  }
}