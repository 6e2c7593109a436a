/** Proportional mapping: the candidates of each node of the tree, from the cost
    of its subtree. Costs are exact. */
module PropMap {
  import opened PQueue
  import opened TreeSpec
  import opened ElimTree
  import opened CandTree
  import opened PropMapSpec
  import opened PropMapPlan
  import opened Simu

  class PropMapping {
    const etree: EliminTree
    const candtab: array<Cand>
    const nocrossproc: bool
    ghost const fath: Tree
    ghost const cost: seq<real>
    ghost var plan: Plan

    constructor (etree: EliminTree, candtab: array<Cand>, nocrossproc: bool, ghost fath: Tree, ghost cost: seq<real>)
      ensures this.etree == etree && this.candtab == candtab && this.nocrossproc == nocrossproc
      ensures this.fath == fath && this.cost == cost && |plan.given| == |plan.popped| == |fath| + 1
    {
      this.etree, this.candtab, this.nocrossproc := etree, candtab, nocrossproc;
      this.fath, this.cost := fath, cost;
      plan := Plan(seq(|fath| + 1, _ => []), seq(|fath| + 1, _ => []));
    }

    ghost predicate Static()
      reads etree.nodetab, etree.sonstab, `plan
    {
      && etree.Holds(fath) && Costed(etree, fath, cost) && candtab.Length == etree.nodenbr + 1
      && |plan.given| == |plan.popped| == |fath| + 1
    }

    /** The whole subtree gets [fcandnum, lcandnum]. */
    method SubtreeOn1P(rootnum: int, fcandnum: int, lcandnum: int)
      requires Static() && -1 <= rootnum < etree.nodenbr && fcandnum <= lcandnum
      modifies candtab
      ensures MappedUnder(fath, candtab[..], rootnum, fcandnum, lcandnum)
      ensures forall k :: 0 <= k < candtab.Length ==> (candtab[k] ==
        if Under(fath, k - 1, rootnum) then old(candtab[k]).(fcandnum := fcandnum, lcandnum := lcandnum)
            else old(candtab[k]))
      decreases Rank(etree.nodenbr, rootnum)
    {
      hide AllSons, Sons, Before, UnderSons, SonListed, CostAt, MappedUnder;
      candtab[rootnum + 1] := candtab[rootnum + 1].(fcandnum := fcandnum, lcandnum := lcandnum);
      var sonsnbr := etree.nodetab[rootnum + 1].sonsnbr;
      VisitNone(fath, rootnum);
      for i := 0 to sonsnbr
        invariant forall k :: 0 <= k < candtab.Length ==> (candtab[k] ==
          if k - 1 == rootnum || UnderSons(fath, k - 1, rootnum, i)
          then old(candtab[k]).(fcandnum := fcandnum, lcandnum := lcandnum) else old(candtab[k]))
      {
        var son := etree.SonI(fath, rootnum, i);
        VisitSon(fath, rootnum, i);
        SubtreeOn1P(son, fcandnum, lcandnum);
      }
      VisitDone(fath, rootnum);
      UniformIsMapped(fath, candtab[..], rootnum, fcandnum, lcandnum);
    }

    /** Son `i` of `rootnum` goes to the single candidate `cand`. */
    method MapOn1P(rootnum: int, i: int, cand: int, ghost was: seq<Cand>, ghost todo: seq<bool>, ghost f: int,
            ghost l: int)
      requires Static() && Progress(fath, was, candtab[..], rootnum, todo, f, l)
      requires 0 <= i < |todo| && f <= cand <= l
      modifies candtab
      ensures Progress(fath, was, candtab[..], rootnum, todo[i := false], f, l)
      ensures Touched(fath, old(candtab[..]), candtab[..], Son(fath, rootnum, i))
      ensures Shares(fath, cost, nocrossproc, candtab[..], plan, Son(fath, rootnum, i))
      ensures StepOf(fath, cost, candtab[..], plan, rootnum, i)
           == Step(SubCost(fath, cost, Son(fath, rootnum, i)), cand - f, cand - f, [])
    {
      hide AllSons, Sons, Before, SonListed, CostAt, MappedUnder, Under, Level, SubCost, Shares;
      ghost var c := candtab[..];
      var son := etree.SonI(fath, rootnum, i);
      assert son == Son(fath, rootnum, i);
      SubtreeOn1P(son, cand, cand);
      UnderSelf(fath, son);
      SonProgress(fath, was, c, candtab[..], rootnum, todo, i, f, l);
      OneCandidateShares(fath, cost, nocrossproc, candtab[..], plan, son);
    }

    /** Queue of the sons, largest subtree first. */
    method QueueSons(rootnum: int) returns (q: Heap, ghost todo: seq<bool>)
      requires Static() && -1 <= rootnum < etree.nodenbr
      ensures |todo| == |AllSons(fath, rootnum)| && (forall a :: 0 <= a < |todo| ==> todo[a])
      ensures TodoOK(fath, cost, rootnum, todo)
      ensures Ordered(q) && multiset(q) == SonItems(fath, cost, rootnum, todo, |todo|)
    {
      hide AllSons, Sons, Before, SonListed, Ordered, SubCost, SonItems, Trunc;
      var sonsnbr := etree.nodetab[rootnum + 1].sonsnbr;
      todo := seq(sonsnbr, _ => true);
      q := [];
      OrderedEmpty();
      NoItems(fath, cost, rootnum, todo);
      for i := 0 to sonsnbr
        invariant Ordered(q) && multiset(q) == SonItems(fath, cost, rootnum, todo, i)
      {
        var son := etree.SonI(fath, rootnum, i);
        assert son == Son(fath, rootnum, i) && CostAt(etree, fath, cost, son + 1);
        ItemsMore(fath, cost, rootnum, todo, i);
        var cumul := -etree.nodetab[son + 1].subcost;
        var soncost := -etree.nodetab[son + 1].ndecost;
        q := Push2(q, i, cumul, Trunc(soncost) as real);
      }
    }

    /** Take the son with the largest subtree. */
    method PopSon(rootnum: int, q: Heap, ghost todo: seq<bool>)
        returns (i: int, subcost: real, rest: Heap, ghost left: seq<bool>)
      requires TodoOK(fath, cost, rootnum, todo) && |q| > 0
      requires Ordered(q) && multiset(q) == SonItems(fath, cost, rootnum, todo, |todo|)
      ensures 0 <= i < |todo| && todo[i] && left == todo[i := false]
      ensures subcost == SubCost(fath, cost, Son(fath, rootnum, i))
      ensures forall a :: 0 <= a < |todo| && todo[a] ==> TakenBefore(fath, cost, rootnum, i, a)
      ensures |rest| == |q| - 1
      ensures Ordered(rest) && multiset(rest) == SonItems(fath, cost, rootnum, left, |left|)
      ensures SonsLeft(fath, cost, rootnum, todo, |todo|) == SonsLeft(fath, cost, rootnum, left, |left|) + subcost
    {
      hide AllSons, Ordered, SubCost, SonItems, SonsLeft;
      var head, tail := Pop(q);
      assert head in multiset(q);
      ItemIsSon(fath, cost, rootnum, todo, |todo|, head);
      i, rest := head.elt, tail;
      subcost := -head.key1;
      left := todo[i := false];
      SonTaken(fath, cost, rootnum, todo, |todo|, i);
      assert multiset(rest) == multiset(q) - multiset{head} == SonItems(fath, cost, rootnum, left, |left|);
      forall a | 0 <= a < |todo| && todo[a]
        ensures TakenBefore(fath, cost, rootnum, i, a)
      {
        SonTaken(fath, cost, rootnum, todo, |todo|, a);
        assert SonItem(fath, cost, rootnum, a) in multiset(q);
        var k :| 0 <= k < |q| && q[k] == SonItem(fath, cost, rootnum, a);
        HeadIsLeast(q, k);
      }
    }

    /** Son `i`, whose work is more than the first open candidate can take, goes onto as
        many candidates as its work is worth. */
    method MapOntoSeveral(rootnum: int, fcandnum: int, lcandnum: int, costRemain: array<real>, fcand: int, candnbr: int,
                          epsilon: real, i: int, subcost: real, ghost todo: seq<bool>, ghost was: seq<Cand>,
                              ghost aspt: real, ghost m: real)
        returns (lcand: int)
      requires Static() && costRemain.Length == lcandnum - fcandnum + 1 && epsilon >= 0.0 && aspt > 0.0
      requires Progress(fath, was, candtab[..], rootnum, todo, fcandnum, lcandnum)
      requires Window(costRemain[..], fcand, candnbr, aspt, m)
      requires 0 <= i < |todo| == |AllSons(fath, rootnum)| && subcost == SubCost(fath, cost, Son(fath, rootnum, i))
      modifies candtab, costRemain, `plan
      ensures fcand <= lcand < candnbr
      ensures SumReal(costRemain[..], 0, costRemain.Length)
          == old(SumReal(costRemain[..], 0, costRemain.Length)) - subcost
      ensures Progress(fath, was, candtab[..], rootnum, todo[i := false], fcandnum, lcandnum)
      ensures Window(costRemain[..], lcand, candnbr, aspt, m)
      ensures Static() && Touched(fath, old(candtab[..]), candtab[..], Son(fath, rootnum, i))
      ensures PlanTouched(fath, old(plan), plan, Son(fath, rootnum, i))
      ensures Shares(fath, cost, nocrossproc, candtab[..], plan, Son(fath, rootnum, i))
      ensures var st := StepOf(fath, cost, candtab[..], plan, rootnum, i);
        && st.cost == subcost && st.last == lcand
        && OnSeveral(nocrossproc, old(costRemain[..]), st, fcand, candnbr, epsilon)
        && forall p :: 0 <= p < costRemain.Length ==> costRemain[p] == old(costRemain[p]) - Part(st, p)
      decreases Rank(etree.nodenbr, rootnum), 0, 0
    {
      hide AllSons, Sons, Before, SonListed, CostAt, Progress, MappedUnder, Touched, Under, Level, SubCost, SonMapped;
      hide Shares, PlanTouched, OnSeveral, Hump, Moved, Window, Part, StepOf, SumReal;
      ghost var c, cands := costRemain[..], candtab[..];
      var sub;
      ghost var subm;
      lcand, sub, subm := HandOut(costRemain, nocrossproc, fcand, candnbr, subcost, epsilon, aspt, m);
      ghost var given := sub[..];
      var son := etree.SonI(fath, rootnum, i);
      assert son == Son(fath, rootnum, i);
      Subtree(son, fcandnum + fcand, fcandnum + lcand, sub, subm);
      MappedIsSon(fath, candtab[..], son, fcandnum + fcand, fcandnum + lcand, fcandnum, lcandnum);
      SonProgress(fath, was, cands, candtab[..], rootnum, todo, i, fcandnum, lcandnum);
      SonStep(fath, cost, was, candtab[..], plan, rootnum, todo[i := false], i, fcandnum, lcandnum, fcand, lcand,
              given);
    }

    /** Map the son with the largest subtree: onto the first open candidate, which ends
        the stage, or onto several. */
    method MapLargest(rootnum: int, fcandnum: int, lcandnum: int, costRemain: array<real>, fcand0: int, candnbr: int,
                      epsilon: real, q0: Heap, ghost todo0: seq<bool>, ghost was: seq<Cand>, ghost aspt: real,
                          ghost m: real, ghost wasPlan: Plan, ghost tr0: Trace)
        returns (stop: bool, fcand: int, q: Heap, ghost todo: seq<bool>, ghost tr: Trace)
      requires Static() && costRemain.Length == lcandnum - fcandnum + 1 && epsilon >= 0.0 && |q0| > 0
      requires Balanced(fath, cost, rootnum, todo0, q0, costRemain[..])
      requires Progress(fath, was, candtab[..], rootnum, todo0, fcandnum, lcandnum)
      requires Window(costRemain[..], fcand0, candnbr, aspt, m)
      requires forall a :: 0 <= a < |todo0| ==> SubCost(fath, cost, Son(fath, rootnum, a)) <= aspt
      requires Traced(fath, cost, candtab[..], wasPlan, plan, rootnum, todo0, costRemain[..], tr0)
      requires Stage(tr0, fcand0, candnbr, epsilon) && tr0.n.nocrossproc == nocrossproc
      modifies candtab, costRemain, `plan
      ensures |q| == |q0| - 1 && |todo| == |todo0| && Static()
      ensures Balanced(fath, cost, rootnum, todo, q, costRemain[..])
      ensures Progress(fath, was, candtab[..], rootnum, todo, fcandnum, lcandnum)
      ensures !stop ==> Window(costRemain[..], fcand, candnbr, aspt, m)
      ensures Traced(fath, cost, candtab[..], wasPlan, plan, rootnum, todo, costRemain[..], tr)
      ensures Stage(tr, if stop then -1 else fcand, candnbr, epsilon) && tr.n == tr0.n
      decreases Rank(etree.nodenbr, rootnum), 1
    {
      hide AllSons, Sons, Before, SonListed, CostAt, Progress, Under, Level, Ordered, SonItems, SonsLeft, SubCost, Hump;
      hide Traced, Stage, Shares, Touched, PlanTouched, Part, OnSeveral, StepOf, Rule, OpenAfter, Window, Fits, SumReal;
      var i, subcost, rest, left := PopSon(rootnum, q0, todo0);
      q, todo := rest, left;
      ghost var c, cands, was0 := costRemain[..], candtab[..], plan;
      WindowOpen(c, fcand0, candnbr, aspt, m);
      FitsIs(nocrossproc, subcost, costRemain[fcand0], epsilon);
      if subcost <= costRemain[fcand0] || (nocrossproc && subcost <= costRemain[fcand0] + epsilon) {
        stop, fcand := true, fcand0;
        MapOnOpen(rootnum, fcandnum, lcandnum, costRemain, fcand, subcost, i, was, todo0);
        PlanKept(fath, plan, Son(fath, rootnum, i));
      } else {
        stop, fcand := MapBeyondOpen(rootnum, fcandnum, lcandnum, costRemain, fcand0, candnbr, epsilon, i, subcost,
                                     todo0, was, aspt, m);
      }
      ghost var st := StepOf(fath, cost, candtab[..], plan, rootnum, i);
      tr := Grown(tr0, i, st);
      RuleFollowed(nocrossproc, c, costRemain[..], fcand0, candnbr, epsilon, subcost, st, stop, fcand);
      TraceGrows(fath, cost, cands, candtab[..], wasPlan, was0, plan, rootnum, todo0, i, c, costRemain[..], tr0, fcand0,
                 candnbr, epsilon);
    }

    /** Son `i` takes what it needs of candidate `fcand` alone. */
    method MapOnOpen(rootnum: int, fcandnum: int, lcandnum: int, costRemain: array<real>, fcand: int, subcost: real,
                     i: int, ghost was: seq<Cand>, ghost todo: seq<bool>)
      requires Static() && costRemain.Length == lcandnum - fcandnum + 1 && 0 <= fcand < costRemain.Length
      requires Progress(fath, was, candtab[..], rootnum, todo, fcandnum, lcandnum)
      requires 0 <= i < |todo| == |AllSons(fath, rootnum)| && subcost == SubCost(fath, cost, Son(fath, rootnum, i))
      modifies candtab, costRemain
      ensures costRemain[..] == old(costRemain[..])[fcand := old(costRemain[fcand]) - subcost]
      ensures SumReal(costRemain[..], 0, costRemain.Length)
          == old(SumReal(costRemain[..], 0, costRemain.Length)) - subcost
      ensures Progress(fath, was, candtab[..], rootnum, todo[i := false], fcandnum, lcandnum)
      ensures Touched(fath, old(candtab[..]), candtab[..], Son(fath, rootnum, i))
      ensures Shares(fath, cost, nocrossproc, candtab[..], plan, Son(fath, rootnum, i))
      ensures StepOf(fath, cost, candtab[..], plan, rootnum, i) == Step(subcost, fcand, fcand, [])
      ensures forall p :: 0 <= p < costRemain.Length ==>
        costRemain[p] == old(costRemain[p]) - Part(StepOf(fath, cost, candtab[..], plan, rootnum, i), p)
    {
      hide AllSons, Progress, Under, Level, SubCost, Shares, Touched, StepOf;
      ghost var c := costRemain[..];
      costRemain[fcand] := costRemain[fcand] - subcost;
      SumWindow(c, costRemain[..], fcand, fcand + 1);
      MapOn1P(rootnum, i, fcandnum + fcand, was, todo, fcandnum, lcandnum);
    }

    /** Son `i` does not fit on the first open candidate: it goes onto several from that one, or
        from the next when it has too little left; then the open candidate moves on. */
    method MapBeyondOpen(rootnum: int, fcandnum: int, lcandnum: int, costRemain: array<real>, fcand0: int, candnbr: int,
                         epsilon: real, i: int, subcost: real, ghost todo0: seq<bool>, ghost was: seq<Cand>,
                         ghost aspt: real, ghost m: real)
        returns (stop: bool, fcand: int)
      requires Static() && costRemain.Length == lcandnum - fcandnum + 1 && epsilon >= 0.0
      requires Progress(fath, was, candtab[..], rootnum, todo0, fcandnum, lcandnum)
      requires Window(costRemain[..], fcand0, candnbr, aspt, m)
      requires 0 <= i < |todo0| == |AllSons(fath, rootnum)| && subcost == SubCost(fath, cost, Son(fath, rootnum, i))
      requires costRemain[fcand0] < subcost <= aspt
      requires !Fits(nocrossproc, subcost, costRemain[fcand0], epsilon)
      modifies candtab, costRemain, `plan
      ensures SumReal(costRemain[..], 0, costRemain.Length)
          == old(SumReal(costRemain[..], 0, costRemain.Length)) - subcost
      ensures Progress(fath, was, candtab[..], rootnum, todo0[i := false], fcandnum, lcandnum)
      ensures !stop ==> Window(costRemain[..], fcand, candnbr, aspt, m)
      ensures Static() && Touched(fath, old(candtab[..]), candtab[..], Son(fath, rootnum, i))
      ensures PlanTouched(fath, old(plan), plan, Son(fath, rootnum, i))
      ensures Shares(fath, cost, nocrossproc, candtab[..], plan, Son(fath, rootnum, i))
      ensures var st := StepOf(fath, cost, candtab[..], plan, rootnum, i);
        var u := if fcand0 < candnbr - 1 && old(costRemain[fcand0]) <= epsilon then fcand0 + 1 else fcand0;
        && st.cost == subcost && OnSeveral(nocrossproc, old(costRemain[..]), st, u, candnbr, epsilon)
        && (forall p :: 0 <= p < costRemain.Length ==> costRemain[p] == old(costRemain[p]) - Part(st, p))
        && OpenAfter(nocrossproc, fcand0, candnbr, epsilon, st, old(costRemain[..]), costRemain[..])
           == (if stop then -1 else fcand)
      decreases Rank(etree.nodenbr, rootnum), 0, 1
    {
      hide AllSons, Sons, Before, SonListed, CostAt, Progress, Under, Level, SubCost, Hump;
      hide Shares, Touched, PlanTouched, Part, OnSeveral, StepOf, Fits;
      stop, fcand := true, fcand0;
      assert aspt > 0.0;
      if fcand < candnbr - 1 && costRemain[fcand] <= epsilon {
        WindowNext(costRemain[..], fcand, candnbr, aspt, m);
        fcand := fcand + 1;
      }
      var lcand := MapOntoSeveral(rootnum, fcandnum, lcandnum, costRemain, fcand, candnbr, epsilon, i, subcost, todo0,
                                  was, aspt, m);
      if lcand < candnbr - 1 && (nocrossproc || costRemain[lcand] < epsilon) {
        WindowNext(costRemain[..], lcand, candnbr, aspt, m);
        fcand, stop := lcand + 1, false;
      } else if !nocrossproc {
        fcand, stop := lcand, false;
      }
    }

    /** Sons that need several candidates, from the largest down. */
    method FirstStage(rootnum: int, fcandnum: int, lcandnum: int, costRemain: array<real>, fcand0: int, candnbr: int,
                      epsilon: real, q0: Heap, ghost todo0: seq<bool>, ghost was: seq<Cand>, ghost aspt: real,
                          ghost m: real, ghost wasPlan: Plan, ghost tr0: Trace)
        returns (q: Heap, ghost todo: seq<bool>, ghost tr: Trace)
      requires Static() && costRemain.Length == lcandnum - fcandnum + 1 && epsilon >= 0.0
      requires Balanced(fath, cost, rootnum, todo0, q0, costRemain[..])
      requires Progress(fath, was, candtab[..], rootnum, todo0, fcandnum, lcandnum)
      requires Window(costRemain[..], fcand0, candnbr, aspt, m)
      requires forall a :: 0 <= a < |todo0| ==> SubCost(fath, cost, Son(fath, rootnum, a)) <= aspt
      requires Traced(fath, cost, candtab[..], wasPlan, plan, rootnum, todo0, costRemain[..], tr0)
      requires Stage(tr0, fcand0, candnbr, epsilon) && tr0.n.nocrossproc == nocrossproc
      modifies candtab, costRemain, `plan
      ensures |todo| == |todo0| && Static()
      ensures Balanced(fath, cost, rootnum, todo, q, costRemain[..])
      ensures Progress(fath, was, candtab[..], rootnum, todo, fcandnum, lcandnum)
      ensures Traced(fath, cost, candtab[..], wasPlan, plan, rootnum, todo, costRemain[..], tr) && tr.n == tr0.n
      ensures |q| > 0 ==> Stage(tr, -1, candnbr, epsilon)
      decreases Rank(etree.nodenbr, rootnum), 2
    {
      hide AllSons, Sons, Before, SonListed, CostAt, Progress, Traced, Stage;
      hide Under, Level, SonItems, SonsLeft, SubCost, Balanced, Window;
      var fcand, stop := fcand0, false;
      q, todo, tr := q0, todo0, tr0;
      while |q| > 0 && !stop
        invariant |todo| == |todo0| && Static()
        invariant Balanced(fath, cost, rootnum, todo, q, costRemain[..])
        invariant Progress(fath, was, candtab[..], rootnum, todo, fcandnum, lcandnum)
        invariant !stop ==> Window(costRemain[..], fcand, candnbr, aspt, m)
        invariant Traced(fath, cost, candtab[..], wasPlan, plan, rootnum, todo, costRemain[..], tr) && tr.n == tr0.n
        invariant Stage(tr, if stop then -1 else fcand, candnbr, epsilon)
        decreases |q|
      {
        stop, fcand, q, todo, tr := MapLargest(rootnum, fcandnum, lcandnum, costRemain, fcand, candnbr, epsilon, q,
            todo, was, aspt, m, wasPlan, tr);
      }
    }

    /** The largest of the sons left goes to the most idle candidate. */
    method MapToMostIdle(rootnum: int, fcandnum: int, lcandnum: int, costRemain: array<real>, candnbr: int,
                         q0: Heap, procs0: Heap, ghost todo0: seq<bool>, ghost was: seq<Cand>, ghost wasPlan: Plan,
                         ghost tr0: Trace, ghost epsilon: real)
        returns (q: Heap, procs: Heap, ghost todo: seq<bool>, ghost tr: Trace)
      requires Static() && costRemain.Length == lcandnum - fcandnum + 1 && 1 <= candnbr <= costRemain.Length && |q0| > 0
      requires Balanced(fath, cost, rootnum, todo0, q0, costRemain[..])
      requires Progress(fath, was, candtab[..], rootnum, todo0, fcandnum, lcandnum)
      requires Ordered(procs0) && multiset(procs0) == CandItems(costRemain[..], candnbr)
      requires Traced(fath, cost, candtab[..], wasPlan, plan, rootnum, todo0, costRemain[..], tr0)
      requires Stage(tr0, -1, candnbr, epsilon) && tr0.n.nocrossproc == nocrossproc
      modifies candtab, costRemain
      ensures |q| == |q0| - 1 && |todo| == |todo0|
      ensures Balanced(fath, cost, rootnum, todo, q, costRemain[..])
      ensures Progress(fath, was, candtab[..], rootnum, todo, fcandnum, lcandnum)
      ensures Ordered(procs) && multiset(procs) == CandItems(costRemain[..], candnbr)
      ensures Traced(fath, cost, candtab[..], wasPlan, plan, rootnum, todo, costRemain[..], tr)
      ensures Stage(tr, -1, candnbr, epsilon) && tr.n == tr0.n
    {
      hide AllSons, Sons, Before, SonListed, CostAt, Progress, Traced, Stage, Shares, Touched, Part, StepOf;
      hide Under, Level, SonItems, SonsLeft, SubCost, Ordered, CandItems, PlanTouched, Rule, OpenAfter, SumReal;
      ghost var c, cands := costRemain[..], candtab[..];
      var i, subcost, rest, left := PopSon(rootnum, q0, todo0);
      q, todo := rest, left;
      var fcand, tail := PopCand(procs0, costRemain, candnbr);
      MapOnOpen(rootnum, fcandnum, lcandnum, costRemain, fcand, subcost, i, was, todo0);
      ghost var st := StepOf(fath, cost, candtab[..], plan, rootnum, i);
      tr := Grown(tr0, i, st);
      PlanKept(fath, plan, Son(fath, rootnum, i));
      IdleRuleFollowed(nocrossproc, c, costRemain[..], candnbr, epsilon, st);
      TraceGrows(fath, cost, cands, candtab[..], wasPlan, plan, plan, rootnum, todo0, i, c, costRemain[..], tr0, -1,
                 candnbr, epsilon);
      procs := PushCand(tail, costRemain, candnbr, fcand, c);
    }

    /** Queue of the candidates, most idle first. */
    method QueueCands(costRemain: array<real>, candnbr: int) returns (procs: Heap)
      requires 1 <= candnbr <= costRemain.Length
      ensures Ordered(procs) && multiset(procs) == CandItems(costRemain[..], candnbr)
    {
      hide Ordered;
      procs := [];
      OrderedEmpty();
      for i := 0 to candnbr
        invariant Ordered(procs) && multiset(procs) == CandItems(costRemain[..], i)
      {
        procs := Push2(procs, i, -costRemain[i], 0.0);
      }
    }

    /** Sons on single candidates: the largest with the most idle, until none is left. */
    method SecondStage(rootnum: int, fcandnum: int, lcandnum: int, costRemain: array<real>, candnbr: int,
                       q0: Heap, ghost todo0: seq<bool>, ghost was: seq<Cand>, ghost wasPlan: Plan, ghost tr0: Trace,
                       ghost epsilon: real)
        returns (ghost todo: seq<bool>, ghost tr: Trace)
      requires Static() && costRemain.Length == lcandnum - fcandnum + 1 && 1 <= candnbr <= costRemain.Length
      requires Balanced(fath, cost, rootnum, todo0, q0, costRemain[..])
      requires Progress(fath, was, candtab[..], rootnum, todo0, fcandnum, lcandnum)
      requires Traced(fath, cost, candtab[..], wasPlan, plan, rootnum, todo0, costRemain[..], tr0)
      requires Stage(tr0, -1, candnbr, epsilon) && tr0.n.nocrossproc == nocrossproc
      modifies candtab, costRemain
      ensures |todo| == |todo0| && (forall a :: 0 <= a < |todo| ==> !todo[a])
      ensures Traced(fath, cost, candtab[..], wasPlan, plan, rootnum, todo, costRemain[..], tr) && tr.n == tr0.n
      ensures SumReal(costRemain[..], 0, costRemain.Length) == 0.0
      ensures Progress(fath, was, candtab[..], rootnum, todo, fcandnum, lcandnum)
    {
      hide AllSons, Sons, Before, SonListed, CostAt, Progress, Under, Level, SonItems, SonsLeft, SubCost, Ordered;
      hide Traced, Stage;
      var q := q0;
      todo, tr := todo0, tr0;
      var procs := QueueCands(costRemain, candnbr);
      while |q| > 0
        invariant |todo| == |todo0|
        invariant Balanced(fath, cost, rootnum, todo, q, costRemain[..])
        invariant Progress(fath, was, candtab[..], rootnum, todo, fcandnum, lcandnum)
        invariant Ordered(procs) && multiset(procs) == CandItems(costRemain[..], candnbr)
        invariant Traced(fath, cost, candtab[..], wasPlan, plan, rootnum, todo, costRemain[..], tr) && tr.n == tr0.n
        invariant Stage(tr, -1, candnbr, epsilon)
        decreases |q|
      {
        q, procs, todo, tr := MapToMostIdle(rootnum, fcandnum, lcandnum, costRemain, candnbr, q, procs, todo, was,
            wasPlan, tr, epsilon);
      }
      NoSonLeft(fath, cost, rootnum, todo, |todo|);
    }

    /** Every candidate pays its share of the node; the overloaded ends step aside. */
    method OpenWindow(rootnum: int, costRemain: array<real>, ghost m: real)
        returns (fcand: int, candnbr: int, epsilon: real, ghost aspt: real, ghost left: real)
      requires Static() && -1 <= rootnum < etree.nodenbr && costRemain.Length >= 2
      requires SumReal(costRemain[..], 0, costRemain.Length) == SubCost(fath, cost, rootnum)
      requires Hump(costRemain[..], 0, costRemain.Length, m)
      modifies costRemain
      ensures aspt == SonsCost(fath, cost, rootnum, |AllSons(fath, rootnum)|)
      ensures SumReal(costRemain[..], 0, costRemain.Length) == aspt
      ensures Window(costRemain[..], fcand, candnbr, aspt, left) && epsilon >= 0.0
      ensures costRemain[..] == Idle(Sharing(nocrossproc, NodeCost(cost, rootnum), old(costRemain[..])), [], 0)
      ensures fcand == FirstIdle(costRemain[..]) && candnbr == EndIdle(costRemain[..])
      ensures epsilon == Epsilon(costRemain[..])
    {
      hide AllSons, Sons, Before, SonListed, SubCost, SonsCost, Hump, Window, Level, Under;
      candnbr := costRemain.Length;
      ghost var entry := costRemain[..];
      assert CostAt(etree, fath, cost, rootnum + 1);
      var isocost := Share(etree.nodetab[rootnum + 1].ndecost, candnbr);
      TakeShare(costRemain, isocost);
      ghost var c := costRemain[..];
      var asptcost := etree.nodetab[rootnum + 1].subcost - etree.nodetab[rootnum + 1].ndecost;
      SharePaid(entry, c, m, isocost, etree.nodetab[rootnum + 1].ndecost);
      SubCostSplit(fath, cost, rootnum);
      aspt, left := asptcost, m - isocost;
      WindowOpens(c, aspt, left);
      fcand := if costRemain[0] <= 0.0 then 1 else 0;
      if costRemain[candnbr - 1] <= 0.0 {
        candnbr := candnbr - 1;
      }
      assert fcand < candnbr || asptcost == 0.0;
      assert candnbr >= 1;
      var cumul := WindowWork(costRemain, fcand, candnbr);
      if cumul < asptcost {
        // the idle times would be rescaled here
        assert false;
      }
      epsilon := Share(CROSS_TOLERANCE * cumul, candnbr);
    }

    /** Share the work of the sons of `rootnum` among its candidates. */
    method MapSons(rootnum: int, fcandnum: int, lcandnum: int, costRemain: array<real>, ghost was: seq<Cand>,
            ghost m: real, ghost wasPlan: Plan)
      requires Static() && -1 <= rootnum < etree.nodenbr
      requires fcandnum < lcandnum && costRemain.Length == lcandnum - fcandnum + 1
      requires SumReal(costRemain[..], 0, costRemain.Length) == SubCost(fath, cost, rootnum)
      requires Hump(costRemain[..], 0, costRemain.Length, m)
      requires |was| == |fath| + 1
      requires candtab[..] == was[rootnum + 1 := was[rootnum + 1].(fcandnum := fcandnum, lcandnum := lcandnum)]
      requires |wasPlan.given| == |wasPlan.popped| == |fath| + 1
      requires plan == wasPlan.(given := wasPlan.given[rootnum + 1 := costRemain[..]])
      modifies candtab, costRemain, `plan
      ensures Static() && Touched(fath, was, candtab[..], rootnum)
      ensures MappedUnder(fath, candtab[..], rootnum, fcandnum, lcandnum)
      ensures SumReal(costRemain[..], 0, costRemain.Length) == 0.0
      ensures PlanTouched(fath, wasPlan, plan, rootnum) && plan.given[rootnum + 1] == old(costRemain[..])
      ensures Shares(fath, cost, nocrossproc, candtab[..], plan, rootnum)
      ensures Kept(fath, cost, nocrossproc, candtab[..], plan, rootnum, costRemain[..])
      decreases Rank(etree.nodenbr, rootnum), 3
    {
      hide AllSons, Sons, Before, SonListed, CostAt, Progress, MappedUnder, Touched;
      hide Under, Level, SonItems, SonsLeft, SubCost, SonsCost, Ordered, Hump, SumReal;
      hide Traced, Stage, Shares, PlanTouched, Kept, Idle, Epsilon;
      ghost var n := Sharing(nocrossproc, NodeCost(cost, rootnum), costRemain[..]);
      var fcand, candnbr, epsilon, aspt, left := OpenWindow(rootnum, costRemain, m);
      var q, todo := QueueSons(rootnum);
      AllSonsLeft(fath, cost, rootnum, todo, |todo|);
      NoneMapped(fath, was, candtab[..], rootnum, todo, fcandnum, lcandnum);
      ghost var tr := Trace(n, [], []);
      TraceStarts(fath, cost, candtab[..], wasPlan, plan, rootnum, todo, costRemain[..], n);
      StageStarts(n, costRemain[..], fcand, candnbr, epsilon);
      q, todo, tr := FirstStage(rootnum, fcandnum, lcandnum, costRemain, fcand, candnbr, epsilon, q, todo, was, aspt,
          left, wasPlan, tr);
      if |q| > 0 {
        todo, tr := SecondStage(rootnum, fcandnum, lcandnum, costRemain, candnbr, q, todo, was, wasPlan, tr, epsilon);
      } else {
        NoSonLeft(fath, cost, rootnum, todo, |todo|);
      }
      AllMapped(fath, was, candtab[..], rootnum, todo, fcandnum, lcandnum);
      ProgressRoot(fath, was, candtab[..], rootnum, todo, fcandnum, lcandnum);
      TraceEnds(fath, cost, candtab[..], wasPlan, plan, rootnum, todo, costRemain[..], tr);
      plan := plan.(popped := plan.popped[rootnum + 1 := tr.pop]);
    }

    /** Map the subtree of `rootnum` onto [fcandnum, lcandnum]. The idle times handed in
        sum to its cost; with several candidates and some son, nothing is left of them. Every
        node below with several candidates is shared among them by the rule. */
    method Subtree(rootnum: int, fcandnum: int, lcandnum: int, costRemain: array<real>, ghost m: real)
      requires Static() && -1 <= rootnum < etree.nodenbr
      requires fcandnum <= lcandnum && costRemain.Length == lcandnum - fcandnum + 1
      requires SumReal(costRemain[..], 0, costRemain.Length) == SubCost(fath, cost, rootnum)
      requires Hump(costRemain[..], 0, costRemain.Length, m)
      modifies candtab, costRemain, `plan
      ensures Static() && Touched(fath, old(candtab[..]), candtab[..], rootnum)
      ensures MappedUnder(fath, candtab[..], rootnum, fcandnum, lcandnum)
      ensures fcandnum < lcandnum && |AllSons(fath, rootnum)| > 0 ==>
        SumReal(costRemain[..], 0, costRemain.Length) == 0.0
      ensures PlanTouched(fath, old(plan), plan, rootnum) && plan.given[rootnum + 1] == old(costRemain[..])
      ensures Shares(fath, cost, nocrossproc, candtab[..], plan, rootnum)
      ensures fcandnum < lcandnum && |AllSons(fath, rootnum)| > 0 ==>
        Kept(fath, cost, nocrossproc, candtab[..], plan, rootnum, costRemain[..])
      decreases Rank(etree.nodenbr, rootnum), 4
    {
      hide AllSons, Sons, Before, SonListed, CostAt, Progress;
      hide MappedUnder, Under, Level, SonItems, SonsLeft, SubCost, Ordered, Shares, Kept, SumReal;
      ghost var was, wasPlan := candtab[..], plan;
      var candnbr := lcandnum - fcandnum + 1;
      plan := plan.(given := plan.given[rootnum + 1 := costRemain[..]]);
      GivenTouched(fath, wasPlan, plan, rootnum);
      if candnbr == 1 {
        SubtreeOn1P(rootnum, fcandnum, lcandnum);
        OneCandidateShares(fath, cost, nocrossproc, candtab[..], plan, rootnum);
        return;
      }
      candtab[rootnum + 1] := candtab[rootnum + 1].(fcandnum := fcandnum, lcandnum := lcandnum);
      if etree.nodetab[rootnum + 1].sonsnbr == 0 {
        NoneMapped(fath, was, candtab[..], rootnum, [], fcandnum, lcandnum);
        AllMapped(fath, was, candtab[..], rootnum, [], fcandnum, lcandnum);
        LeafShares(fath, cost, nocrossproc, candtab[..], plan, rootnum);
        return;
      }
      MapSons(rootnum, fcandnum, lcandnum, costRemain, was, m, wasPlan);
    }
  }

  // ----- sharing work among candidates -----

  /** Every candidate takes an equal share of the node's own cost. */
  method TakeShare(costRemain: array<real>, isocost: real)
    modifies costRemain
    ensures forall p :: 0 <= p < costRemain.Length ==> costRemain[p] == old(costRemain[p]) - isocost
  {
    for p := 0 to costRemain.Length
      invariant forall k :: 0 <= k < costRemain.Length ==>
        costRemain[k] == old(costRemain[k]) - (if k < p then isocost else 0.0)
    {
      costRemain[p] := costRemain[p] - isocost;
    }
  }

  lemma NoItems(fath: Tree, cost: seq<real>, r: int, todo: seq<bool>)
    requires TodoOK(fath, cost, r, todo)
    ensures SonItems(fath, cost, r, todo, 0) == multiset{}
  {
  }

  lemma ItemsMore(fath: Tree, cost: seq<real>, r: int, todo: seq<bool>, i: int)
    requires TodoOK(fath, cost, r, todo) && 0 <= i < |todo| && todo[i]
    ensures SonItems(fath, cost, r, todo, i + 1)
         == SonItems(fath, cost, r, todo, i)
            + multiset{Item(i, -SubCost(fath, cost, Son(fath, r, i)),
                            Trunc(-NodeCost(cost, Son(fath, r, i))) as real)}
  {
    hide SubCost, AllSons, Trunc;
  }

  /** Take a candidate of most idle time. */
  method PopCand(procs: Heap, costRemain: array<real>, candnbr: int) returns (fcand: int, tail: Heap)
    requires 1 <= candnbr <= costRemain.Length
    requires Ordered(procs) && multiset(procs) == CandItems(costRemain[..], candnbr)
    ensures 0 <= fcand < candnbr && forall p :: 0 <= p < candnbr ==> costRemain[p] <= costRemain[fcand]
    ensures Ordered(tail)
    ensures multiset(tail) + multiset{CandItem(costRemain[..], fcand)} == CandItems(costRemain[..], candnbr)
  {
    hide Ordered, CandItems;
    HeadIsMostIdle(procs, costRemain[..], candnbr);
    var head;
    head, tail := Pop(procs);
    assert head in multiset(procs);
    ItemIsCand(costRemain[..], candnbr, head);
    fcand := head.elt;
  }

  /** Put candidate `fcand` back with the idle time it has left. */
  method PushCand(tail: Heap, costRemain: array<real>, candnbr: int, fcand: int, ghost c: seq<real>)
      returns (procs: Heap)
    requires 0 <= fcand < candnbr <= costRemain.Length == |c|
    requires forall p :: 0 <= p < candnbr && p != fcand ==> costRemain[p] == c[p]
    requires Ordered(tail) && multiset(tail) + multiset{CandItem(c, fcand)} == CandItems(c, candnbr)
    ensures Ordered(procs) && multiset(procs) == CandItems(costRemain[..], candnbr)
  {
    hide Ordered, CandItems;
    procs := Push2(tail, fcand, -costRemain[fcand], 0.0);
    CandMoved(c, costRemain[..], candnbr, fcand);
    EntryReplaced(multiset(tail), multiset(procs), CandItems(c, candnbr), CandItems(costRemain[..], candnbr),
                  CandItem(c, fcand), CandItem(costRemain[..], fcand));
  }

  lemma EntryReplaced(tail: multiset<Item>, procs: multiset<Item>, was: multiset<Item>, items: multiset<Item>,
          head: Item, x: Item)
    requires was == tail + multiset{head} && procs == tail + multiset{x}
    requires items + multiset{head} == was + multiset{x}
    ensures procs == items
  {
    assert items + multiset{head} == procs + multiset{head};
    assert items == (items + multiset{head}) - multiset{head};
    assert procs == (procs + multiset{head}) - multiset{head};
  }

  lemma WindowNext(c: seq<real>, fcand: int, candnbr: int, aspt: real, m: real)
    requires Window(c, fcand, candnbr, aspt, m) && fcand < candnbr - 1 && aspt > 0.0
    ensures Window(c, fcand + 1, candnbr, aspt, m)
  {
  }

  lemma WindowMoved(c: seq<real>, d: seq<real>, sub: seq<real>, fcand: int, lcand: int, candnbr: int, subcost: real,
                    aspt: real, m: real, subm: real)
    requires Window(c, fcand, candnbr, aspt, m) && aspt > 0.0 && lcand < candnbr
    requires Moved(c, d, sub, fcand, lcand, subcost, m, subm)
    ensures Window(d, lcand, candnbr, aspt, m)
  {
  }

  lemma SharePaid(c: seq<real>, d: seq<real>, m: real, iso: real, total: real)
    requires |c| == |d| && Hump(c, 0, |c|, m) && iso * |c| as real == total
    requires forall p :: 0 <= p < |c| ==> d[p] == c[p] - iso
    ensures Hump(d, 0, |d|, m - iso) && SumReal(d, 0, |d|) == SumReal(c, 0, |c|) - total
  {
    SumShift(c, d, 0, |c|, 0, -iso);
  }

  /** Idle time of the candidates kept. */
  method WindowWork(costRemain: array<real>, fcand: int, candnbr: int) returns (cumul: real)
    requires 0 <= fcand <= candnbr <= costRemain.Length
    ensures cumul == SumReal(costRemain[..], fcand, candnbr)
  {
    cumul := 0.0;
    for i := fcand to candnbr
      invariant cumul == SumReal(costRemain[..], fcand, i)
    {
      cumul := cumul + costRemain[i];
    }
  }

  lemma NeedsMoreIsWork(nocrossproc: bool, cumul: real, scandnbr: int, epsilon: real)
    requires epsilon >= 0.0 && scandnbr >= 0 && NeedsMore(nocrossproc, cumul, scandnbr, epsilon)
    ensures cumul > 0.0
  {
  }

  /** Candidates from `fcand` on that join in, as few as leave no more than one is worth. */
  method Participants(costRemain: array<real>, nocrossproc: bool, fcand: int, candnbr: int, subcost: real,
          epsilon: real)
      returns (lcand: int, scandnbr: int, cumul: real)
    requires 0 <= fcand < candnbr <= costRemain.Length && subcost >= 0.0 && epsilon >= 0.0
    requires forall p :: fcand < p < candnbr ==> costRemain[p] > 0.0
    ensures fcand <= lcand < candnbr && scandnbr == lcand - fcand + 1
    ensures cumul == subcost - SumReal(costRemain[..], fcand, lcand + 1)
    ensures cumul + costRemain[lcand] >= 0.0
    ensures forall v :: fcand <= v < lcand ==> MoreThan(nocrossproc, costRemain[..], subcost, fcand, v, epsilon)
    ensures lcand < candnbr - 1 ==> !MoreThan(nocrossproc, costRemain[..], subcost, fcand, lcand, epsilon)
  {
    lcand := fcand;
    scandnbr := 1;
    cumul := subcost - costRemain[fcand];
    assert SumReal(costRemain[..], fcand, fcand) == 0.0;
    while ((nocrossproc && cumul > scandnbr as real * epsilon) || (!nocrossproc && cumul > epsilon))
          && lcand < candnbr - 1
      invariant fcand <= lcand < candnbr && scandnbr == lcand - fcand + 1
      invariant cumul == subcost - SumReal(costRemain[..], fcand, lcand + 1)
      invariant cumul + costRemain[lcand] >= 0.0
      invariant forall v :: fcand <= v < lcand ==> MoreThan(nocrossproc, costRemain[..], subcost, fcand, v, epsilon)
    {
      NeedsMoreIsWork(nocrossproc, cumul, scandnbr, epsilon);
      assert MoreThan(nocrossproc, costRemain[..], subcost, fcand, lcand, epsilon);
      lcand := lcand + 1;
      scandnbr := scandnbr + 1;
      assert costRemain[lcand] > 0.0;
      cumul := cumul - costRemain[lcand];
    }
  }

  /** Work moved from idle times `c` to `d` and `sub`: `sub` gets `subcost`, `d` loses it. */
  ghost predicate Moved(c: seq<real>, d: seq<real>, sub: seq<real>, fcand: int, lcand: int, subcost: real, m: real,
          subm: real) {
    && 0 <= fcand <= lcand < |c| == |d| && |sub| == lcand - fcand + 1
    && SumReal(sub, 0, |sub|) == subcost
    && SumReal(d, 0, |d|) == SumReal(c, 0, |c|) - subcost
    && Hump(sub, 0, |sub|, subm)
    && (forall p :: 0 <= p < |c| && !(fcand <= p <= lcand) ==> d[p] == c[p])
    && d[lcand] <= m
  }

  /** What the candidates of a son no longer have is what they were handed. */
  ghost predicate TakenFrom(c: seq<real>, d: seq<real>, sub: seq<real>, fcand: int) {
    && 0 <= fcand && fcand + |sub| <= |c| == |d|
    && (forall p :: 0 <= p < |c| ==> d[p] == c[p] - (if fcand <= p < fcand + |sub| then sub[p - fcand] else 0.0))
  }

  /** What the candidates of a son no longer have is what it takes of them. */
  lemma TakenIsPart(c: seq<real>, d: seq<real>, sub: seq<real>, fcand: int, lcand: int, subcost: real)
    requires TakenFrom(c, d, sub, fcand) && fcand <= lcand && |sub| == lcand - fcand + 1
    requires SumReal(sub, 0, |sub|) == subcost
    ensures var st := Step(subcost, fcand, lcand, if fcand < lcand then sub else []);
      forall p :: 0 <= p < |c| ==> d[p] == c[p] - Part(st, p)
  {
    if fcand == lcand {
      assert SumReal(sub, 0, 0) == 0.0 && SumReal(sub, 0, 1) == sub[0];
    }
  }

  lemma MovedSum(c: seq<real>, d: seq<real>, sub: seq<real>, fcand: int, lcand: int, subcost: real, m: real, subm: real)
    requires Moved(c, d, sub, fcand, lcand, subcost, m, subm)
    ensures 0 <= fcand <= lcand < |c| == |d| && |sub| == lcand - fcand + 1 && SumReal(sub, 0, |sub|) == subcost
    ensures SumReal(d, 0, |d|) == SumReal(c, 0, |c|) - subcost && Hump(sub, 0, |sub|, subm)
  {
  }

  lemma WindowOpen(c: seq<real>, fcand: int, candnbr: int, aspt: real, m: real)
    requires Window(c, fcand, candnbr, aspt, m)
    ensures 0 <= fcand < |c| && 1 <= candnbr <= |c| && (aspt <= 0.0 ==> c[fcand] >= 0.0)
  {
  }

  lemma FitsIs(nocrossproc: bool, cost: real, left: real, epsilon: real)
    ensures Fits(nocrossproc, cost, left, epsilon) <==> cost <= left || (nocrossproc && cost <= left + epsilon)
  {
  }

  /** The largest son was mapped by the rule: alone on the open candidate, or beyond it. */
  lemma RuleFollowed(nocrossproc: bool, idle: seq<real>, after: seq<real>, open: int, candnbr: int, epsilon: real,
          subcost: real, st: Step, stop: bool, fcand: int)
    requires 0 <= open < |idle| && st.cost == subcost
    requires if Fits(nocrossproc, subcost, idle[open], epsilon) then st.first == st.last == open && stop
      else
        var u := if open < candnbr - 1 && idle[open] <= epsilon then open + 1 else open;
        && OnSeveral(nocrossproc, idle, st, u, candnbr, epsilon)
        && OpenAfter(nocrossproc, open, candnbr, epsilon, st, idle, after) == (if stop then -1 else fcand)
    ensures Rule(nocrossproc, candnbr, epsilon, idle, open, st)
    ensures OpenAfter(nocrossproc, open, candnbr, epsilon, st, idle, after) == (if stop then -1 else fcand)
  {
    hide OnSeveral, Fits;
  }

  lemma IdleRuleFollowed(nocrossproc: bool, idle: seq<real>, after: seq<real>, candnbr: int, epsilon: real, st: Step)
    requires MostIdle(idle, st, candnbr)
    ensures Rule(nocrossproc, candnbr, epsilon, idle, -1, st)
    ensures OpenAfter(nocrossproc, -1, candnbr, epsilon, st, idle, after) == -1
  {
  }

  /** Candidates from `fcand` on hand out what a son that costs `subcost` takes of them. */
  method HandOut(costRemain: array<real>, nocrossproc: bool, fcand: int, candnbr: int, subcost: real, epsilon: real,
                 ghost aspt: real, ghost m: real)
      returns (lcand: int, sub: array<real>, ghost subm: real)
    requires Window(costRemain[..], fcand, candnbr, aspt, m) && aspt > 0.0 && subcost >= 0.0 && epsilon >= 0.0
    modifies costRemain
    ensures fresh(sub) && 0 <= fcand <= lcand < candnbr <= costRemain.Length && sub.Length == lcand - fcand + 1
    ensures SumReal(sub[..], 0, sub.Length) == subcost && Hump(sub[..], 0, sub.Length, subm)
    ensures SumReal(costRemain[..], 0, costRemain.Length)
        == old(SumReal(costRemain[..], 0, costRemain.Length)) - subcost
    ensures Window(costRemain[..], lcand, candnbr, aspt, m)
    ensures var st := Step(subcost, fcand, lcand, if fcand < lcand then sub[..] else []);
      && OnSeveral(nocrossproc, old(costRemain[..]), st, fcand, candnbr, epsilon)
      && forall p :: 0 <= p < costRemain.Length ==> costRemain[p] == old(costRemain[p]) - Part(st, p)
  {
    hide Hump, Moved, TakenFrom, MoreThan, HandedOut, Part, SumReal;
    ghost var c := costRemain[..];
    WindowHump(c, fcand, candnbr, aspt, m);
    var scandnbr, cumul;
    lcand, scandnbr, cumul := Participants(costRemain, nocrossproc, fcand, candnbr, subcost, epsilon);
    HumpPart(c, fcand, lcand + 1, candnbr, m);
    sub, subm := ShareOut(costRemain, fcand, lcand, cumul, subcost, m);
    MovedSum(c, costRemain[..], sub[..], fcand, lcand, subcost, m, subm);
    WindowMoved(c, costRemain[..], sub[..], fcand, lcand, candnbr, subcost, aspt, m, subm);
    TakenIsPart(c, costRemain[..], sub[..], fcand, lcand, subcost);
  }

  lemma WindowHump(c: seq<real>, fcand: int, candnbr: int, aspt: real, m: real)
    requires Window(c, fcand, candnbr, aspt, m) && aspt > 0.0
    ensures 0 <= fcand < candnbr <= |c| && m > 0.0 && Hump(c, fcand, candnbr, m)
    ensures forall p :: fcand < p < candnbr ==> c[p] > 0.0
  {
  }

  lemma HumpPart(c: seq<real>, lo: int, mid: int, hi: int, m: real)
    requires 0 <= lo <= mid <= hi <= |c| && Hump(c, lo, hi, m)
    ensures Hump(c, lo, mid, m)
  {
  }

  /** Son `a` on candidates [fcand, lcand] of its father, as the tables tell. */
  lemma SonStep(fath: Tree, cost: seq<real>, was: seq<Cand>, c: seq<Cand>, plan: Plan, r: int, todo: seq<bool>, a: int,
          f: int, l: int, fcand: int, lcand: int, given: seq<real>)
    requires PlanOf(fath, cost, c, plan) && Progress(fath, was, c, r, todo, f, l) && 0 <= a < |AllSons(fath, r)|
    requires MappedUnder(fath, c, Son(fath, r, a), f + fcand, f + lcand) && plan.given[Son(fath, r, a) + 1] == given
    ensures StepOf(fath, cost, c, plan, r, a)
         == Step(SubCost(fath, cost, Son(fath, r, a)), fcand, lcand, if fcand < lcand then given else [])
  {
    hide AllSons, Under, SubCost;
  }

  lemma ProgressRoot(fath: Tree, was: seq<Cand>, c: seq<Cand>, r: int, todo: seq<bool>, f: int, l: int)
    requires Progress(fath, was, c, r, todo, f, l)
    ensures |c| == |fath| + 1 && -1 <= r < |fath| && c[r + 1].fcandnum == f && c[r + 1].lcandnum == l
  {
    hide AllSons, Under;
  }

  lemma StageStarts(n: Sharing, idle: seq<real>, fcand: int, candnbr: int, epsilon: real)
    requires |n.given| >= 2 && idle == Idle(n, [], 0)
    requires fcand == FirstIdle(idle) && candnbr == EndIdle(idle) && epsilon == Epsilon(idle)
    ensures Stage(Trace(n, [], []), fcand, candnbr, epsilon)
  {
    hide Idle, Epsilon;
  }

  lemma PlanKept(fath: Tree, plan: Plan, r: int)
    requires |plan.given| == |plan.popped| == |fath| + 1
    ensures PlanTouched(fath, plan, plan, r)
  {
  }

  lemma GivenTouched(fath: Tree, was: Plan, plan: Plan, r: int)
    requires |was.given| == |was.popped| == |fath| + 1 && -1 <= r < |fath|
    requires |plan.given| == |was.given| && plan == was.(given := was.given[r + 1 := plan.given[r + 1]])
    ensures PlanTouched(fath, was, plan, r)
  {
    UnderSelf(fath, r);
  }

  /** A node without sons has nothing to share. */
  lemma LeafShares(fath: Tree, cost: seq<real>, nocrossproc: bool, c: seq<Cand>, plan: Plan, r: int)
    requires PlanOf(fath, cost, c, plan) && -1 <= r < |fath| && |AllSons(fath, r)| == 0
    ensures Shares(fath, cost, nocrossproc, c, plan, r)
  {
    hide AllSons, Under;
    forall x | -1 <= x < |fath| && Under(fath, x, r)
      ensures SharedAt(fath, cost, nocrossproc, c, plan, x)
    {
      if x != r {
        var a := UnderSomeSon(fath, x, r);
      }
    }
  }

  lemma {:induction false} SumConst(d: seq<real>, lo: int, hi: int, v: real)
    requires 0 <= lo <= hi <= |d| && forall p :: lo <= p < hi ==> d[p] == v
    ensures SumReal(d, lo, hi) == (hi - lo) as real * v
    decreases hi - lo
  {
    if lo < hi {
      SumConst(d, lo, hi - 1, v);
    }
  }

  /** Sums that differ only in the window. */
  lemma SumWindow(c: seq<real>, d: seq<real>, lo: int, hi: int)
    requires 0 <= lo <= hi <= |c| == |d| && forall p :: 0 <= p < |c| && !(lo <= p < hi) ==> d[p] == c[p]
    ensures SumReal(d, 0, |d|) - SumReal(c, 0, |c|) == SumReal(d, lo, hi) - SumReal(c, lo, hi)
  {
    SumSplit(c, 0, hi, |c|);
    SumSplit(c, 0, lo, hi);
    SumSplit(d, 0, hi, |d|);
    SumSplit(d, 0, lo, hi);
    SumSame(c, d, 0, lo, 0);
    SumSame(c, d, hi, |c|, 0);
  }

  lemma MovedEqually(c: seq<real>, d: seq<real>, sub: seq<real>, fcand: int, lcand: int,
                     subcost: real, cumul: real, iso: real, m: real)
    requires 0 <= fcand <= lcand < |c| == |d| && |sub| == lcand - fcand + 1 && Hump(c, fcand, lcand + 1, m) && m >= 0.0
    requires cumul == subcost - SumReal(c, fcand, lcand + 1) && iso * |sub| as real == cumul && iso > 0.0
    requires forall p :: 0 <= p < |c| ==> d[p] == if fcand <= p <= lcand then -iso else c[p]
    requires forall p :: fcand <= p <= lcand ==> sub[p - fcand] == c[p] + iso
    ensures Moved(c, d, sub, fcand, lcand, subcost, m, m + iso)
  {
    SumWindow(c, d, fcand, lcand + 1);
    SumConst(d, fcand, lcand + 1, -iso);
    SumShift(c, sub, fcand, lcand + 1, -fcand, iso);
    forall k | 0 <= k < |sub|
      ensures sub[k] <= m + iso && (0 < k < |sub| - 1 ==> sub[k] == m + iso)
    {
      assert sub[(k + fcand) - fcand] == c[k + fcand] + iso;
    }
  }

  lemma MovedToLast(c: seq<real>, d: seq<real>, sub: seq<real>, fcand: int, lcand: int, subcost: real, cumul: real,
          m: real)
    requires 0 <= fcand <= lcand < |c| == |d| && |sub| == lcand - fcand + 1 && Hump(c, fcand, lcand + 1, m)
    requires cumul == subcost - SumReal(c, fcand, lcand + 1) && cumul <= 0.0 <= cumul + c[lcand]
    requires forall p :: 0 <= p < |c| ==>
      d[p] == if fcand <= p < lcand then 0.0 else if p == lcand then -cumul else c[p]
    requires forall p :: fcand <= p < lcand ==> sub[p - fcand] == c[p]
    requires sub[|sub| - 1] == c[lcand] + cumul
    ensures Moved(c, d, sub, fcand, lcand, subcost, m, m)
  {
    SumWindow(c, d, fcand, lcand + 1);
    SumConst(d, fcand, lcand, 0.0);
    SumSame(c, sub, fcand, lcand, -fcand);
    forall k | 0 <= k < |sub|
      ensures sub[k] <= m && (0 < k < |sub| - 1 ==> sub[k] == m)
    {
      assert k < |sub| - 1 ==> sub[(k + fcand) - fcand] == c[k + fcand];
    }
  }

  /** Work beyond the idle times: each candidate hands out its own and an equal part of it. */
  method ShareEqually(costRemain: array<real>, fcand: int, lcand: int, cumul: real, ghost subcost: real, ghost m: real)
      returns (sub: array<real>, ghost subm: real)
    requires 0 <= fcand <= lcand < costRemain.Length && Hump(costRemain[..], fcand, lcand + 1, m) && m >= 0.0
    requires cumul == subcost - SumReal(costRemain[..], fcand, lcand + 1) && cumul > 0.0
    modifies costRemain
    ensures fresh(sub)
    ensures Moved(old(costRemain[..]), costRemain[..], sub[..], fcand, lcand, subcost, m, subm)
    ensures TakenFrom(old(costRemain[..]), costRemain[..], sub[..], fcand)
    ensures HandedOut(old(costRemain[..]), Step(subcost, fcand, lcand, sub[..]))
  {
    hide Moved, Hump, SumReal;
    ghost var c := costRemain[..];
    var scandnbr := lcand - fcand + 1;
    sub := new real[scandnbr];
    var isocost := Share(cumul, scandnbr);
    for p := 0 to scandnbr
      invariant forall k :: 0 <= k < |c| ==> costRemain[k] == if fcand <= k < fcand + p then -isocost else c[k]
      invariant forall k :: fcand <= k < fcand + p ==> sub[k - fcand] == c[k] + isocost
    {
      sub[p] := costRemain[fcand + p] + isocost;
      costRemain[fcand + p] := -isocost;
    }
    subm := m + isocost;
    MovedEqually(c, costRemain[..], sub[..], fcand, lcand, subcost, cumul, isocost, m);
  }

  /** Work within the idle times: the first candidates hand out theirs, the last what is missing. */
  method ShareToLast(costRemain: array<real>, fcand: int, lcand: int, cumul: real, ghost subcost: real, ghost m: real)
      returns (sub: array<real>)
    requires 0 <= fcand <= lcand < costRemain.Length && Hump(costRemain[..], fcand, lcand + 1, m) && m >= 0.0
    requires cumul == subcost - SumReal(costRemain[..], fcand, lcand + 1) && cumul <= 0.0 <= cumul + costRemain[lcand]
    modifies costRemain
    ensures fresh(sub)
    ensures Moved(old(costRemain[..]), costRemain[..], sub[..], fcand, lcand, subcost, m, m)
    ensures TakenFrom(old(costRemain[..]), costRemain[..], sub[..], fcand)
    ensures HandedOut(old(costRemain[..]), Step(subcost, fcand, lcand, sub[..]))
  {
    hide Moved, Hump, SumReal;
    ghost var c := costRemain[..];
    var scandnbr := lcand - fcand + 1;
    sub := new real[scandnbr];
    for p := 0 to scandnbr - 1
      invariant forall k :: 0 <= k < |c| ==> costRemain[k] == if fcand <= k < fcand + p then 0.0 else c[k]
      invariant forall k :: fcand <= k < fcand + p ==> sub[k - fcand] == c[k]
    {
      sub[p] := costRemain[fcand + p];
      costRemain[fcand + p] := 0.0;
    }
    sub[scandnbr - 1] := costRemain[lcand] + cumul;
    costRemain[fcand + scandnbr - 1] := -cumul;
    MovedToLast(c, costRemain[..], sub[..], fcand, lcand, subcost, cumul, m);
  }

  /** The idle times handed to a son, and what its candidates keep for the next sons. */
  method ShareOut(costRemain: array<real>, fcand: int, lcand: int, cumul: real, ghost subcost: real, ghost m: real)
      returns (sub: array<real>, ghost subm: real)
    requires 0 <= fcand <= lcand < costRemain.Length && Hump(costRemain[..], fcand, lcand + 1, m) && m >= 0.0
    requires cumul == subcost - SumReal(costRemain[..], fcand, lcand + 1) && cumul + costRemain[lcand] >= 0.0
    modifies costRemain
    ensures fresh(sub)
    ensures Moved(old(costRemain[..]), costRemain[..], sub[..], fcand, lcand, subcost, m, subm)
    ensures TakenFrom(old(costRemain[..]), costRemain[..], sub[..], fcand)
    ensures HandedOut(old(costRemain[..]), Step(subcost, fcand, lcand, sub[..]))
  {
    hide Moved, Hump, SumReal, TakenFrom, HandedOut;
    if cumul > 0.0 {
      sub, subm := ShareEqually(costRemain, fcand, lcand, cumul, subcost, m);
    } else {
      sub := ShareToLast(costRemain, fcand, lcand, cumul, subcost, m);
      subm := m;
    }
  }

  lemma UnderSelf(fath: Tree, x: int)
    requires -1 <= x < |fath|
    ensures Under(fath, x, x)
  {
  }

  lemma OrderedEmpty()
    ensures Ordered([])
  {
  }

  /** Candidates of every node of the tree: everyone everywhere with `allcand`,
      otherwise shared in proportion to the work. */
  method MapTree(candtab: array<Cand>, etree: EliminTree, candnbr: int, nocrossproc: bool, allcand: bool,
                 ghost fath: Tree, ghost cost: seq<real>)
      returns (ghost plan: Plan)
    requires etree.Holds(fath) && Costed(etree, fath, cost) && candtab.Length == etree.nodenbr + 1 && candnbr >= 1
    modifies candtab
    ensures Touched(fath, old(candtab[..]), candtab[..], -1)
    ensures MappedUnder(fath, candtab[..], -1, 0, candnbr - 1)
    ensures allcand ==> forall k :: 0 <= k < candtab.Length ==>
        candtab[k].fcandnum == 0 && candtab[k].lcandnum == candnbr - 1
    ensures PlanOf(fath, cost, candtab[..], plan)
    ensures !allcand ==> Shares(fath, cost, nocrossproc, candtab[..], plan, -1)
    ensures !allcand ==> |plan.given[0]| == candnbr && forall p :: 0 <= p < candnbr ==>
      plan.given[0][p] == SubCost(fath, cost, -1) / candnbr as real
  {
    hide AllSons, Sons, Before, SonListed, MappedUnder, Under, Level, SubCost, Hump, Shares, SumReal;
    var pm := new PropMapping(etree, candtab, nocrossproc, fath, cost);
    if allcand {
      pm.SubtreeOn1P(-1, 0, candnbr - 1);
      forall x | -1 <= x < |fath| ensures Under(fath, x, -1) {
        AllUnderRoot(fath, x);
      }
      assert forall k {:trigger candtab[k]} :: 0 <= k < candtab.Length ==> Under(fath, k - 1, -1);
    } else {
      assert CostAt(etree, fath, cost, 0);
      var isocost := Share(etree.nodetab[0].subcost, candnbr);
      var costRemain := new real[candnbr](_ => isocost);
      EqualShares(costRemain[..], isocost);
      pm.Subtree(-1, 0, candnbr - 1, costRemain, isocost);
    }
    plan := pm.plan;
  }

  lemma EqualShares(c: seq<real>, iso: real)
    requires forall p :: 0 <= p < |c| ==> c[p] == iso
    ensures SumReal(c, 0, |c|) == iso * |c| as real && Hump(c, 0, |c|, iso)
  {
    SumConst(c, 0, |c|, iso);
  }
}
