/** How the work of a node is shared: what each candidate is given, what each son takes of it,
    and the rule that decides the candidates of each son. */
module PropMapPlan {
  import opened TreeSpec
  import opened CandTree
  import opened PropMapSpec
  import opened Simu
  import TaskOrder

  const CROSS_TOLERANCE := 0.1

  /** A son once mapped: its cost, its candidates counted from the first one of its father and,
      with several of them, the idle times they were handed for it. */
  datatype Step = Step(cost: real, first: int, last: int, given: seq<real>)

  /** What candidate `p` takes of a son: all of it alone, its part of it with others. */
  ghost function Part(st: Step, p: int): real {
    if !(st.first <= p <= st.last) then 0.0
    else if st.first == st.last then st.cost
    else if p - st.first < |st.given| then st.given[p - st.first]
    else 0.0
  }

  /** A node of cost `own` being shared among candidates handed idle times `given`. */
  datatype Sharing = Sharing(nocrossproc: bool, own: real, given: seq<real>)

  /** Idle times once the node itself is shared equally and the first `j` sons are mapped. */
  ghost function Idle(n: Sharing, steps: seq<Step>, j: int): (c: seq<real>)
    requires |n.given| > 0 && 0 <= j <= |steps|
    ensures |c| == |n.given|
    decreases j
  {
    if j == 0 then seq(|n.given|, p requires 0 <= p < |n.given| => n.given[p] - Share(n.own, |n.given|))
    else
      var before := Idle(n, steps, j - 1);
      seq(|n.given|, p requires 0 <= p < |n.given| => before[p] - Part(steps[j - 1], p))
  }

  /** Least part of a son worth an extra candidate. */
  ghost function Epsilon(c: seq<real>): real
    requires |c| >= 2
  {
    if FirstIdle(c) > EndIdle(c) then 0.0
    else Share(CROSS_TOLERANCE * SumReal(c, FirstIdle(c), EndIdle(c)), EndIdle(c))
  }

  ghost function At(c: seq<real>, p: int): real {
    if 0 <= p < |c| then c[p] else 0.0
  }

  /** A son small enough for one candidate that has `left` to give. */
  ghost predicate Fits(nocrossproc: bool, cost: real, left: real, epsilon: real) {
    cost <= left || (nocrossproc && cost <= left + epsilon)
  }

  /** Is more work left than an extra candidate is worth? */
  ghost predicate NeedsMore(nocrossproc: bool, cumul: real, scandnbr: int, epsilon: real) {
    if nocrossproc then cumul > scandnbr as real * epsilon else cumul > epsilon
  }

  /** The candidate open after a son that takes `idle` to `after`: the next one when the last
      that joined has too little left, or may not join twice; else that last one. */
  ghost function OpenAfter(nocrossproc: bool, open: int, candnbr: int, epsilon: real, st: Step, idle: seq<real>,
                           after: seq<real>): int {
    if open < 0 || Fits(nocrossproc, st.cost, At(idle, open), epsilon) then -1
    else if st.last < candnbr - 1 && (nocrossproc || At(after, st.last) < epsilon) then st.last + 1
    else if nocrossproc then -1
    else st.last
  }

  /** First candidate open to the next son once `j` are mapped, or -1 once a son took a single one. */
  ghost function Open(n: Sharing, steps: seq<Step>, j: int): int
    requires |n.given| >= 2 && 0 <= j <= |steps|
    decreases j
  {
    var c := Idle(n, steps, 0);
    if j == 0 then FirstIdle(c)
    else
      OpenAfter(n.nocrossproc, Open(n, steps, j - 1), EndIdle(c), Epsilon(c), steps[j - 1], Idle(n, steps, j - 1),
                Idle(n, steps, j))
  }

  /** Candidates from `u` on join in, as few as leave no more than one is worth. */
  ghost predicate OnSeveral(nocrossproc: bool, before: seq<real>, st: Step, u: int, end: int, epsilon: real) {
    && 0 <= st.first == u <= st.last < end <= |before|
    && (forall v :: u <= v < st.last ==> MoreThan(nocrossproc, before, st.cost, u, v, epsilon))
    && (st.last < end - 1 ==> !MoreThan(nocrossproc, before, st.cost, u, st.last, epsilon))
    && (u < st.last ==> HandedOut(before, st))
  }

  /** With candidates `u` to `v`, more work is left than one more is worth. */
  ghost predicate MoreThan(nocrossproc: bool, before: seq<real>, cost: real, u: int, v: int, epsilon: real)
    requires 0 <= u <= v < |before|
  {
    NeedsMore(nocrossproc, cost - SumReal(before, u, v + 1), v - u + 1, epsilon)
  }

  /** What the candidates of a son are handed: their idle time and an equal part of the work
      beyond it, or when the last has too much of it, that much less for the last. */
  ghost predicate HandedOut(before: seq<real>, st: Step)
    requires 0 <= st.first <= st.last < |before|
  {
    var width := st.last - st.first + 1;
    var cumul := st.cost - SumReal(before, st.first, st.last + 1);
    && |st.given| == width
    && (forall q :: 0 <= q < width ==>
          st.given[q] == before[st.first + q]
            + (if cumul > 0.0 then Share(cumul, width) else if q == width - 1 then cumul else 0.0))
  }

  /** How a son is mapped: on the most idle candidate once a son took a single one; on the open
      candidate when it fits there; else on several from the open one on, or from the next one
      when the open one has too little left. */
  ghost predicate Rule(nocrossproc: bool, end: int, epsilon: real, before: seq<real>, open: int, st: Step) {
    if open < 0 then MostIdle(before, st, end)
    else if Fits(nocrossproc, st.cost, At(before, open), epsilon) then st.first == st.last == open
    else
      var u := if open < end - 1 && At(before, open) <= epsilon then open + 1 else open;
      OnSeveral(nocrossproc, before, st, u, end, epsilon)
  }

  ghost predicate StepOK(n: Sharing, steps: seq<Step>, j: int)
    requires |n.given| >= 2 && 0 <= j < |steps|
  {
    var start := Idle(n, steps, 0);
    Rule(n.nocrossproc, EndIdle(start), Epsilon(start), Idle(n, steps, j), Open(n, steps, j), steps[j])
  }

  ghost predicate MostIdle(before: seq<real>, st: Step, end: int) {
    0 <= st.first == st.last < end <= |before| && forall q :: 0 <= q < end ==> before[q] <= before[st.first]
  }

  ghost predicate StepsOK(n: Sharing, steps: seq<Step>) {
    |n.given| >= 2 && forall j :: 0 <= j < |steps| ==> StepOK(n, steps, j)
  }

  /** Idle times handed to the candidates of each node shared, and its sons in mapping order. */
  datatype Plan = Plan(given: seq<seq<real>>, popped: seq<seq<int>>)

  ghost predicate PlanOf(fath: Tree, cost: seq<real>, c: seq<Cand>, plan: Plan) {
    Priced(fath, cost) && |c| == |plan.given| == |plan.popped| == |fath| + 1
  }

  /** Son `a` of `r` as the tables tell. */
  ghost function StepOf(fath: Tree, cost: seq<real>, c: seq<Cand>, plan: Plan, r: int, a: int): Step
    requires PlanOf(fath, cost, c, plan) && -1 <= r < |fath| && 0 <= a < |AllSons(fath, r)|
  {
    var y := Son(fath, r, a);
    Step(SubCost(fath, cost, y), c[y + 1].fcandnum - c[r + 1].fcandnum, c[y + 1].lcandnum - c[r + 1].fcandnum,
         if c[y + 1].fcandnum < c[y + 1].lcandnum then plan.given[y + 1] else [])
  }

  ghost predicate Linked(fath: Tree, cost: seq<real>, c: seq<Cand>, plan: Plan, r: int, pop: seq<int>, steps: seq<Step>)
    requires PlanOf(fath, cost, c, plan) && -1 <= r < |fath|
  {
    |steps| == |pop| && forall j :: 0 <= j < |pop| ==>
      0 <= pop[j] < |AllSons(fath, r)| && steps[j] == StepOf(fath, cost, c, plan, r, pop[j])
  }

  /** Son `a` is taken before son `b`: the larger subtree first; of two equal ones, the node of
      larger whole cost. */
  ghost predicate TakenBefore(fath: Tree, cost: seq<real>, r: int, a: int, b: int)
    requires Priced(fath, cost) && -1 <= r < |fath| && 0 <= a < |AllSons(fath, r)| && 0 <= b < |AllSons(fath, r)|
  {
    var x, y := Son(fath, r, a), Son(fath, r, b);
    || SubCost(fath, cost, y) < SubCost(fath, cost, x)
    || (SubCost(fath, cost, y) == SubCost(fath, cost, x) && cost[y].Floor <= cost[x].Floor)
  }

  /** Sons `pop` were taken, each once, largest subtree first. */
  ghost predicate LargestFirst(fath: Tree, cost: seq<real>, r: int, pop: seq<int>)
    requires Priced(fath, cost) && -1 <= r < |fath|
  {
    && (forall j :: 0 <= j < |pop| ==> 0 <= pop[j] < |AllSons(fath, r)|)
    && (forall i, j :: 0 <= i < j < |pop| ==> pop[i] != pop[j])
    && (forall i, j :: 0 <= i < j < |pop| ==> TakenBefore(fath, cost, r, pop[i], pop[j]))
  }

  /** Node `x` with several candidates was shared among them: all its sons in turn, from the
      idle times handed to it. */
  ghost predicate SharedAt(fath: Tree, cost: seq<real>, nocrossproc: bool, c: seq<Cand>, plan: Plan, x: int)
    requires PlanOf(fath, cost, c, plan) && -1 <= x < |fath|
  {
    c[x + 1].fcandnum < c[x + 1].lcandnum && |AllSons(fath, x)| > 0 ==>
      var n := Sharing(nocrossproc, NodeCost(cost, x), plan.given[x + 1]);
      && |n.given| == c[x + 1].lcandnum - c[x + 1].fcandnum + 1
      && SumReal(n.given, 0, |n.given|) == SubCost(fath, cost, x)
      && |plan.popped[x + 1]| == |AllSons(fath, x)| && LargestFirst(fath, cost, x, plan.popped[x + 1])
      && exists steps :: Linked(fath, cost, c, plan, x, plan.popped[x + 1], steps) && StepsOK(n, steps)
  }

  /** Every node under `r` was shared. */
  ghost predicate Shares(fath: Tree, cost: seq<real>, nocrossproc: bool, c: seq<Cand>, plan: Plan, r: int) {
    && PlanOf(fath, cost, c, plan) && -1 <= r < |fath|
    && forall x :: -1 <= x < |fath| && Under(fath, x, r) ==> SharedAt(fath, cost, nocrossproc, c, plan, x)
  }

  /** The plan moved only for nodes under `r`. */
  ghost predicate PlanTouched(fath: Tree, was: Plan, plan: Plan, r: int) {
    && |was.given| == |plan.given| == |was.popped| == |plan.popped| == |fath| + 1
    && forall x :: -1 <= x < |fath| && !Under(fath, x, r) ==>
      plan.given[x + 1] == was.given[x + 1] && plan.popped[x + 1] == was.popped[x + 1]
  }

  // ----- frames -----

  ghost predicate SameAt(c: seq<Cand>, d: seq<Cand>, plan: Plan, next: Plan, x: int)
    requires |c| == |d| == |plan.given| == |plan.popped| == |next.given| == |next.popped| && 0 <= x + 1 < |c|
  {
    && c[x + 1].fcandnum == d[x + 1].fcandnum && c[x + 1].lcandnum == d[x + 1].lcandnum
    && plan.given[x + 1] == next.given[x + 1] && plan.popped[x + 1] == next.popped[x + 1]
  }

  lemma SharedKept(fath: Tree, cost: seq<real>, nocrossproc: bool, c: seq<Cand>, d: seq<Cand>, plan: Plan, next: Plan,
          x: int)
    requires PlanOf(fath, cost, c, plan) && PlanOf(fath, cost, d, next) && -1 <= x < |fath|
    requires SharedAt(fath, cost, nocrossproc, c, plan, x) && SameAt(c, d, plan, next, x)
    requires forall a :: 0 <= a < |AllSons(fath, x)| ==> SameAt(c, d, plan, next, Son(fath, x, a))
    ensures SharedAt(fath, cost, nocrossproc, d, next, x)
  {
    hide SubCost, StepsOK, AllSons, LargestFirst;
    if c[x + 1].fcandnum < c[x + 1].lcandnum && |AllSons(fath, x)| > 0 {
      var n := Sharing(nocrossproc, NodeCost(cost, x), plan.given[x + 1]);
      var steps :| Linked(fath, cost, c, plan, x, plan.popped[x + 1], steps) && StepsOK(n, steps);
      forall j | 0 <= j < |steps|
        ensures steps[j] == StepOf(fath, cost, d, next, x, next.popped[x + 1][j])
      {
        assert SameAt(c, d, plan, next, Son(fath, x, plan.popped[x + 1][j]));
      }
      assert Linked(fath, cost, d, next, x, next.popped[x + 1], steps);
    }
  }

  lemma SharesKept(fath: Tree, cost: seq<real>, nocrossproc: bool, c: seq<Cand>, d: seq<Cand>, plan: Plan, next: Plan,
          r: int)
    requires Shares(fath, cost, nocrossproc, c, plan, r) && PlanOf(fath, cost, d, next)
    requires forall x :: -1 <= x < |fath| && Under(fath, x, r) ==> SameAt(c, d, plan, next, x)
    ensures Shares(fath, cost, nocrossproc, d, next, r)
  {
    hide SharedAt, AllSons, Under, SameAt;
    forall x | -1 <= x < |fath| && Under(fath, x, r)
      ensures SharedAt(fath, cost, nocrossproc, d, next, x)
    {
      forall a | 0 <= a < |AllSons(fath, x)|
        ensures SameAt(c, d, plan, next, Son(fath, x, a))
      {
        SonUnder(fath, x, r, a);
      }
      SharedKept(fath, cost, nocrossproc, c, d, plan, next, x);
    }
  }

  lemma SonUnder(fath: Tree, x: int, r: int, a: int)
    requires -1 <= x < |fath| && -1 <= r < |fath| && Under(fath, x, r) && 0 <= a < |AllSons(fath, x)|
    ensures Under(fath, Son(fath, x, a), r)
  {
    hide AllSons;
    var y := Son(fath, x, a);
    assert fath[y] == x;
  }

  /** A subtree on one candidate is not shared. */
  lemma OneCandidateShares(fath: Tree, cost: seq<real>, nocrossproc: bool, c: seq<Cand>, plan: Plan, r: int)
    requires PlanOf(fath, cost, c, plan) && -1 <= r < |fath|
    requires forall x :: -1 <= x < |fath| && Under(fath, x, r) ==> c[x + 1].fcandnum == c[x + 1].lcandnum
    ensures Shares(fath, cost, nocrossproc, c, plan, r)
  {
    hide AllSons, Under;
  }

  // ----- sharing one node, son after son -----

  /** The sons of `r` mapped so far. */
  datatype Trace = Trace(n: Sharing, pop: seq<int>, steps: seq<Step>)

  /** The sons taken are those not in `todo`, each before those left. */
  ghost predicate PopOK(fath: Tree, cost: seq<real>, r: int, todo: seq<bool>, pop: seq<int>)
    requires TodoOK(fath, cost, r, todo)
  {
    && LargestFirst(fath, cost, r, pop)
    && (forall a :: 0 <= a < |todo| ==> (!todo[a] <==> a in pop))
    && (forall i, a :: 0 <= i < |pop| && 0 <= a < |todo| && todo[a] ==> TakenBefore(fath, cost, r, pop[i], a))
  }

  /** The sons mapped so far follow the rule, leave the idle times `idle`, and are shared in turn. */
  ghost predicate Traced(fath: Tree, cost: seq<real>, c: seq<Cand>, was: Plan, plan: Plan, r: int, todo: seq<bool>,
                         idle: seq<real>, tr: Trace) {
    && PlanOf(fath, cost, c, plan) && TodoOK(fath, cost, r, todo) && PlanTouched(fath, was, plan, r)
    && tr.n.own == NodeCost(cost, r) && plan.given[r + 1] == tr.n.given && PopOK(fath, cost, r, todo, tr.pop)
    && Linked(fath, cost, c, plan, r, tr.pop, tr.steps) && StepsOK(tr.n, tr.steps)
    && idle == Idle(tr.n, tr.steps, |tr.steps|)
    && forall a :: 0 <= a < |todo| && !todo[a] ==> Shares(fath, cost, tr.n.nocrossproc, c, plan, Son(fath, r, a))
  }

  ghost function Grown(tr: Trace, a: int, st: Step): Trace {
    tr.(pop := tr.pop + [a], steps := tr.steps + [st])
  }

  /** The rule for a son looks at the sons before it only. */
  lemma {:induction false} IdlePrefix(n: Sharing, steps: seq<Step>, more: seq<Step>, j: int)
    requires |n.given| > 0 && 0 <= j <= |steps|
    ensures Idle(n, steps + more, j) == Idle(n, steps, j)
    decreases j
  {
    if j > 0 {
      IdlePrefix(n, steps, more, j - 1);
    }
  }

  lemma {:induction false} OpenPrefix(n: Sharing, steps: seq<Step>, more: seq<Step>, j: int)
    requires |n.given| >= 2 && 0 <= j <= |steps|
    ensures Open(n, steps + more, j) == Open(n, steps, j)
    decreases j
  {
    hide Idle, OpenAfter, EndIdle, Epsilon;
    IdlePrefix(n, steps, more, 0);
    if j > 0 {
      OpenPrefix(n, steps, more, j - 1);
      IdlePrefix(n, steps, more, j - 1);
      IdlePrefix(n, steps, more, j);
    }
  }

  lemma StepsGrow(n: Sharing, steps: seq<Step>, st: Step)
    requires StepsOK(n, steps)
    requires var start := Idle(n, steps, 0);
      Rule(n.nocrossproc, EndIdle(start), Epsilon(start), Idle(n, steps, |steps|), Open(n, steps, |steps|), st)
    ensures StepsOK(n, steps + [st])
  {
    hide Idle, Open, Rule, EndIdle, Epsilon;
    var more := steps + [st];
    IdlePrefix(n, steps, [st], 0);
    forall j | 0 <= j < |more|
      ensures StepOK(n, more, j)
    {
      IdlePrefix(n, steps, [st], j);
      OpenPrefix(n, steps, [st], j);
      assert j < |steps| ==> StepOK(n, steps, j);
    }
  }

  /** Idle times and open candidate after one more son. */
  lemma NextIdle(n: Sharing, steps: seq<Step>, st: Step)
    requires |n.given| >= 2
    ensures var c, before, after := Idle(n, steps, 0), Idle(n, steps, |steps|), Idle(n, steps + [st], |steps| + 1);
      && (forall p :: 0 <= p < |n.given| ==> after[p] == before[p] - Part(st, p))
      && Open(n, steps + [st], |steps| + 1)
         == OpenAfter(n.nocrossproc, Open(n, steps, |steps|), EndIdle(c), Epsilon(c), st, before, after)
  {
    hide Part, OpenAfter, EndIdle, Epsilon;
    IdlePrefix(n, steps, [st], |steps|);
    IdlePrefix(n, steps, [st], 0);
    OpenPrefix(n, steps, [st], |steps|);
  }

  lemma PopGrows(fath: Tree, cost: seq<real>, r: int, todo: seq<bool>, pop: seq<int>, a: int)
    requires TodoOK(fath, cost, r, todo) && PopOK(fath, cost, r, todo, pop) && 0 <= a < |todo| && todo[a]
    requires forall b :: 0 <= b < |todo| && todo[b] ==> TakenBefore(fath, cost, r, a, b)
    ensures PopOK(fath, cost, r, todo[a := false], pop + [a])
  {
    hide SubCost, AllSons;
  }

  /** Nothing but the subtree of son `a` moved: the sons mapped before are as they were. */
  lemma OthersShared(fath: Tree, cost: seq<real>, nocrossproc: bool, c: seq<Cand>, d: seq<Cand>, plan: Plan, next: Plan,
          r: int, a: int, b: int)
    requires PlanOf(fath, cost, c, plan) && PlanOf(fath, cost, d, next) && -1 <= r < |fath|
    requires 0 <= a < |AllSons(fath, r)| && 0 <= b < |AllSons(fath, r)| && a != b
    requires Touched(fath, c, d, Son(fath, r, a)) && PlanTouched(fath, plan, next, Son(fath, r, a))
    ensures SameAt(c, d, plan, next, Son(fath, r, b)) && SameAt(c, d, plan, next, r)
    ensures Shares(fath, cost, nocrossproc, c, plan, Son(fath, r, b)) ==>
      Shares(fath, cost, nocrossproc, d, next, Son(fath, r, b))
  {
    hide AllSons, Under, Shares;
    var y, z := Son(fath, r, a), Son(fath, r, b);
    forall x | -1 <= x < |fath| && Under(fath, x, z)
      ensures SameAt(c, d, plan, next, x)
    {
      NotUnderBoth(fath, r, a, b, x);
    }
    SonsDiffer(fath, r, a, b);
    if Shares(fath, cost, nocrossproc, c, plan, z) {
      SharesKept(fath, cost, nocrossproc, c, d, plan, next, z);
    }
  }

  lemma NotUnderBoth(fath: Tree, r: int, a: int, b: int, x: int)
    requires -1 <= r < |fath| && 0 <= a < |AllSons(fath, r)| && 0 <= b < |AllSons(fath, r)| && a != b
    requires -1 <= x < |fath| && Under(fath, x, Son(fath, r, b))
    ensures !Under(fath, x, Son(fath, r, a))
  {
    hide Under;
    if Under(fath, x, Son(fath, r, a)) {
      SonsApart(fath, x, Son(fath, r, a), Son(fath, r, b));
      SonsMembers(fath, r, |fath|);
    }
  }

  lemma SonsDiffer(fath: Tree, r: int, a: int, b: int)
    requires -1 <= r < |fath| && 0 <= a < |AllSons(fath, r)| && 0 <= b < |AllSons(fath, r)| && a != b
    ensures Under(fath, Son(fath, r, b), Son(fath, r, b)) && !Under(fath, r, Son(fath, r, a))
  {
    SonVisited(fath, r, a, r);
  }

  lemma LinkGrows(fath: Tree, cost: seq<real>, c: seq<Cand>, d: seq<Cand>, plan: Plan, next: Plan, r: int, a: int,
          pop: seq<int>, steps: seq<Step>)
    requires PlanOf(fath, cost, c, plan) && PlanOf(fath, cost, d, next) && -1 <= r < |fath|
    requires Linked(fath, cost, c, plan, r, pop, steps) && 0 <= a < |AllSons(fath, r)| && a !in pop
    requires Touched(fath, c, d, Son(fath, r, a)) && PlanTouched(fath, plan, next, Son(fath, r, a))
    ensures Linked(fath, cost, d, next, r, pop + [a], steps + [StepOf(fath, cost, d, next, r, a)])
  {
    hide AllSons, Under, SubCost, Touched, PlanTouched;
    forall j | 0 <= j < |pop|
      ensures steps[j] == StepOf(fath, cost, d, next, r, pop[j])
    {
      OthersShared(fath, cost, false, c, d, plan, next, r, a, pop[j]);
    }
  }

  /** Where the mapping of the sons stands: the candidate open, or -1, and the fixed bounds. */
  ghost predicate Stage(tr: Trace, open: int, candnbr: int, epsilon: real) {
    && |tr.n.given| >= 2 && open == Open(tr.n, tr.steps, |tr.steps|)
    && candnbr == EndIdle(Idle(tr.n, tr.steps, 0)) && epsilon == Epsilon(Idle(tr.n, tr.steps, 0))
  }

  lemma StageGrows(tr: Trace, open: int, candnbr: int, epsilon: real, a: int, st: Step, idle: seq<real>,
          after: seq<real>)
    requires Stage(tr, open, candnbr, epsilon) && idle == Idle(tr.n, tr.steps, |tr.steps|) && |after| == |idle|
    requires forall p :: 0 <= p < |after| ==> after[p] == idle[p] - Part(st, p)
    ensures Stage(Grown(tr, a, st), OpenAfter(tr.n.nocrossproc, open, candnbr, epsilon, st, idle, after), candnbr,
                  epsilon)
  {
    hide Idle, Open, Part, Epsilon, EndIdle, OpenAfter;
    NextIdle(tr.n, tr.steps, st);
    IdlePrefix(tr.n, tr.steps, [st], 0);
    assert after == Idle(tr.n, tr.steps + [st], |tr.steps| + 1);
  }

  /** Son `a`, the largest left, is mapped by the rule and shared in turn. */
  lemma TraceGrows(fath: Tree, cost: seq<real>, c: seq<Cand>, d: seq<Cand>, was: Plan, plan: Plan, next: Plan, r: int,
          todo: seq<bool>, a: int, idle: seq<real>, after: seq<real>, tr: Trace, open: int, candnbr: int, epsilon: real)
    requires Traced(fath, cost, c, was, plan, r, todo, idle, tr) && Stage(tr, open, candnbr, epsilon)
    requires 0 <= a < |todo| && todo[a] && PlanOf(fath, cost, d, next)
    requires forall b :: 0 <= b < |todo| && todo[b] ==> TakenBefore(fath, cost, r, a, b)
    requires Touched(fath, c, d, Son(fath, r, a)) && PlanTouched(fath, plan, next, Son(fath, r, a))
    requires Shares(fath, cost, tr.n.nocrossproc, d, next, Son(fath, r, a))
    requires var st := StepOf(fath, cost, d, next, r, a);
      && Rule(tr.n.nocrossproc, candnbr, epsilon, idle, open, st)
      && |after| == |idle| && forall p :: 0 <= p < |after| ==> after[p] == idle[p] - Part(st, p)
    ensures var st := StepOf(fath, cost, d, next, r, a);
      && Traced(fath, cost, d, was, next, r, todo[a := false], after, Grown(tr, a, st))
      && Stage(Grown(tr, a, st), OpenAfter(tr.n.nocrossproc, open, candnbr, epsilon, st, idle, after), candnbr, epsilon)
  {
    hide AllSons, Under, SubCost, Shares, Rule, StepsOK, Part, Idle, Open, Touched, LargestFirst, EndIdle, Epsilon;
    hide OpenAfter;
    var st := StepOf(fath, cost, d, next, r, a);
    assert a !in tr.pop;
    StepsSized(tr.n, tr.steps);
    StageGrows(tr, open, candnbr, epsilon, a, st, idle, after);
    StepsGrow(tr.n, tr.steps, st);
    NextIdle(tr.n, tr.steps, st);
    PopGrows(fath, cost, r, todo, tr.pop, a);
    LinkGrows(fath, cost, c, d, plan, next, r, a, tr.pop, tr.steps);
    PlanMore(fath, was, plan, next, r, a);
    forall b | 0 <= b < |todo| && !todo[b]
      ensures Shares(fath, cost, tr.n.nocrossproc, d, next, Son(fath, r, b))
    {
      OthersShared(fath, cost, tr.n.nocrossproc, c, d, plan, next, r, a, b);
    }
    RootKept(fath, plan, next, r, a);
  }

  lemma StepsSized(n: Sharing, steps: seq<Step>)
    requires StepsOK(n, steps)
    ensures |n.given| >= 2
  {
  }

  lemma RootKept(fath: Tree, plan: Plan, next: Plan, r: int, a: int)
    requires -1 <= r < |fath| && 0 <= a < |AllSons(fath, r)| && PlanTouched(fath, plan, next, Son(fath, r, a))
    ensures next.given[r + 1] == plan.given[r + 1]
  {
    SonVisited(fath, r, a, r);
  }

  lemma PlanMore(fath: Tree, was: Plan, plan: Plan, next: Plan, r: int, a: int)
    requires -1 <= r < |fath| && 0 <= a < |AllSons(fath, r)|
    requires PlanTouched(fath, was, plan, r) && PlanTouched(fath, plan, next, Son(fath, r, a))
    ensures PlanTouched(fath, was, next, r)
  {
    hide Under, AllSons;
    forall x | -1 <= x < |fath| && !Under(fath, x, r)
      ensures !Under(fath, x, Son(fath, r, a))
    {
      SonVisited(fath, r, a, x);
    }
  }

  /** The node about to be shared: it has given its own cost, and no son is mapped. */
  lemma TraceStarts(fath: Tree, cost: seq<real>, c: seq<Cand>, was: Plan, plan: Plan, r: int, todo: seq<bool>,
          idle: seq<real>, n: Sharing)
    requires PlanOf(fath, cost, c, plan) && TodoOK(fath, cost, r, todo) && forall a :: 0 <= a < |todo| ==> todo[a]
    requires |was.given| == |was.popped| == |fath| + 1 && plan == was.(given := was.given[r + 1 := n.given])
    requires n.own == NodeCost(cost, r) && |n.given| >= 2 && idle == Idle(n, [], 0)
    ensures Traced(fath, cost, c, was, plan, r, todo, idle, Trace(n, [], []))
  {
    hide AllSons, SubCost, Idle;
    UnderItself(fath, r);
  }

  lemma UnderItself(fath: Tree, x: int)
    requires -1 <= x < |fath|
    ensures Under(fath, x, x)
  {
  }

  /** All the sons are mapped: the node and all below it are shared. */
  lemma TraceEnds(fath: Tree, cost: seq<real>, c: seq<Cand>, was: Plan, plan: Plan, r: int, todo: seq<bool>,
          idle: seq<real>, tr: Trace)
    requires Traced(fath, cost, c, was, plan, r, todo, idle, tr) && forall a :: 0 <= a < |todo| ==> !todo[a]
    requires |tr.n.given| == c[r + 1].lcandnum - c[r + 1].fcandnum + 1
    requires SumReal(tr.n.given, 0, |tr.n.given|) == SubCost(fath, cost, r)
    ensures var next := plan.(popped := plan.popped[r + 1 := tr.pop]);
      && PlanTouched(fath, was, next, r) && Shares(fath, cost, tr.n.nocrossproc, c, next, r)
      && next.given[r + 1] == tr.n.given && Kept(fath, cost, tr.n.nocrossproc, c, next, r, idle)
  {
    hide AllSons, SubCost, Idle, Under, StepsOK, LargestFirst, SharedAt, SumReal;
    var next := plan.(popped := plan.popped[r + 1 := tr.pop]);
    UnderItself(fath, r);
    Repopped(fath, cost, c, plan, next, r, tr);
    PopsAll(fath, cost, r, todo, tr.pop);
    NodeShared(fath, cost, c, next, r, tr);
    StepsSized(tr.n, tr.steps);
    assert tr.n == Sharing(tr.n.nocrossproc, NodeCost(cost, r), next.given[r + 1]);
    forall x | -1 <= x < |fath| && Under(fath, x, r)
      ensures SharedAt(fath, cost, tr.n.nocrossproc, c, next, x)
    {
      if x != r {
        var a := UnderSomeSon(fath, x, r);
        assert Shares(fath, cost, tr.n.nocrossproc, c, plan, Son(fath, r, a));
        SharedBelow(fath, cost, tr.n.nocrossproc, c, plan, next, r, a, x);
      }
    }
  }

  /** What the candidates of `r` keep is their idle times once all its sons are mapped. */
  ghost predicate Kept(fath: Tree, cost: seq<real>, nocrossproc: bool, c: seq<Cand>, plan: Plan, r: int,
                       idle: seq<real>)
    requires PlanOf(fath, cost, c, plan) && -1 <= r < |fath|
  {
    var n := Sharing(nocrossproc, NodeCost(cost, r), plan.given[r + 1]);
    && |n.given| > 0
    && (exists steps ::
          Linked(fath, cost, c, plan, r, plan.popped[r + 1], steps) && idle == Idle(n, steps, |steps|))
  }

  lemma Repopped(fath: Tree, cost: seq<real>, c: seq<Cand>, plan: Plan, next: Plan, r: int, tr: Trace)
    requires PlanOf(fath, cost, c, plan) && -1 <= r < |fath| && Linked(fath, cost, c, plan, r, tr.pop, tr.steps)
    requires next == plan.(popped := plan.popped[r + 1 := tr.pop])
    ensures PlanOf(fath, cost, c, next) && Linked(fath, cost, c, next, r, next.popped[r + 1], tr.steps)
  {
    hide AllSons, SubCost;
    forall j | 0 <= j < |tr.pop|
      ensures tr.steps[j] == StepOf(fath, cost, c, next, r, tr.pop[j])
    {
    }
  }

  /** Once none is left, as many sons were taken as there are. */
  lemma PopsAll(fath: Tree, cost: seq<real>, r: int, todo: seq<bool>, pop: seq<int>)
    requires TodoOK(fath, cost, r, todo) && PopOK(fath, cost, r, todo, pop) && forall a :: 0 <= a < |todo| ==> !todo[a]
    ensures |pop| == |AllSons(fath, r)| && LargestFirst(fath, cost, r, pop)
  {
    hide AllSons, SubCost;
    TaskOrder.NoRepeatBound(pop, |todo|);
  }

  lemma NodeShared(fath: Tree, cost: seq<real>, c: seq<Cand>, plan: Plan, r: int, tr: Trace)
    requires PlanOf(fath, cost, c, plan) && -1 <= r < |fath| && plan.given[r + 1] == tr.n.given
    requires tr.n.own == NodeCost(cost, r) && |tr.n.given| == c[r + 1].lcandnum - c[r + 1].fcandnum + 1
    requires SumReal(tr.n.given, 0, |tr.n.given|) == SubCost(fath, cost, r)
    requires |plan.popped[r + 1]| == |AllSons(fath, r)| && LargestFirst(fath, cost, r, plan.popped[r + 1])
    requires Linked(fath, cost, c, plan, r, plan.popped[r + 1], tr.steps) && StepsOK(tr.n, tr.steps)
    ensures SharedAt(fath, cost, tr.n.nocrossproc, c, plan, r)
  {
    hide AllSons, SubCost, StepsOK, LargestFirst, Linked;
    assert tr.n == Sharing(tr.n.nocrossproc, NodeCost(cost, r), plan.given[r + 1]);
  }

  lemma UnderSomeSon(fath: Tree, x: int, r: int) returns (a: int)
    requires -1 <= x < |fath| && -1 <= r < |fath| && Under(fath, x, r) && x != r
    ensures 0 <= a < |AllSons(fath, r)| && Under(fath, x, Son(fath, r, a))
  {
    hide Under;
    RootNotUnder(fath, x, r);
    var y := UnderSon(fath, x, r);
    SonsMembers(fath, r, |fath|);
    assert y in AllSons(fath, r);
    a :| 0 <= a < |AllSons(fath, r)| && AllSons(fath, r)[a] == y;
  }

  lemma RootNotUnder(fath: Tree, x: int, r: int)
    requires -1 <= x < |fath| && Under(fath, x, r) && x != r
    ensures x >= 0
  {
  }

  lemma SharedBelow(fath: Tree, cost: seq<real>, nocrossproc: bool, c: seq<Cand>, plan: Plan, next: Plan, r: int,
          a: int, x: int)
    requires PlanOf(fath, cost, c, plan) && PlanOf(fath, cost, c, next) && -1 <= r < |fath|
    requires 0 <= a < |AllSons(fath, r)| && Shares(fath, cost, nocrossproc, c, plan, Son(fath, r, a))
    requires next.given == plan.given && |next.popped| == |plan.popped|
    requires forall k :: 0 <= k < |next.popped| && k != r + 1 ==> next.popped[k] == plan.popped[k]
    requires -1 <= x < |fath| && Under(fath, x, Son(fath, r, a))
    ensures SharedAt(fath, cost, nocrossproc, c, next, x)
  {
    hide Under, AllSons, SharedAt;
    SonVisited(fath, r, a, r);
    forall y | -1 <= y < |fath| && Under(fath, y, Son(fath, r, a))
      ensures SameAt(c, c, plan, next, y)
    {
    }
    SharesKept(fath, cost, nocrossproc, c, c, plan, next, Son(fath, r, a));
  }

  // ----- what sharing promises -----

  /** What the first `j` sons take of candidate `p`. */
  ghost function Taken(steps: seq<Step>, j: int, p: int): real
    requires 0 <= j <= |steps|
  {
    if j == 0 then 0.0 else Taken(steps, j - 1, p) + Part(steps[j - 1], p)
  }

  /** Each candidate is given an equal share of the node, what the sons take, and what it keeps. */
  lemma {:induction false} GivenIsTakenOrKept(n: Sharing, steps: seq<Step>, j: int, p: int)
    requires |n.given| > 0 && 0 <= j <= |steps| && 0 <= p < |n.given|
    ensures n.given[p] == n.own / |n.given| as real + Taken(steps, j, p) + Idle(n, steps, j)[p]
    decreases j
  {
    if j > 0 {
      GivenIsTakenOrKept(n, steps, j - 1, p);
    } else {
      assert Share(n.own, |n.given|) == n.own / |n.given| as real;
    }
  }

  /** A son goes onto several candidates only when its cost exceeds what the open one has left,
      by more than the tolerance when candidates may not join twice. */
  lemma SeveralOnlyIfTooLarge(n: Sharing, steps: seq<Step>, j: int)
    requires StepsOK(n, steps) && 0 <= j < |steps| && steps[j].first < steps[j].last
    ensures |n.given| >= 2 && Open(n, steps, j) >= 0
    ensures var left := At(Idle(n, steps, j), Open(n, steps, j));
      steps[j].cost > left && (n.nocrossproc ==> steps[j].cost > left + Epsilon(Idle(n, steps, 0)))
  {
    hide Idle, Open, Epsilon, OnSeveral;
    assert StepOK(n, steps, j);
  }

  lemma {:induction false} StaysClosed(n: Sharing, steps: seq<Step>, i: int, j: int)
    requires |n.given| >= 2 && 0 <= i < j <= |steps|
    requires Open(n, steps, i) < 0
      || Fits(n.nocrossproc, steps[i].cost, At(Idle(n, steps, i), Open(n, steps, i)), Epsilon(Idle(n, steps, 0)))
    ensures Open(n, steps, j) < 0
    decreases j
  {
    hide Idle, Epsilon, Fits, At;
    if i < j - 1 {
      StaysClosed(n, steps, i, j - 1);
    }
  }

  /** Once a son fits on the open candidate it goes there alone, and each later one goes to a
      candidate of most idle time. */
  lemma ClosedAfterFit(n: Sharing, steps: seq<Step>, i: int, j: int)
    requires StepsOK(n, steps) && 0 <= i < j < |steps| && |n.given| >= 2
    requires Open(n, steps, i) >= 0
    requires Fits(n.nocrossproc, steps[i].cost, At(Idle(n, steps, i), Open(n, steps, i)), Epsilon(Idle(n, steps, 0)))
    ensures steps[i].first == steps[i].last == Open(n, steps, i)
    ensures steps[j].first == steps[j].last
    ensures var c := Idle(n, steps, j);
      0 <= steps[j].first < |c| && forall q :: 0 <= q < EndIdle(Idle(n, steps, 0)) ==> At(c, q) <= c[steps[j].first]
  {
    hide Idle, Epsilon, Fits, OnSeveral, Open;
    StaysClosed(n, steps, i, j);
    assert StepOK(n, steps, i) && StepOK(n, steps, j);
  }
}
