/** The analysis from a symbol matrix to a static schedule: split, tree, costs,
    proportional mapping, candidate check, simulation. */
module Blend {
  import opened Symbol
  import opened TreeSpec
  import opened ElimTree
  import opened CandTree
  import opened PropMapSpec
  import opened PropMap
  import opened PropMapPlan
  import opened Simu
  import opened SimuRun
  import opened SimuDates
  import opened SplitSpec
  import opened SplitMeaning
  import opened SplitCuts
  import opened SplitSmart
  import ExtraCblkMerge

  /** Candidates nest along every path of the tree. */
  lemma {:induction false} NestedUnder(fath: Tree, c: seq<Cand>, f: int, l: int, x: int, y: int)
    requires |c| == |fath| + 1 && MappedUnder(fath, c, -1, f, l) && f <= l
    requires -1 <= x < |fath| && -1 <= y < |fath| && Under(fath, x, y)
    ensures c[y + 1].fcandnum <= c[x + 1].fcandnum <= c[x + 1].lcandnum <= c[y + 1].lcandnum
    decreases if x == -1 then 0 else |fath| - x
  {
    AllUnderRoot(fath, x);
    if x == -1 {
      assert y == -1;
    } else {
      assert NestedIn(fath, c, x);
      if x != y {
        NestedUnder(fath, c, f, l, fath[x], y);
      }
    }
  }

  /** On a symbol closed under fill, candidates mapped on its tree pass the check. */
  lemma MappedNests(s: FilledSymb, c: seq<Cand>, f: int, l: int)
    requires |c| == s.CblkNbr() + 1 && MappedUnder(TreeOf(s), c, -1, f, l) && f <= l
    ensures forall j :: 0 <= j < |s.bloktab| ==> BlokNested(s, c, j)
    ensures forall k :: 0 <= k < |c| ==> f <= c[k].fcandnum <= c[k].lcandnum <= l
  {
    forall j | 0 <= j < |s.bloktab|
      ensures BlokNested(s, c, j)
    {
      assert s.BlokPlaced(j);
      if s.bloktab[j].lcblknm != s.bloktab[j].fcblknm {
        FacesAncestor(s, j);
        NestedUnder(TreeOf(s), c, f, l, s.bloktab[j].lcblknm, s.bloktab[j].fcblknm);
      }
    }
    forall k | 0 <= k < |c|
      ensures f <= c[k].fcandnum <= c[k].lcandnum <= l
    {
      AllUnderRoot(TreeOf(s), k - 1);
      NestedUnder(TreeOf(s), c, f, l, k - 1, -1);
    }
  }

  lemma {:induction false} FtgtBaseOfCands(s: SymbolMatrix, c: Ctrl, d: Ctrl, b: int)
    requires 0 <= b <= |s.bloktab| && c.candtab == d.candtab
    ensures FtgtBase(s, c, b) == FtgtBase(s, d, b)
  {
    if b > 0 {
      FtgtBaseOfCands(s, c, d, b - 1);
    }
  }

  /** A non-empty interval of cores, and the clusters of its ends. */
  ghost predicate InClusters(cand: Cand, core2clust: seq<int>) {
    && 0 <= cand.fcandnum <= cand.lcandnum < |core2clust|
    && cand.fccandnum == core2clust[cand.fcandnum] && cand.lccandnum == core2clust[cand.lcandnum]
  }

  /** Candidates mapped on the tree, with their clusters, are what the simulation needs. */
  lemma MappedIsCandsOK(s: FilledSymb, cands: seq<Cand>, c: Ctrl)
    requires |cands| == s.CblkNbr() + 1 && c.candtab == cands[1..]
    requires MappedUnder(TreeOf(s), cands, -1, 0, |c.core2clust| - 1) && |c.core2clust| > 0
    requires forall p, q :: 0 <= p <= q < |c.core2clust| ==> 0 <= c.core2clust[p] <= c.core2clust[q]
    requires forall k :: 0 <= k < |cands| ==> InClusters(cands[k], c.core2clust)
    ensures CandsOK(s, c)
  {
    hide MappedUnder;
    MappedNests(s, cands, 0, |c.core2clust| - 1);
    forall i | 0 <= i < s.CblkNbr()
      ensures CandOK(c, i)
    {
      assert c.candtab[i] == cands[i + 1];
    }
    forall j | 0 <= j < |s.bloktab|
      ensures Nested(s, c, j)
    {
      assert s.BlokPlaced(j) && BlokNested(s, cands, j);
      assert c.candtab[s.bloktab[j].lcblknm] == cands[s.bloktab[j].lcblknm + 1];
      assert c.candtab[s.bloktab[j].fcblknm] == cands[s.bloktab[j].fcblknm + 1];
    }
  }

  lemma NewCluster(fath: Tree, c: seq<Cand>, d: seq<Cand>, f: int, l: int)
    requires |c| == |d| == |fath| + 1 && MappedUnder(fath, c, -1, f, l)
    requires forall k :: 0 <= k < |c| ==> d[k].fcandnum == c[k].fcandnum && d[k].lcandnum == c[k].lcandnum
    ensures MappedUnder(fath, d, -1, f, l)
  {
    forall x | 0 <= x < |fath| && Under(fath, x, -1) && x != -1
      ensures NestedIn(fath, d, x)
    {
      assert NestedIn(fath, c, x);
    }
  }

  /** Setting the clusters leaves the sharing as it is. */
  lemma NewClusterShares(fath: Tree, cost: seq<real>, nocrossproc: bool, c: seq<Cand>, d: seq<Cand>, plan: Plan)
    requires Shares(fath, cost, nocrossproc, c, plan, -1) && |d| == |c|
    requires forall k :: 0 <= k < |c| ==> d[k].fcandnum == c[k].fcandnum && d[k].lcandnum == c[k].lcandnum
    ensures Shares(fath, cost, nocrossproc, d, plan, -1)
  {
    hide SharedAt, Under;
    SharesKept(fath, cost, nocrossproc, c, d, plan, plan, -1);
  }

  /** The candidates are shared by cost from the root down: it is handed an equal share of the
      whole cost for each candidate. With `allcand` every core is candidate everywhere. */
  ghost predicate SharedByCost(fath: Tree, cost: seq<real>, nocrossproc: bool, allcand: bool, c: seq<Cand>, plan: Plan,
                               candnbr: int) {
    && PlanOf(fath, cost, c, plan) && candnbr > 0
    && (allcand ==> forall k :: 0 <= k < |c| ==> c[k].fcandnum == 0 && c[k].lcandnum == candnbr - 1)
    && (!allcand ==> Shares(fath, cost, nocrossproc, c, plan, -1) && |plan.given[0]| == candnbr)
    && (forall p :: !allcand && 0 <= p < candnbr ==> plan.given[0][p] == SumReal(cost, 0, |cost|) / candnbr as real)
  }

  /** From the tree of a symbol to its candidates. */
  method MapCandidates(s: FilledSymb, core2clust: seq<int>, cblkcost: seq<real>, nocrossproc: bool, allcand: bool)
      returns (candtab: array<Cand>, ok: int, ghost plan: Plan)
    requires |core2clust| > 0 && |cblkcost| == s.CblkNbr() && (forall i :: 0 <= i < |cblkcost| ==> cblkcost[i] >= 0.0)
    requires forall p, q :: 0 <= p <= q < |core2clust| ==> 0 <= core2clust[p] <= core2clust[q]
    ensures fresh(candtab) && candtab.Length == s.CblkNbr() + 1
    ensures ok == 1
    ensures MappedUnder(TreeOf(s), candtab[..], -1, 0, |core2clust| - 1)
    ensures forall k :: 0 <= k < candtab.Length ==> InClusters(candtab[k], core2clust)
    ensures forall k :: 0 <= k < candtab.Length ==> candtab[k].treelevel == -Level(TreeOf(s), k - 1)
    ensures SharedByCost(TreeOf(s), cblkcost, nocrossproc, allcand, candtab[..], plan, |core2clust|)
  {
    hide MappedUnder, TreeOf, SubCost, Level, Under, SharedAt, Shares, SumReal;
    ghost var fath := TreeOf(s);
    assert |fath| == s.CblkNbr() by { TreeSize(s); }
    var etree := Build(s);
    candtab := new Cand[s.CblkNbr() + 1](_ => Cand(0, -1, -1, -1, -1));
    RootLevel(fath);
    var total := SubTreeBuild(-1, candtab, etree, cblkcost, fath);
    AllUnder(fath);
    assert Costed(etree, fath, cblkcost);
    ghost var levels := candtab[..];
    plan := MapTree(candtab, etree, |core2clust|, nocrossproc, allcand, fath, cblkcost);
    MappedNests(s, candtab[..], 0, |core2clust| - 1);
    ghost var cores := candtab[..];
    forall k | 0 <= k < |cores|
      ensures cores[k].treelevel == -Level(fath, k - 1)
    {
      assert Under(fath, k - 1, -1);
    }
    SetClusterCand(candtab, core2clust);
    NewCluster(fath, cores, candtab[..], 0, |core2clust| - 1);
    RootCostIsTotal(fath, cblkcost);
    if !allcand {
      NewClusterShares(fath, cblkcost, nocrossproc, cores, candtab[..], plan);
    }
    MappedNests(s, candtab[..], 0, |core2clust| - 1);
    ok := CandCheck(candtab, s);
  }

  lemma TreeSize(s: Symb)
    ensures |TreeOf(s)| == s.CblkNbr()
  {
  }

  lemma RootLevel(fath: Tree)
    ensures Level(fath, -1) == 0
  {
  }

  lemma AllUnder(fath: Tree)
    ensures forall x :: -1 <= x < |fath| ==> Under(fath, x, -1)
  {
    forall x | -1 <= x < |fath| ensures Under(fath, x, -1) {
      AllUnderRoot(fath, x);
    }
  }

  /** Costs of the split symbol: of each column block, of each block, and of each fan-in. */
  datatype Costs = Costs(cblk: int -> real, blok: int -> real, fanin: int -> real)

  ghost predicate CostsOK(k: Costs) {
    forall i :: k.cblk(i) >= 0.0 && k.blok(i) >= 0.0 && k.fanin(i) >= 0.0
  }

  /** The symbol once its wide column blocks are split. */
  ghost function AfterSplit(w: Split): SymbolMatrix {
    if w.x.addcblk == 0 then w.s else Merged(w)
  }

  lemma SplitIsFilled(w: Split)
    requires w.s.FillClosed()
    ensures AfterSplit(w).Valid() && AfterSplit(w).FillClosed()
  {
    MergePreservesFill(w);
  }

  /** Cut the wide column blocks and merge their pieces into the symbol. */
  method SplitSymbol(s: FilledSymb, kway: seq<bool>, b: Widths, fct: SplitFct)
      returns (newsymb: SymbolMatrix, ghost w: Split)
    requires WidthsOK(b) && |kway| == s.CblkNbr()
    ensures w.s == s && Done(s, w.x, kway, b, fct, s.CblkNbr())
    ensures newsymb == AfterSplit(w) && newsymb.Valid() && newsymb.FillClosed()
  {
    hide Done, Merged;
    var t := SplitSmart.SplitSmart(s, kway, b, fct);
    var x := t.Entries();
    var split: Split := Splitting(s, x);
    w := split;
    SplitIsFilled(w);
    newsymb := ExtraCblkMerge.ExtraCblkMerge(split);
  }

  /** What the simulation is handed, from the mapped candidates. */
  method PrepareSimulation(s: FilledSymb, candtab: array<Cand>, core2clust: seq<int>, costs: Costs, intmax: real,
          asserts: bool)
      returns (c: Ctrl)
    requires CostsOK(costs) && |core2clust| > 0 && candtab.Length == s.CblkNbr() + 1
    requires forall p, q :: 0 <= p <= q < |core2clust| ==> 0 <= core2clust[p] <= core2clust[q]
    requires MappedUnder(TreeOf(s), candtab[..], -1, 0, |core2clust| - 1)
    requires forall k :: 0 <= k < candtab.Length ==> InClusters(candtab[k], core2clust)
    ensures CtrlOK(s, c) && c.candtab == candtab[1..] && c.core2clust == core2clust && c.intmax == intmax
    ensures forall j :: 0 <= j < |c.blokcost| ==> c.blokcost[j] == costs.blok(j)
    ensures forall j :: 0 <= j < |c.ftgtcost| ==> c.ftgtcost[j] == costs.fanin(j)
  {
    hide MappedUnder, FtgtBase, CandsOK, AllHaveCands, InClusters;
    var blokcost := seq(|s.bloktab|, j requires 0 <= j => costs.blok(j));
    var c0 := Ctrl(candtab[1..], core2clust, blokcost, [], intmax, asserts);
    TreeSize(s);
    MappedIsCandsOK(s, candtab[..], c0);
    CtrlGivesCands(s, c0);
    var ftgtnum := SimuCtrl.BuildFtgtNum(s, c0);
    FtgtBaseMonotone(s, c0, 0, |s.bloktab|);
    var ftgtcost := seq(ftgtnum[|s.bloktab|], j requires 0 <= j => costs.fanin(j));
    c := c0.(ftgtcost := ftgtcost);
    FtgtBaseOfCands(s, c0, c, |s.bloktab|);
    MappedIsCandsOK(s, candtab[..], c);
  }

  function CblkCosts(costs: Costs, n: int): (r: seq<real>)
    requires n >= 0
    ensures |r| == n && forall i :: 0 <= i < n ==> r[i] == costs.cblk(i)
  {
    seq(n, i requires 0 <= i => costs.cblk(i))
  }

  /** The whole analysis. For any symbol closed under fill and any costs, the split
      symbol has bounded pieces, the candidates pass their check and, unless the work
      reaches the initial date of the search, every column block is mapped. */
  method Analyse(s: FilledSymb, kway: seq<bool>, b: Widths, fct: SplitFct, core2clust: seq<int>, costs: Costs,
                 intmax: real, nocrossproc: bool, allcand: bool, asserts: bool)
      returns (simu: SimuCtrl, ok: int, turns: nat, ghost w: Split, ghost cands: seq<Cand>, ghost plan: Plan)
    requires WidthsOK(b) && |kway| == s.CblkNbr()
    requires CostsOK(costs) && |core2clust| > 0
    requires forall p, q :: 0 <= p <= q < |core2clust| ==> 0 <= core2clust[p] <= core2clust[q]
    ensures w.s == s && Done(s, w.x, kway, b, fct, s.CblkNbr())
    ensures simu.s == AfterSplit(w) && simu.c.core2clust == core2clust
    ensures forall j :: 0 <= j < |simu.c.blokcost| ==> simu.c.blokcost[j] == costs.blok(j)
    ensures forall j :: 0 <= j < |simu.c.ftgtcost| ==> simu.c.ftgtcost[j] == costs.fanin(j)
    ensures |cands| > 0 && simu.c.candtab == cands[1..] && simu.s.Valid()
    ensures SharedByCost(TreeOf(simu.s), CblkCosts(costs, simu.s.CblkNbr()), nocrossproc, allcand, cands, plan,
                         |core2clust|)
    ensures ok == 1
    ensures simu.LoopHead() && turns == |simu.order|
    ensures TotalWork(simu.s, simu.c, simu.s.CblkNbr()) < intmax ==> simu.AllMapped() && turns == simu.s.CblkNbr()
  {
    hide MappedUnder, CtrlOK, InClusters, TreeOf, AfterSplit, Done, SharedByCost, CblkCosts;
    var symb;
    symb, w := SplitSymbol(s, kway, b, fct);
    var sym: FilledSymb := symb;
    TreeSize(sym);
    var cblkcost := CblkCosts(costs, sym.CblkNbr());
    var candtab;
    candtab, ok, plan := MapCandidates(sym, core2clust, cblkcost, nocrossproc, allcand);
    var c := PrepareSimulation(sym, candtab, core2clust, costs, intmax, asserts);
    cands := candtab[..];
    simu := new SimuCtrl(sym, c);
    turns := simu.Run();
  }
}
