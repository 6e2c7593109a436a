/** The elimination tree as the analysis stores it: fathers, sons grouped by
    father in one array, levels. */
module ElimTree {
  import opened Symbol
  import opened TreeSpec

  datatype Node = Node(ndecost: real, subcost: real, ndlevel: int, sonsnbr: int, fathnum: int, fsonnum: int)

  // ----- the tree of a symbol -----

  /** Number of the column block faced by the first off-diagonal block, or -1. */
  ghost function FatherOf(s: Symb, i: int): int
    requires 0 <= i < s.CblkNbr()
  {
    assert s.Bounded(i);
    if s.End(i) - s.First(i) > 1 then s.bloktab[s.First(i) + 1].fcblknm else -1
  }

  ghost function Fathers(s: Symb, n: int): (f: seq<int>)
    requires 0 <= n <= s.CblkNbr()
    ensures |f| == n && forall i :: 0 <= i < n ==> f[i] == FatherOf(s, i)
  {
    if n == 0 then [] else Fathers(s, n - 1) + [FatherOf(s, n - 1)]
  }

  lemma FathersAreTree(s: Symb)
    ensures IsTree(Fathers(s, s.CblkNbr()))
  {
    forall i | 0 <= i < s.CblkNbr()
      ensures FatherOf(s, i) == -1 || i < FatherOf(s, i) < s.CblkNbr()
    {
      assert s.Bounded(i);
      if s.End(i) - s.First(i) > 1 {
        assert s.BlokPlaced(s.First(i) + 1);
      }
    }
  }

  ghost function TreeOf(s: Symb): Tree {
    FathersAreTree(s);
    Fathers(s, s.CblkNbr())
  }

  /** On a symbol closed under fill, every off-diagonal block of a column block
      faces one of its ancestors. */
  lemma {:induction false} FacesAncestor(s: FilledSymb, j: int)
    requires 0 <= j < |s.bloktab| && s.bloktab[j].lcblknm != s.bloktab[j].fcblknm
    ensures s.BlokPlaced(j) && Under(TreeOf(s), s.bloktab[j].lcblknm, s.bloktab[j].fcblknm)
    decreases |s.cblktab| - s.bloktab[j].lcblknm
  {
    assert s.BlokPlaced(j);
    var i := s.bloktab[j].lcblknm;
    assert s.Bounded(i);
    var first := s.First(i) + 1;
    assert s.BlokPlaced(first);
    var f := s.bloktab[first].fcblknm;
    assert TreeOf(s)[i] == FatherOf(s, i) == f;
    if j == first {
      assert Under(TreeOf(s), f, f);
    } else {
      assert s.Pair(first, j);
      FaceReceives(s, first, j);
      var b := s.Face(first, j);
      assert s.BlokPlaced(b);
      SameFace(s, b, j);
      if s.bloktab[b].fcblknm == f {
        assert Under(TreeOf(s), f, f);
      } else {
        FacesAncestor(s, b);
      }
    }
  }

  lemma SameFace(s: Symb, b: int, j: int)
    requires 0 <= b < |s.bloktab| && 0 <= j < |s.bloktab| && s.Inside(j, b)
    ensures s.bloktab[b].fcblknm == s.bloktab[j].fcblknm
  {
    assert s.BlokPlaced(b) && s.BlokPlaced(j);
    var x, y := s.bloktab[b].fcblknm, s.bloktab[j].fcblknm;
    if x < y {
      CblkOrder(s, x, y);
    } else if y < x {
      CblkOrder(s, y, x);
    }
  }

  /** `m` is the greatest level of the nodes under `r`. */
  ghost predicate IsDepth(fath: Tree, r: int, m: int) {
    && (forall x :: -1 <= x < |fath| && Under(fath, x, r) ==> Level(fath, x) <= m)
    && (exists x :: -1 <= x < |fath| && Under(fath, x, r) && Level(fath, x) == m)
  }

  /** Son number `a` of node `r` stands where its slice of `sonstab` says. */
  ghost predicate SonListed(fath: Tree, sonstab: seq<int>, r: int, a: int)
    requires |sonstab| == |fath| && 0 <= a < |AllSons(fath, r)|
  {
    var k := Before(fath, r, |fath|) + a;
    0 <= k < |fath| && sonstab[k] == AllSons(fath, r)[a]
  }

  /** The slice of `sonstab` given to node `r` is its sons in increasing order. */
  ghost predicate SonsListed(fath: Tree, sonstab: seq<int>, r: int)
    requires |sonstab| == |fath|
  {
    forall a :: 0 <= a < |AllSons(fath, r)| ==> SonListed(fath, sonstab, r, a)
  }

  lemma PlacedSonListed(fath: Tree, sonstab: seq<int>, r: int, a: int)
    requires |sonstab| == |fath| && 0 <= a < |AllSons(fath, r)|
    requires forall i :: 0 <= i < |fath| ==> 0 <= Place(fath, i) < |fath| && sonstab[Place(fath, i)] == i
    ensures SonListed(fath, sonstab, r, a)
  {
    SonsMembers(fath, r, |fath|);
    var sons := Sons(fath, r, |fath|);
    var x := sons[a];
    assert x in sons;
    PlaceInSlice(fath, x);
    var b := |Sons(fath, r, x)|;
    assert 0 <= b < |sons| && sons[b] == x;
    assert Place(fath, x) == Before(fath, r, |fath|) + a;
  }

  class EliminTree {
    const nodenbr: nat
    /** Node `r` is entry `r + 1`: the virtual root, -1, is entry 0. */
    const nodetab: array<Node>
    const sonstab: array<int>

    ghost predicate Sized() {
      nodetab.Length == nodenbr + 1 && sonstab.Length == nodenbr
    }

    function At(r: int): Node
      requires Sized() && -1 <= r < nodenbr
      reads nodetab
    {
      nodetab[r + 1]
    }

    /** Fathers and son counts are those of `fath`. */
    ghost predicate Counted(fath: Tree)
      reads nodetab
    {
      && Sized()
      && |fath| == nodenbr
      && (forall k :: 1 <= k <= nodenbr ==> nodetab[k].fathnum == fath[k - 1])
      && (forall k :: 0 <= k <= nodenbr ==> nodetab[k].sonsnbr == |AllSons(fath, k - 1)|)
    }

    /** The stored tree is `fath`. */
    ghost predicate Holds(fath: Tree)
      reads nodetab, sonstab
    {
      && Counted(fath)
      && (forall k :: 0 <= k <= nodenbr ==> nodetab[k].fsonnum == Before(fath, k - 1, nodenbr))
      && (forall r :: -1 <= r < nodenbr ==> SonsListed(fath, sonstab[..], r))
    }

    constructor Init(n: nat)
      ensures Sized() && nodenbr == n && fresh(nodetab) && fresh(sonstab)
      ensures forall k :: 0 <= k <= n ==> nodetab[k] == Node(0.0, 0.0, -1, 0, -1, -1)
    {
      nodenbr := n;
      nodetab := new Node[n + 1](_ => Node(0.0, 0.0, -1, 0, -1, -1));
      sonstab := new int[n](_ => 0);
    }

    method SetSonsIndex(ghost fath: Tree)
      requires Counted(fath)
      modifies nodetab
      ensures forall k :: 0 <= k <= nodenbr ==>
        nodetab[k] == old(nodetab[k]).(fsonnum := Before(fath, k - 1, nodenbr))
    {
      hide Before, Sons;
      BeforeEnds(fath, nodenbr);
      nodetab[0] := nodetab[0].(fsonnum := 0);
      for i := 0 to nodenbr
        invariant forall k :: 0 <= k <= i ==>
          nodetab[k] == old(nodetab[k]).(fsonnum := Before(fath, k - 1, nodenbr))
        invariant forall k :: i < k <= nodenbr ==> nodetab[k] == old(nodetab[k])
      {
        BeforeNext(fath, i - 1, nodenbr);
        nodetab[i + 1] := nodetab[i + 1].(fsonnum := nodetab[i].fsonnum + nodetab[i].sonsnbr);
      }
      BeforeNext(fath, nodenbr - 1, nodenbr);
      assert nodetab[nodenbr].fsonnum + nodetab[nodenbr].sonsnbr == nodenbr;
    }

    /** Fill `sonstab` with `fsonnum` as write cursor, then restore it. */
    method SetSons(ghost fath: Tree)
      requires Counted(fath)
      modifies nodetab, sonstab
      ensures Holds(fath)
      ensures forall k :: 0 <= k <= nodenbr ==>
        nodetab[k] == old(nodetab[k]).(fsonnum := Before(fath, k - 1, nodenbr))
    {
      hide Before, Sons, SonListed;
      SetSonsIndex(fath);
      for i := 0 to nodenbr
        invariant forall k :: 0 <= k <= nodenbr ==>
          nodetab[k] == old(nodetab[k]).(fsonnum := Before(fath, k - 1, nodenbr) + |Sons(fath, k - 1, i)|)
        invariant forall x :: 0 <= x < i ==> 0 <= Place(fath, x) < nodenbr && sonstab[Place(fath, x)] == x
      {
        PlaceInSlice(fath, i);
        forall x | 0 <= x < i ensures Place(fath, x) != Place(fath, i) {
          PlacesApart(fath, x, i);
        }
        SonsStep(fath, i);
        var f := nodetab[i + 1].fathnum + 1;
        var node := nodetab[f].fsonnum;
        assert node == Place(fath, i);
        nodetab[f] := nodetab[f].(fsonnum := node + 1);
        sonstab[node] := i;
      }
      SetSonsIndex(fath);
      forall r, a | -1 <= r < nodenbr && 0 <= a < |AllSons(fath, r)| ensures SonListed(fath, sonstab[..], r, a) {
        PlacedSonListed(fath, sonstab[..], r, a);
      }
    }

    /** Level of a node, climbing to the root. */
    method NodeLevel(ghost fath: Tree, nodenum: int) returns (level: int)
      requires Counted(fath) && -1 <= nodenum < nodenbr
      ensures level == Level(fath, nodenum)
    {
      level := 0;
      if nodenum == -1 {
        return 0;
      }
      level := level + 1;
      var node := nodenum;
      while At(node).fathnum != -1
        invariant 0 <= node < nodenbr
        invariant level + Level(fath, fath[node]) == Level(fath, nodenum)
        decreases nodenbr - node
      {
        level := level + 1;
        node := At(node).fathnum;
      }
    }

    /** Height of the tree, bottom up. */
    method ComputeHeight(ghost fath: Tree) returns (maxlevel: int)
      requires Counted(fath)
      ensures IsDepth(fath, -1, maxlevel)
    {
      hide Level;
      maxlevel := 0;
      ghost var deepest := -1;
      for i := 0 to nodenbr
        invariant forall x :: -1 <= x < i ==> Level(fath, x) <= maxlevel
        invariant -1 <= deepest < nodenbr && Level(fath, deepest) == maxlevel
      {
        var nodelevel := NodeLevel(fath, i);
        if nodelevel > maxlevel {
          maxlevel := nodelevel;
          deepest := i;
        }
      }
      AllUnderRoot(fath, deepest);
    }

    method SonI(ghost fath: Tree, node: int, i: int) returns (son: int)
      requires Holds(fath) && -1 <= node < nodenbr && 0 <= i < At(node).sonsnbr
      ensures At(node).sonsnbr == |AllSons(fath, node)| && son == AllSons(fath, node)[i]
      ensures 0 <= son < nodenbr && Rank(nodenbr, son) < Rank(nodenbr, node) && fath[son] == node
    {
      hide AllSons, Before;
      assert SonsListed(fath, sonstab[..], node) && SonListed(fath, sonstab[..], node, i);
      assert 0 <= Before(fath, node, nodenbr) + i < nodenbr;
      SonOf(fath, node, i);
      son := sonstab[At(node).fsonnum + i];
    }

    /** Levels of the subtree of `rootnum`, top down. */
    method ComputeLevels(ghost fath: Tree, rootnum: int, rootlvl: int) returns (maxlevel: int)
      requires Holds(fath) && -1 <= rootnum < nodenbr && rootlvl == Level(fath, rootnum)
      modifies nodetab
      ensures Holds(fath) && IsDepth(fath, rootnum, maxlevel)
      ensures forall k :: 0 <= k <= nodenbr ==> (nodetab[k] ==
        if Under(fath, k - 1, rootnum) then old(nodetab[k]).(ndlevel := Level(fath, k - 1)) else old(nodetab[k]))
      decreases Rank(nodenbr, rootnum)
    {
      hide AllSons, Before, Sons, UnderSons, SonsListed;
      nodetab[rootnum + 1] := nodetab[rootnum + 1].(ndlevel := rootlvl);
      var sonsnbr := nodetab[rootnum + 1].sonsnbr;
      maxlevel := rootlvl;
      ghost var deepest := rootnum;
      VisitNone(fath, rootnum);
      assert Under(fath, deepest, rootnum);
      for i := 0 to sonsnbr
        invariant Holds(fath)
        invariant forall k :: 0 <= k <= nodenbr ==> (nodetab[k] ==
          if k - 1 == rootnum || UnderSons(fath, k - 1, rootnum, i)
          then old(nodetab[k]).(ndlevel := Level(fath, k - 1)) else old(nodetab[k]))
        invariant forall x :: -1 <= x < nodenbr && UnderSons(fath, x, rootnum, i) ==> Level(fath, x) <= maxlevel
        invariant rootlvl <= maxlevel
        invariant -1 <= deepest < nodenbr && Level(fath, deepest) == maxlevel && Under(fath, deepest, rootnum)
      {
        var son := SonI(fath, rootnum, i);
        VisitSon(fath, rootnum, i);
        var max := ComputeLevels(fath, son, rootlvl + 1);
        if max > maxlevel {
          ghost var x :| -1 <= x < nodenbr && Under(fath, x, son) && Level(fath, x) == max;
          deepest := x;
        }
        maxlevel := if max > maxlevel then max else maxlevel;
      }
      VisitDone(fath, rootnum);
    }
  }

  lemma SonsStep(fath: Tree, i: int)
    requires 0 <= i < |fath|
    ensures forall r :: |Sons(fath, r, i + 1)| == |Sons(fath, r, i)| + (if r == fath[i] then 1 else 0)
  {
  }

  /** The elimination tree of a symbol: fathers, son counts, then the sons. */
  method Build(s: Symb) returns (t: EliminTree)
    ensures fresh(t) && fresh(t.nodetab) && fresh(t.sonstab) && t.Holds(TreeOf(s))
    ensures forall k :: 0 <= k <= t.nodenbr ==> t.nodetab[k].ndecost == 0.0
  {
    hide Sons, Before;
    ghost var fath := TreeOf(s);
    t := new EliminTree.Init(s.CblkNbr());
    var totalsonsnbr := 0;
    SonsNone(fath);
    for i := 0 to t.nodenbr
      invariant totalsonsnbr == i
      invariant forall k :: 0 <= k <= t.nodenbr ==>
        t.nodetab[k].sonsnbr == |Sons(fath, k - 1, i)| && t.nodetab[k].ndecost == 0.0
      invariant forall k :: 1 <= k <= t.nodenbr ==> t.nodetab[k].fathnum == (if k <= i then fath[k - 1] else -1)
    {
      assert s.Bounded(i);
      SonsStep(fath, i);
      var fathnum := -1;
      if s.cblktab[i + 1].bloknum - s.cblktab[i].bloknum > 1 {
        fathnum := s.bloktab[s.cblktab[i].bloknum + 1].fcblknm;
      }
      assert fathnum == fath[i];
      t.nodetab[i + 1] := t.nodetab[i + 1].(fathnum := fathnum);
      t.nodetab[fathnum + 1] := t.nodetab[fathnum + 1].(sonsnbr := t.nodetab[fathnum + 1].sonsnbr + 1);
      totalsonsnbr := totalsonsnbr + 1;
    }
    t.SetSons(fath);
  }

  lemma SonsNone(fath: Tree)
    ensures forall r :: Sons(fath, r, 0) == []
  {
  }
}
