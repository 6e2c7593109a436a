/** Trees given by the father of each node: node -1 is the root, every other
    father has a larger index than its sons. */
module TreeSpec {

  ghost predicate IsTree(fath: seq<int>) {
    forall i :: 0 <= i < |fath| ==> fath[i] == -1 || i < fath[i] < |fath|
  }

  type Tree = fath: seq<int> | IsTree(fath) witness []

  /** The sons of `r` below `i`, in increasing order. */
  ghost function Sons(fath: seq<int>, r: int, i: int): (s: seq<int>)
    requires 0 <= i <= |fath|
    ensures |s| <= i
  {
    if i == 0 then [] else Sons(fath, r, i - 1) + (if fath[i - 1] == r then [i - 1] else [])
  }

  ghost function AllSons(fath: seq<int>, r: int): seq<int> {
    Sons(fath, r, |fath|)
  }

  /** Number of nodes below `i` whose father is smaller than `r`. */
  ghost function Before(fath: seq<int>, r: int, i: int): (c: int)
    requires 0 <= i <= |fath|
    ensures 0 <= c <= i
  {
    if i == 0 then 0 else Before(fath, r, i - 1) + (if fath[i - 1] < r then 1 else 0)
  }

  lemma {:induction false} SonsMembers(fath: seq<int>, r: int, i: int)
    requires 0 <= i <= |fath|
    ensures forall x :: x in Sons(fath, r, i) <==> 0 <= x < i && fath[x] == r
    ensures forall a, b :: 0 <= a < b < |Sons(fath, r, i)| ==> Sons(fath, r, i)[a] < Sons(fath, r, i)[b]
  {
    if i > 0 {
      SonsMembers(fath, r, i - 1);
      var prev := Sons(fath, r, i - 1);
      assert forall a :: 0 <= a < |prev| ==> prev[a] in prev;
    }
  }

  /** The sons of `r` come right after those of the smaller fathers. */
  lemma {:induction false} BeforeNext(fath: seq<int>, r: int, i: int)
    requires 0 <= i <= |fath|
    ensures Before(fath, r + 1, i) == Before(fath, r, i) + |Sons(fath, r, i)|
  {
    if i > 0 {
      BeforeNext(fath, r, i - 1);
    }
  }

  lemma {:induction false} BeforeEnds(fath: Tree, i: int)
    requires 0 <= i <= |fath|
    ensures Before(fath, -1, i) == 0 && Before(fath, |fath|, i) == i
  {
    if i > 0 {
      BeforeEnds(fath, i - 1);
    }
  }

  lemma {:induction false} BeforeMonotone(fath: seq<int>, r: int, q: int, i: int)
    requires 0 <= i <= |fath| && r <= q
    ensures Before(fath, r, i) <= Before(fath, q, i)
    ensures r < q ==> Before(fath, r, i) + |Sons(fath, r, i)| <= Before(fath, q, i)
  {
    if i > 0 {
      BeforeMonotone(fath, r, q, i - 1);
    }
  }

  lemma {:induction false} SonsGrow(fath: seq<int>, r: int, i: int, j: int)
    requires 0 <= i <= j <= |fath|
    ensures |Sons(fath, r, i)| <= |Sons(fath, r, j)|
    ensures forall a :: 0 <= a < |Sons(fath, r, i)| ==> Sons(fath, r, j)[a] == Sons(fath, r, i)[a]
    ensures i < j && fath[i] == r ==>
      |Sons(fath, r, i)| < |Sons(fath, r, j)| && Sons(fath, r, j)[|Sons(fath, r, i)|] == i
    decreases j
  {
    if i < j {
      if i < j - 1 {
        SonsGrow(fath, r, i, j - 1);
      }
    }
  }

  /** Place of node `i` in the list of all nodes sorted by father. */
  ghost function Place(fath: seq<int>, i: int): int
    requires 0 <= i < |fath|
  {
    Before(fath, fath[i], |fath|) + |Sons(fath, fath[i], i)|
  }

  lemma PlaceInSlice(fath: Tree, i: int)
    requires 0 <= i < |fath|
    ensures Before(fath, fath[i], |fath|) <= Place(fath, i) < Before(fath, fath[i] + 1, |fath|) <= |fath|
    ensures 0 <= |Sons(fath, fath[i], i)| < |AllSons(fath, fath[i])|
    ensures AllSons(fath, fath[i])[|Sons(fath, fath[i], i)|] == i
  {
    BeforeNext(fath, fath[i], |fath|);
    SonsGrow(fath, fath[i], i, |fath|);
  }

  lemma PlacesApart(fath: Tree, i: int, j: int)
    requires 0 <= i < j < |fath|
    ensures Place(fath, i) != Place(fath, j)
  {
    PlaceInSlice(fath, i);
    PlaceInSlice(fath, j);
    if fath[i] < fath[j] {
      BeforeMonotone(fath, fath[i], fath[j], |fath|);
      BeforeNext(fath, fath[i], |fath|);
    } else if fath[j] < fath[i] {
      BeforeMonotone(fath, fath[j], fath[i], |fath|);
      BeforeNext(fath, fath[j], |fath|);
    }
  }

  // ----- levels -----

  /** Depth of node `x` below the root. */
  ghost function Level(fath: Tree, x: int): (l: int)
    requires -1 <= x < |fath|
    ensures l >= 0 && (l == 0 <==> x == -1)
    decreases if x == -1 then 0 else |fath| - x
  {
    if x == -1 then 0 else 1 + Level(fath, fath[x])
  }

  /** Node `x` is in the subtree of `r`. */
  ghost predicate Under(fath: Tree, x: int, r: int)
    requires -1 <= x < |fath|
    decreases if x == -1 then 0 else |fath| - x
  {
    x == r || (x != -1 && Under(fath, fath[x], r))
  }

  function Rank(n: int, r: int): int {
    if r == -1 then n else r
  }

  lemma {:induction false} AllUnderRoot(fath: Tree, x: int)
    requires -1 <= x < |fath|
    ensures Under(fath, x, -1)
    decreases if x == -1 then 0 else |fath| - x
  {
    if x != -1 {
      AllUnderRoot(fath, fath[x]);
    }
  }

  lemma {:induction false} UnderRank(fath: Tree, x: int, r: int)
    requires -1 <= x < |fath| && -1 <= r < |fath| && Under(fath, x, r)
    ensures Rank(|fath|, x) <= Rank(|fath|, r)
    ensures Level(fath, x) >= Level(fath, r)
    ensures x != r ==> Rank(|fath|, x) < Rank(|fath|, r)
    decreases if x == -1 then 0 else |fath| - x
  {
    if x != r {
      UnderRank(fath, fath[x], r);
    }
  }

  lemma {:induction false} UnderTransitive(fath: Tree, x: int, y: int, r: int)
    requires -1 <= x < |fath| && -1 <= y < |fath| && Under(fath, x, y) && Under(fath, y, r)
    ensures Under(fath, x, r)
    decreases if x == -1 then 0 else |fath| - x
  {
    if x != y {
      UnderTransitive(fath, fath[x], y, r);
    }
  }

  /** A node strictly under `r` is under one son of `r`. */
  lemma {:induction false} UnderSon(fath: Tree, x: int, r: int) returns (y: int)
    requires 0 <= x < |fath| && -1 <= r < |fath| && Under(fath, x, r) && x != r
    ensures 0 <= y < |fath| && fath[y] == r && Under(fath, x, y)
    decreases |fath| - x
  {
    if fath[x] == r {
      y := x;
    } else {
      y := UnderSon(fath, fath[x], r);
    }
  }

  /** Subtrees of two sons of the same node are disjoint. */
  lemma {:induction false} SonsApart(fath: Tree, x: int, y: int, z: int)
    requires -1 <= x < |fath| && 0 <= y < |fath| && 0 <= z < |fath| && fath[y] == fath[z]
    requires Under(fath, x, y) && Under(fath, x, z)
    ensures y == z
    decreases if x == -1 then 0 else |fath| - x
  {
    if x == y {
      UnderSelfSon(fath, y, z);
    } else if x == z {
      UnderSelfSon(fath, z, y);
    } else {
      SonsApart(fath, fath[x], y, z);
    }
  }

  lemma UnderSelfSon(fath: Tree, y: int, z: int)
    requires 0 <= y < |fath| && 0 <= z < |fath| && fath[y] == fath[z] && Under(fath, y, z)
    ensures y == z
  {
    UnderRank(fath, y, z);
    if y != z {
      UnderRank(fath, fath[y], z);
    }
  }

  // ----- visiting the sons of a node in order -----

  /** Node `x` is under one of the first `i` sons of `r`. */
  ghost predicate UnderSons(fath: Tree, x: int, r: int, i: int)
    requires -1 <= x < |fath| && 0 <= i <= |AllSons(fath, r)|
  {
    exists a :: 0 <= a < i && Under(fath, x, AllSons(fath, r)[a])
  }

  lemma SonOf(fath: Tree, r: int, i: int)
    requires 0 <= i < |AllSons(fath, r)|
    ensures 0 <= AllSons(fath, r)[i] < |fath| && fath[AllSons(fath, r)[i]] == r
    ensures -1 <= r < |fath| ==>
      Under(fath, AllSons(fath, r)[i], r) && Rank(|fath|, AllSons(fath, r)[i]) < Rank(|fath|, r)
  {
    SonsMembers(fath, r, |fath|);
    assert AllSons(fath, r)[i] in AllSons(fath, r);
  }

  /** Son `i` adds its own subtree, which the sons before it did not hold. */
  lemma SonVisited(fath: Tree, r: int, i: int, x: int)
    requires -1 <= r < |fath| && 0 <= i < |AllSons(fath, r)| && -1 <= x < |fath|
    ensures UnderSons(fath, x, r, i + 1) <==> UnderSons(fath, x, r, i) || Under(fath, x, AllSons(fath, r)[i])
    ensures Under(fath, x, AllSons(fath, r)[i]) ==> !UnderSons(fath, x, r, i) && x != r && Under(fath, x, r)
  {
    hide Sons, Level;
    var sons := AllSons(fath, r);
    SonOf(fath, r, i);
    if Under(fath, x, sons[i]) {
      UnderRank(fath, x, sons[i]);
      UnderTransitive(fath, x, sons[i], r);
      if UnderSons(fath, x, r, i) {
        var a :| 0 <= a < i && Under(fath, x, sons[a]);
        SonOf(fath, r, a);
        SonsApart(fath, x, sons[a], sons[i]);
        SonsMembers(fath, r, |fath|);
      }
    }
  }

  lemma SonsVisited(fath: Tree, r: int, x: int)
    requires -1 <= r < |fath| && -1 <= x < |fath|
    ensures Under(fath, x, r) <==> x == r || UnderSons(fath, x, r, |AllSons(fath, r)|)
  {
    hide Sons, Level;
    var sons := AllSons(fath, r);
    if Under(fath, x, r) && x != r {
      var y := UnderSon(fath, x, r);
      SonsMembers(fath, r, |fath|);
      assert y in sons;
    } else if UnderSons(fath, x, r, |sons|) {
      var a :| 0 <= a < |sons| && Under(fath, x, sons[a]);
      SonOf(fath, r, a);
      UnderTransitive(fath, x, sons[a], r);
    }
  }

  lemma VisitNone(fath: Tree, r: int)
    ensures forall x :: -1 <= x < |fath| ==> !UnderSons(fath, x, r, 0)
  {
  }

  lemma VisitSon(fath: Tree, r: int, i: int)
    requires -1 <= r < |fath| && 0 <= i < |AllSons(fath, r)|
    ensures forall x {:trigger Under(fath, x, AllSons(fath, r)[i])} {:trigger UnderSons(fath, x, r, i + 1)} ::
        -1 <= x < |fath| ==>
      && (UnderSons(fath, x, r, i + 1) <==> UnderSons(fath, x, r, i) || Under(fath, x, AllSons(fath, r)[i]))
      && (Under(fath, x, AllSons(fath, r)[i]) ==> !UnderSons(fath, x, r, i) && x != r && Under(fath, x, r))
  {
    hide UnderSons, Under, AllSons;
    forall x | -1 <= x < |fath|
      ensures UnderSons(fath, x, r, i + 1) <==> UnderSons(fath, x, r, i) || Under(fath, x, AllSons(fath, r)[i])
      ensures Under(fath, x, AllSons(fath, r)[i]) ==> !UnderSons(fath, x, r, i) && x != r && Under(fath, x, r)
    {
      SonVisited(fath, r, i, x);
    }
  }

  lemma VisitDone(fath: Tree, r: int)
    requires -1 <= r < |fath|
    ensures forall x {:trigger Under(fath, x, r)} :: -1 <= x < |fath| ==>
      (Under(fath, x, r) <==> x == r || UnderSons(fath, x, r, |AllSons(fath, r)|))
  {
    hide UnderSons, Under, AllSons;
    forall x | -1 <= x < |fath|
      ensures Under(fath, x, r) <==> x == r || UnderSons(fath, x, r, |AllSons(fath, r)|)
    {
      SonsVisited(fath, r, x);
    }
  }
}
