/** From the schedule to what each process stores: the owners the simulation chose, the
    rows of the symbol, and the local solver matrix. */
module Distribute {
  import opened Symbol
  import opened Simu
  import opened SimuRun
  import opened SolverRecv
  import opened SolverLocal
  import opened SolverGen
  import Rowtab

  /** Cluster that the simulation gave to column block `i`. */
  ghost function ClusterOf(simu: SimuCtrl, i: int): int
    reads simu
    requires simu.Static() && |simu.ownetab| == simu.s.CblkNbr() && 0 <= i < |simu.ownetab|
  {
    var p := simu.ownetab[i];
    if 0 <= p < |simu.c.core2clust| then simu.c.core2clust[p] else -1
  }

  /** The local matrix of process `clustnum` once every column block is mapped. */
  method BuildSolver(simu: SimuCtrl, t2d: seq<bool>, clustnum: int) returns (m: SolverMatrix)
    requires simu.Static() && simu.Owners() && simu.AllMapped() && |t2d| == simu.s.CblkNbr()
    ensures fresh(m) && m.Complete() && m.l.d.s == simu.s && m.l.d.clustnum == clustnum && m.l.t2d == t2d
    ensures Registered(m.l.d, m.l.f, |m.l.f|)
    ensures |m.l.d.owner| == simu.s.CblkNbr() && forall i :: 0 <= i < |m.l.d.owner| ==>
      m.l.d.owner[i] == ClusterOf(simu, i)
  {
    hide BrowOK, AllHaveCands, Registered;
    var s: FilledSymb := simu.s;
    var owner := [];
    for i := 0 to s.CblkNbr()
      invariant |owner| == i && forall k :: 0 <= k < i ==> owner[k] == ClusterOf(simu, k)
    {
      DiagOwner(simu, i);
      owner := owner + [simu.ownerclust[s.cblktab[i].bloknum]];
    }
    var rows := Rowtab.BuildRows(s);
    var d: Dist := Distrib(s, owner, rows, clustnum);
    m := SolverMatrixGen(d, t2d);
  }

  /** The cluster of a column block is recorded at its diagonal block. */
  lemma DiagOwner(simu: SimuCtrl, i: int)
    requires simu.Static() && simu.Owners() && simu.AllMapped() && 0 <= i < simu.s.CblkNbr()
    ensures 0 <= simu.s.First(i) < |simu.ownerclust| && simu.ownerclust[simu.s.First(i)] == ClusterOf(simu, i)
  {
    assert simu.s.Bounded(i);
    assert simu.OwnerClustOK(simu.s.First(i));
    assert IsCand(simu.c, i, simu.ownetab[i]);
  }
}
