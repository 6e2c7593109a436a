/** Counting the columns of a distributed matrix: each process counts what it holds of the
    columns it owns, sends the rest to their owners, and counts what it receives. */
module BcscDist {
  import opened BcscFill
  import opened Bcsc

  /** An entry sent: its new row and column, and the block of values that goes with it. */
  datatype Msg = Msg(igp: int, jgp: int, k: int)

  /** What goes from one process to another: for the column, for the row, or for both. */
  datatype Bufs = Bufs(a: seq<Msg>, at: seq<Msg>, aat: seq<Msg>)

  /** A matrix whose columns are held by processes, and the owner of each permuted node. */
  datatype World = World(p: Problem, owner: seq<int>, nprocs: int, held: seq<seq<int>>)

  ghost predicate HeldOK(w: World, q: int)
    requires 0 <= q < |w.held|
  {
    forall x :: 0 <= x < |w.held[q]| ==> 0 <= w.held[q][x] < w.p.spm.n
  }

  ghost predicate WorldOK(w: World) {
    && w.p.Valid() && |w.owner| == w.p.spm.n && w.nprocs > 0 && |w.held| == w.nprocs
    && (forall i :: 0 <= i < |w.owner| ==> 0 <= w.owner[i] < w.nprocs)
    && (forall q :: 0 <= q < w.nprocs ==> HeldOK(w, q))
  }

  type Spread = w: World | WorldOK(w)
    witness World(Problem(Spm(0, 1, 0, General, [0], [], []), []), [], 1, [[]])

  /** Owner of unknown `i`, once permuted. */
  function Owner(w: Spread, i: int): (q: int)
    requires 0 <= i < w.p.spm.n
    ensures 0 <= q < w.nprocs
  {
    w.owner[w.p.permtab[i]]
  }

  predicate Sym(w: World) {
    w.p.spm.mtxtype != General
  }

  ghost predicate IsEntry(w: Spread, j: int, k: int) {
    0 <= j < w.p.spm.n && 0 <= k < |w.p.spm.rowptr| && 0 <= w.p.Row(k) < w.p.spm.n
  }

  // ----- where an entry goes -----

  /** What process `q`, which holds entry `k` of column `j`, sends for it to process `d`. */
  ghost function EntryMsgs(w: Spread, q: int, d: int, j: int, k: int): Bufs
    requires IsEntry(w, j, k)
  {
    var i := w.p.Row(k);
    var oi, oj := Owner(w, i), Owner(w, j);
    var msg := [Msg(w.p.permtab[i], w.p.permtab[j], k)];
    var skip := Sym(w) && i == j;
    Bufs(if d == oj != q && (skip || oi == q || oi != oj) then msg else [],
         if d == oi != q && !skip && (oj == q || oi != oj) then msg else [],
         if d == oi == oj != q && !skip then msg else [])
  }

  /** What process `q` adds at once to its node `c` for the row of entry `k` of column `j`. */
  ghost function LocalRow(w: Spread, q: int, c: int, j: int, k: int): int
    requires IsEntry(w, j, k)
  {
    if Sym(w) && w.p.Row(k) != j && Owner(w, w.p.Row(k)) == q && w.p.permtab[w.p.Row(k)] == c then w.p.spm.dof else 0
  }

  function Append(x: Bufs, y: Bufs): Bufs {
    Bufs(x.a + y.a, x.at + y.at, x.aat + y.aat)
  }

  lemma EntryOf(w: Spread, j: int, k: int)
    requires 0 <= j < w.p.spm.n && w.p.First(j) <= k < w.p.First(j + 1)
    ensures IsEntry(w, j, k)
  {
    assert w.p.ColumnOK(j);
  }

  ghost function ColumnMsgs(w: Spread, q: int, d: int, j: int, k: int): Bufs
    requires 0 <= j < w.p.spm.n && w.p.First(j) <= k <= w.p.First(j + 1)
    decreases k - w.p.First(j)
  {
    if k == w.p.First(j) then Bufs([], [], []) else
    EntryOf(w, j, k - 1);
    Append(ColumnMsgs(w, q, d, j, k - 1), EntryMsgs(w, q, d, j, k - 1))
  }

  ghost function ColumnRows(w: Spread, q: int, c: int, j: int, k: int): int
    requires 0 <= j < w.p.spm.n && w.p.First(j) <= k <= w.p.First(j + 1)
    decreases k - w.p.First(j)
  {
    if k == w.p.First(j) then 0 else
    EntryOf(w, j, k - 1);
    ColumnRows(w, q, c, j, k - 1) + LocalRow(w, q, c, j, k - 1)
  }

  /** What process `q` adds at once to its node `c` for column `j` itself. */
  ghost function LocalColumn(w: Spread, q: int, c: int, j: int): int
    requires 0 <= j < w.p.spm.n
  {
    if Owner(w, j) == q && w.p.permtab[j] == c then w.p.spm.dof * (w.p.First(j + 1) - w.p.First(j)) else 0
  }

  /** Sent by `q` to `d` for the first `m` columns it holds. */
  ghost function AllMsgs(w: Spread, q: int, d: int, m: int): Bufs
    requires 0 <= q < w.nprocs && 0 <= m <= |w.held[q]|
  {
    if m == 0 then Bufs([], [], []) else
    assert HeldOK(w, q);
    var j := w.held[q][m - 1];
    assert w.p.ColumnOK(j);
    Append(AllMsgs(w, q, d, m - 1), ColumnMsgs(w, q, d, j, w.p.First(j + 1)))
  }

  /** Counted at once by `q` in its node `c` for the first `m` columns it holds. */
  ghost function LocalCount(w: Spread, q: int, c: int, m: int): int
    requires 0 <= q < w.nprocs && 0 <= m <= |w.held[q]|
  {
    if m == 0 then 0 else
    assert HeldOK(w, q);
    var j := w.held[q][m - 1];
    assert w.p.ColumnOK(j);
    LocalCount(w, q, c, m - 1) + LocalColumn(w, q, c, j) + ColumnRows(w, q, c, j, w.p.First(j + 1))
  }

  // ----- counting -----

  /** Amounts of indices sent to each process: two for each entry. */
  ghost predicate Announced(cntA: seq<int>, cntAt: seq<int>, cntAAt: seq<int>, d: int, b: Bufs)
    requires |cntA| == |cntAt| == |cntAAt| && 0 <= d < |cntA|
  {
    cntA[d] == 2 * |b.a| && cntAt[d] == 2 * |b.at| && cntAAt[d] == 2 * |b.aat|
  }

  /** One entry of a column owned by another process. */
  method CountRemote(w: Spread, q: int, j: int, k: int, globcol: array<int>, cntA: array<int>, cntAt: array<int>,
          cntAAt: array<int>)
    requires IsEntry(w, j, k) && Owner(w, j) != q && globcol.Length == w.p.spm.n
    requires cntA.Length == cntAt.Length == cntAAt.Length == w.nprocs
    requires cntA != cntAt && cntA != cntAAt && cntAt != cntAAt && globcol != cntA && globcol != cntAt
    requires globcol != cntAAt
    modifies globcol, cntA, cntAt, cntAAt
    ensures forall c :: 0 <= c < globcol.Length ==> globcol[c] == old(globcol[c]) + LocalRow(w, q, c, j, k)
    ensures forall d :: 0 <= d < w.nprocs ==> cntA[d] == old(cntA[d]) + 2 * |EntryMsgs(w, q, d, j, k).a|
    ensures forall d :: 0 <= d < w.nprocs ==> cntAt[d] == old(cntAt[d]) + 2 * |EntryMsgs(w, q, d, j, k).at|
    ensures forall d :: 0 <= d < w.nprocs ==> cntAAt[d] == old(cntAAt[d]) + 2 * |EntryMsgs(w, q, d, j, k).aat|
  {
    var ownerj := Owner(w, j);
    var ig := w.p.spm.rowptr[k] - w.p.spm.baseval;
    if Sym(w) && ig == j {
      cntA[ownerj] := cntA[ownerj] + 2;
      return;
    }
    var igp := w.p.permtab[ig];
    var owneri := w.owner[igp];
    if owneri != q {
      if owneri == ownerj {
        cntAAt[owneri] := cntAAt[owneri] + 2;
      } else {
        cntAt[owneri] := cntAt[owneri] + 2;
        cntA[ownerj] := cntA[ownerj] + 2;
      }
    } else {
      cntA[ownerj] := cntA[ownerj] + 2;
      if Sym(w) {
        globcol[igp] := globcol[igp] + w.p.spm.dof;
      }
    }
  }

  /** One entry of a column owned here. */
  method CountOwned(w: Spread, q: int, j: int, k: int, globcol: array<int>, cntA: array<int>, cntAt: array<int>,
          cntAAt: array<int>)
    requires IsEntry(w, j, k) && Owner(w, j) == q && globcol.Length == w.p.spm.n
    requires cntA.Length == cntAt.Length == cntAAt.Length == w.nprocs && globcol != cntAt && cntA != cntAt
    requires cntAt != cntAAt
    modifies globcol, cntAt
    ensures forall c :: 0 <= c < globcol.Length ==> globcol[c] == old(globcol[c]) + LocalRow(w, q, c, j, k)
    ensures forall d :: 0 <= d < w.nprocs ==> cntAt[d] == old(cntAt[d]) + 2 * |EntryMsgs(w, q, d, j, k).at|
    ensures forall d :: 0 <= d < w.nprocs ==> |EntryMsgs(w, q, d, j, k).a| == 0 == |EntryMsgs(w, q, d, j, k).aat|
  {
    var ig := w.p.spm.rowptr[k] - w.p.spm.baseval;
    if Sym(w) && ig == j {
      return;
    }
    var igp := w.p.permtab[ig];
    var owneri := w.owner[igp];
    if owneri != q {
      cntAt[owneri] := cntAt[owneri] + 2;
    } else if Sym(w) {
      globcol[igp] := globcol[igp] + w.p.spm.dof;
    }
  }

  /** One column that process `q` holds. */
  method CountColumn(w: Spread, q: int, j: int, globcol: array<int>, cntA: array<int>, cntAt: array<int>,
          cntAAt: array<int>)
    requires 0 <= j < w.p.spm.n && globcol.Length == w.p.spm.n
    requires cntA.Length == cntAt.Length == cntAAt.Length == w.nprocs
    requires cntA != cntAt && cntA != cntAAt && cntAt != cntAAt && globcol != cntA && globcol != cntAt
    requires globcol != cntAAt
    modifies globcol, cntA, cntAt, cntAAt
    ensures w.p.ColumnOK(j)
    ensures forall c :: 0 <= c < globcol.Length ==>
      globcol[c] == old(globcol[c]) + LocalColumn(w, q, c, j) + ColumnRows(w, q, c, j, w.p.First(j + 1))
    ensures forall d :: 0 <= d < w.nprocs ==> cntA[d] == old(cntA[d]) + 2 * |ColumnMsgs(w, q, d, j, w.p.First(j + 1)).a|
    ensures forall d :: 0 <= d < w.nprocs ==>
      cntAt[d] == old(cntAt[d]) + 2 * |ColumnMsgs(w, q, d, j, w.p.First(j + 1)).at|
    ensures forall d :: 0 <= d < w.nprocs ==>
      cntAAt[d] == old(cntAAt[d]) + 2 * |ColumnMsgs(w, q, d, j, w.p.First(j + 1)).aat|
  {
    hide EntryMsgs, LocalRow;
    assert w.p.ColumnOK(j);
    var jgp := w.p.permtab[j];
    var ownerj := w.owner[jgp];
    if ownerj == q {
      globcol[jgp] := globcol[jgp] + w.p.spm.dof * (w.p.First(j + 1) - w.p.First(j));
    }
    ghost var was := globcol[..];
    assert forall c :: 0 <= c < globcol.Length ==> was[c] == old(globcol[c]) + LocalColumn(w, q, c, j);
    for k := w.p.First(j) to w.p.First(j + 1)
      invariant forall c :: 0 <= c < globcol.Length ==> globcol[c] == was[c] + ColumnRows(w, q, c, j, k)
      invariant forall d :: 0 <= d < w.nprocs ==> cntA[d] == old(cntA[d]) + 2 * |ColumnMsgs(w, q, d, j, k).a|
      invariant forall d :: 0 <= d < w.nprocs ==> cntAt[d] == old(cntAt[d]) + 2 * |ColumnMsgs(w, q, d, j, k).at|
      invariant forall d :: 0 <= d < w.nprocs ==> cntAAt[d] == old(cntAAt[d]) + 2 * |ColumnMsgs(w, q, d, j, k).aat|
    {
      EntryOf(w, j, k);
      if ownerj == q {
        CountOwned(w, q, j, k, globcol, cntA, cntAt, cntAAt);
      } else {
        CountRemote(w, q, j, k, globcol, cntA, cntAt, cntAAt);
      }
    }
  }

  /** What process `q` counts at once, and the amounts it announces to every process. */
  method CountHeld(w: Spread, q: int, globcol: array<int>, cntA: array<int>, cntAt: array<int>, cntAAt: array<int>)
    requires 0 <= q < w.nprocs && globcol.Length == w.p.spm.n
    requires cntA.Length == cntAt.Length == cntAAt.Length == w.nprocs
    requires cntA != cntAt && cntA != cntAAt && cntAt != cntAAt && globcol != cntA && globcol != cntAt
    requires globcol != cntAAt
    requires forall c :: 0 <= c < globcol.Length ==> globcol[c] == 0
    requires forall d :: 0 <= d < w.nprocs ==> cntA[d] == 0 && cntAt[d] == 0 && cntAAt[d] == 0
    modifies globcol, cntA, cntAt, cntAAt
    ensures forall c :: 0 <= c < globcol.Length ==> globcol[c] == LocalCount(w, q, c, |w.held[q]|)
    ensures forall d :: 0 <= d < w.nprocs ==>
      Announced(cntA[..], cntAt[..], cntAAt[..], d, AllMsgs(w, q, d, |w.held[q]|))
  {
    hide ColumnMsgs, ColumnRows, LocalColumn;
    assert HeldOK(w, q);
    for jl := 0 to |w.held[q]|
      invariant forall c :: 0 <= c < globcol.Length ==> globcol[c] == LocalCount(w, q, c, jl)
      invariant forall d :: 0 <= d < w.nprocs ==> Announced(cntA[..], cntAt[..], cntAAt[..], d, AllMsgs(w, q, d, jl))
    {
      CountColumn(w, q, w.held[q][jl], globcol, cntA, cntAt, cntAAt);
    }
  }

  // ----- storing -----

  /** The first `n` places of the buffer hold the messages. */
  ghost predicate Part(buf: seq<Msg>, n: int, msgs: seq<Msg>) {
    n == |msgs| <= |buf| && buf[..n] == msgs
  }

  ghost predicate Le(x: Bufs, y: Bufs) {
    x.a <= y.a && x.at <= y.at && x.aat <= y.aat
  }

  /** For each process, a buffer of half as many places as announced indices. */
  method AllocateBuf(cnt: array<int>) returns (buf: array<seq<Msg>>)
    requires forall d :: 0 <= d < cnt.Length ==> cnt[d] >= 0
    ensures fresh(buf) && buf.Length == cnt.Length && forall d :: 0 <= d < cnt.Length ==> |buf[d]| == cnt[d] / 2
  {
    buf := new seq<Msg>[cnt.Length](_ => []);
    for d := 0 to cnt.Length
      invariant forall e :: 0 <= e < d ==> |buf[e]| == cnt[e] / 2
    {
      buf[d] := seq(cnt[d] / 2, _ => Msg(0, 0, 0));
    }
  }

  /** Buffers sent by one process, with how far each is filled. */
  class SendBuffers {
    const a: array<seq<Msg>>
    const at: array<seq<Msg>>
    const aat: array<seq<Msg>>
    const nA: array<int>
    const nAt: array<int>
    const nAAt: array<int>

    ghost predicate Apart(n: int) {
      && a.Length == at.Length == aat.Length == nA.Length == nAt.Length == nAAt.Length == n
      && a != at && a != aat && at != aat && nA != nAt && nA != nAAt && nAt != nAAt
    }

    ghost predicate HoldsFor(d: int, done: Bufs, total: Bufs)
      requires 0 <= d < a.Length && Apart(a.Length)
      reads a, at, aat, nA, nAt, nAAt
    {
      && Part(a[d], nA[d], done.a) && |a[d]| == |total.a|
      && Part(at[d], nAt[d], done.at) && |at[d]| == |total.at|
      && Part(aat[d], nAAt[d], done.aat) && |aat[d]| == |total.aat|
    }

    /** Buffers of the announced sizes, filled with `done`. */
    ghost predicate Holds(done: seq<Bufs>, total: seq<Bufs>)
      reads a, at, aat, nA, nAt, nAAt
    {
      && |done| == |total| && Apart(|total|)
      && (forall d :: 0 <= d < |total| ==> HoldsFor(d, done[d], total[d]))
    }

    /** Empty buffers of the sizes counted: half the announced number of indices. */
    constructor (cntA: array<int>, cntAt: array<int>, cntAAt: array<int>, ghost total: seq<Bufs>, ghost none: seq<Bufs>)
      requires cntA.Length == cntAt.Length == cntAAt.Length == |total| == |none|
      requires forall d :: 0 <= d < |total| ==>
        Announced(cntA[..], cntAt[..], cntAAt[..], d, total[d]) && none[d] == Bufs([], [], [])
      ensures fresh(a) && fresh(at) && fresh(aat) && fresh(nA) && fresh(nAt) && fresh(nAAt)
      ensures Holds(none, total)
    {
      var n := cntA.Length;
      forall d | 0 <= d < n
        ensures cntA[d] == 2 * |total[d].a| && cntAt[d] == 2 * |total[d].at| && cntAAt[d] == 2 * |total[d].aat|
      {
        assert Announced(cntA[..], cntAt[..], cntAAt[..], d, total[d]);
      }
      var buf := AllocateBuf(cntA);
      a := buf;
      buf := AllocateBuf(cntAt);
      at := buf;
      buf := AllocateBuf(cntAAt);
      aat := buf;
      nA := new int[n](_ => 0);
      nAt := new int[n](_ => 0);
      nAAt := new int[n](_ => 0);
    }

    method PutA(d: int, msg: Msg, ghost done: seq<Bufs>, ghost total: seq<Bufs>)
      requires Holds(done, total) && 0 <= d < |done| && done[d].a + [msg] <= total[d].a
      modifies a, nA
      ensures Holds(done[d := done[d].(a := done[d].a + [msg])], total)
    {
      a[d] := a[d][nA[d] := msg];
      nA[d] := nA[d] + 1;
    }

    method PutAt(d: int, msg: Msg, ghost done: seq<Bufs>, ghost total: seq<Bufs>)
      requires Holds(done, total) && 0 <= d < |done| && done[d].at + [msg] <= total[d].at
      modifies at, nAt
      ensures Holds(done[d := done[d].(at := done[d].at + [msg])], total)
    {
      at[d] := at[d][nAt[d] := msg];
      nAt[d] := nAt[d] + 1;
    }

    method PutAAt(d: int, msg: Msg, ghost done: seq<Bufs>, ghost total: seq<Bufs>)
      requires Holds(done, total) && 0 <= d < |done| && done[d].aat + [msg] <= total[d].aat
      modifies aat, nAAt
      ensures Holds(done[d := done[d].(aat := done[d].aat + [msg])], total)
    {
      aat[d] := aat[d][nAAt[d] := msg];
      nAAt[d] := nAAt[d] + 1;
    }
  }

  /** The messages of one entry have their places. */
  ghost predicate HasRoom(w: Spread, q: int, j: int, k: int, done: seq<Bufs>, total: seq<Bufs>)
    requires IsEntry(w, j, k)
  {
    && |done| == |total| == w.nprocs
    && (forall d :: 0 <= d < w.nprocs ==> Le(Append(done[d], EntryMsgs(w, q, d, j, k)), total[d]))
  }

  ghost predicate IsNext(w: Spread, q: int, j: int, k: int, done: seq<Bufs>, next: seq<Bufs>)
    requires IsEntry(w, j, k)
  {
    |next| == |done| == w.nprocs && forall d :: 0 <= d < w.nprocs ==>
        next[d] == Append(done[d], EntryMsgs(w, q, d, j, k))
  }

  /** An entry of a column owned by another process. */
  method StoreRemote(w: Spread, q: int, j: int, k: int, b: SendBuffers, ghost done: seq<Bufs>, ghost total: seq<Bufs>)
      returns (ghost next: seq<Bufs>)
    requires IsEntry(w, j, k) && Owner(w, j) != q && b.Holds(done, total) && HasRoom(w, q, j, k, done, total)
    modifies b.a, b.at, b.aat, b.nA, b.nAt, b.nAAt
    ensures IsNext(w, q, j, k, done, next) && b.Holds(next, total)
  {
    hide SendBuffers.Holds;
    next := done;
    var ig := w.p.spm.rowptr[k] - w.p.spm.baseval;
    var igp, jgp := w.p.permtab[ig], w.p.permtab[j];
    var owneri, ownerj := w.owner[igp], w.owner[jgp];
    var msg := Msg(igp, jgp, k);
    if Sym(w) && ig == j {
      b.PutA(ownerj, msg, next, total);
      next := next[ownerj := next[ownerj].(a := next[ownerj].a + [msg])];
    } else if owneri == ownerj {
      b.PutAAt(ownerj, msg, next, total);
      next := next[ownerj := next[ownerj].(aat := next[ownerj].aat + [msg])];
    } else {
      if owneri != q {
        b.PutAt(owneri, msg, next, total);
        next := next[owneri := next[owneri].(at := next[owneri].at + [msg])];
      }
      b.PutA(ownerj, msg, next, total);
      next := next[ownerj := next[ownerj].(a := next[ownerj].a + [msg])];
    }
  }

  /** An entry of a column owned here. */
  method StoreOwned(w: Spread, q: int, j: int, k: int, b: SendBuffers, ghost done: seq<Bufs>, ghost total: seq<Bufs>)
      returns (ghost next: seq<Bufs>)
    requires IsEntry(w, j, k) && Owner(w, j) == q && b.Holds(done, total) && HasRoom(w, q, j, k, done, total)
    modifies b.at, b.nAt
    ensures IsNext(w, q, j, k, done, next) && b.Holds(next, total)
  {
    hide SendBuffers.Holds;
    next := done;
    var ig := w.p.spm.rowptr[k] - w.p.spm.baseval;
    if Sym(w) && ig == j {
      return;
    }
    var igp, jgp := w.p.permtab[ig], w.p.permtab[j];
    var owneri := w.owner[igp];
    if owneri != q {
      b.PutAt(owneri, Msg(igp, jgp, k), next, total);
      next := next[owneri := next[owneri].(at := next[owneri].at + [Msg(igp, jgp, k)])];
    }
  }

  // ----- every message has its place -----

  lemma LeMore(x: Bufs, y: Bufs, z: Bufs)
    requires Le(x, y)
    ensures Le(x, Append(y, z))
  {
  }

  lemma AppendLe(x: Bufs, y: Bufs, z: Bufs, total: Bufs)
    requires Le(y, z) && Le(Append(x, z), total)
    ensures Le(Append(x, y), total)
  {
    assert x.a + z.a == (x.a + y.a) + z.a[|y.a|..];
    assert x.at + z.at == (x.at + y.at) + z.at[|y.at|..];
    assert x.aat + z.aat == (x.aat + y.aat) + z.aat[|y.aat|..];
  }

  lemma AppendAssoc(x: Bufs, y: Bufs, z: Bufs)
    ensures Append(Append(x, y), z) == Append(x, Append(y, z))
  {
  }

  lemma {:induction false} ColumnMsgsGrow(w: Spread, q: int, d: int, j: int, k: int, l: int)
    requires 0 <= j < w.p.spm.n && w.p.First(j) <= k <= l <= w.p.First(j + 1)
    ensures Le(ColumnMsgs(w, q, d, j, k), ColumnMsgs(w, q, d, j, l))
    decreases l - w.p.First(j)
  {
    hide EntryMsgs, Append, Le;
    if k < l {
      ColumnMsgsGrow(w, q, d, j, k, l - 1);
      EntryOf(w, j, l - 1);
      LeMore(ColumnMsgs(w, q, d, j, k), ColumnMsgs(w, q, d, j, l - 1), EntryMsgs(w, q, d, j, l - 1));
    } else {
      LeSelf(ColumnMsgs(w, q, d, j, k));
    }
  }

  lemma LeSelf(x: Bufs)
    ensures Le(x, x)
  {
  }

  lemma {:induction false} AllMsgsGrow(w: Spread, q: int, d: int, m: int, n: int)
    requires 0 <= q < w.nprocs && 0 <= m <= n <= |w.held[q]|
    ensures Le(AllMsgs(w, q, d, m), AllMsgs(w, q, d, n))
    decreases n
  {
    hide ColumnMsgs, Append, Le;
    if m < n {
      AllMsgsGrow(w, q, d, m, n - 1);
      assert HeldOK(w, q);
      assert w.p.ColumnOK(w.held[q][n - 1]);
      LeMore(AllMsgs(w, q, d, m), AllMsgs(w, q, d, n - 1),
             ColumnMsgs(w, q, d, w.held[q][n - 1], w.p.First(w.held[q][n - 1] + 1)));
    } else {
      LeSelf(AllMsgs(w, q, d, m));
    }
  }

  /** The messages to `d` stored before entry `k` of the column held at `jl`. */
  ghost function StoredBefore(w: Spread, q: int, d: int, jl: int, j: int, k: int): Bufs
    requires 0 <= q < w.nprocs && 0 <= jl < |w.held[q]| && 0 <= j < w.p.spm.n && w.p.First(j) <= k <= w.p.First(j + 1)
  {
    Append(AllMsgs(w, q, d, jl), ColumnMsgs(w, q, d, j, k))
  }

  /** One more entry has its place. */
  lemma EntryHasRoom(w: Spread, q: int, d: int, jl: int, j: int, k: int)
    requires 0 <= q < w.nprocs && 0 <= jl < |w.held[q]| && j == w.held[q][jl]
    requires 0 <= j < w.p.spm.n && w.p.First(j) <= k < w.p.First(j + 1) && IsEntry(w, j, k)
    ensures Append(StoredBefore(w, q, d, jl, j, k), EntryMsgs(w, q, d, j, k)) == StoredBefore(w, q, d, jl, j, k + 1)
    ensures Le(StoredBefore(w, q, d, jl, j, k + 1), AllMsgs(w, q, d, |w.held[q]|))
  {
    hide EntryMsgs, Append, Le;
    assert w.p.ColumnOK(j);
    AppendAssoc(AllMsgs(w, q, d, jl), ColumnMsgs(w, q, d, j, k), EntryMsgs(w, q, d, j, k));
    ColumnMsgsGrow(w, q, d, j, k + 1, w.p.First(j + 1));
    AllMsgsGrow(w, q, d, jl + 1, |w.held[q]|);
    AppendLe(AllMsgs(w, q, d, jl), ColumnMsgs(w, q, d, j, k + 1), ColumnMsgs(w, q, d, j, w.p.First(j + 1)),
             AllMsgs(w, q, d, |w.held[q]|));
  }

  /** All that process `q` sends, process by process. */
  ghost function Sent(w: Spread, q: int, m: int, n: nat): (r: seq<Bufs>)
    requires 0 <= q < w.nprocs && 0 <= m <= |w.held[q]|
    ensures |r| == n && forall d :: 0 <= d < n ==> r[d] == AllMsgs(w, q, d, m)
  {
    if n == 0 then [] else Sent(w, q, m, n - 1) + [AllMsgs(w, q, n - 1, m)]
  }

  /** Fill every announced buffer. */
  method StoreData(w: Spread, q: int, cntA: array<int>, cntAt: array<int>, cntAAt: array<int>) returns (b: SendBuffers)
    requires 0 <= q < w.nprocs && cntA.Length == cntAt.Length == cntAAt.Length == w.nprocs
    requires forall d :: 0 <= d < w.nprocs ==>
      Announced(cntA[..], cntAt[..], cntAAt[..], d, AllMsgs(w, q, d, |w.held[q]|))
    ensures fresh(b) && b.Apart(w.nprocs)
    ensures forall d :: 0 <= d < w.nprocs ==> Bufs(b.a[d], b.at[d], b.aat[d]) == AllMsgs(w, q, d, |w.held[q]|)
  {
    hide ColumnMsgs, EntryMsgs, AllMsgs, SendBuffers.HoldsFor;
    assert HeldOK(w, q);
    ghost var total := Sent(w, q, |w.held[q]|, w.nprocs);
    ghost var done := Sent(w, q, 0, w.nprocs);
    assert forall d :: 0 <= d < w.nprocs ==> done[d] == Bufs([], [], []) by { NothingSent(w, q); }
    b := new SendBuffers(cntA, cntAt, cntAAt, total, done);
    for jl := 0 to |w.held[q]|
      invariant fresh(b.a) && fresh(b.at) && fresh(b.aat) && fresh(b.nA) && fresh(b.nAt) && fresh(b.nAAt)
      invariant done == Sent(w, q, jl, w.nprocs) && b.Holds(done, total)
    {
      done := StoreColumn(w, q, jl, b, done, total);
    }
    BuffersFull(b, done);
  }

  lemma NothingSent(w: Spread, q: int)
    requires 0 <= q < w.nprocs
    ensures forall d :: AllMsgs(w, q, d, 0) == Bufs([], [], [])
  {
  }

  lemma BuffersFull(b: SendBuffers, total: seq<Bufs>)
    requires b.Holds(total, total)
    ensures forall d :: 0 <= d < |total| ==> Bufs(b.a[d], b.at[d], b.aat[d]) == total[d]
  {
    forall d | 0 <= d < |total|
      ensures Bufs(b.a[d], b.at[d], b.aat[d]) == total[d]
    {
      assert b.HoldsFor(d, total[d], total[d]);
    }
  }

  /** One column that process `q` holds. */
  method StoreColumn(w: Spread, q: int, jl: int, b: SendBuffers, ghost done0: seq<Bufs>, ghost total: seq<Bufs>)
      returns (ghost done: seq<Bufs>)
    requires 0 <= q < w.nprocs && 0 <= jl < |w.held[q]|
    requires done0 == Sent(w, q, jl, w.nprocs) && total == Sent(w, q, |w.held[q]|, w.nprocs) && b.Holds(done0, total)
    modifies b.a, b.at, b.aat, b.nA, b.nAt, b.nAAt
    ensures done == Sent(w, q, jl + 1, w.nprocs) && b.Holds(done, total)
  {
    hide EntryMsgs, SendBuffers.Holds, Append, Sent, Le;
    assert HeldOK(w, q);
    var j := w.held[q][jl];
    assert w.p.ColumnOK(j);
    done := done0;
    NoMore(w, q, j, jl);
    for k := w.p.First(j) to w.p.First(j + 1)
      invariant |done| == w.nprocs && b.Holds(done, total)
      invariant forall d :: 0 <= d < w.nprocs ==> done[d] == StoredBefore(w, q, d, jl, j, k)
    {
      EntryOf(w, j, k);
      forall d | 0 <= d < w.nprocs
        ensures Append(done[d], EntryMsgs(w, q, d, j, k)) == StoredBefore(w, q, d, jl, j, k + 1)
        ensures Le(Append(done[d], EntryMsgs(w, q, d, j, k)), total[d])
      {
        EntryHasRoom(w, q, d, jl, j, k);
      }
      if w.owner[w.p.permtab[j]] == q {
        done := StoreOwned(w, q, j, k, b, done, total);
      } else {
        done := StoreRemote(w, q, j, k, b, done, total);
      }
    }
  }

  lemma NoMore(w: Spread, q: int, j: int, jl: int)
    requires 0 <= q < w.nprocs && 0 <= jl < |w.held[q]| && 0 <= j < w.p.spm.n && w.p.ColumnOK(j)
    ensures forall d :: StoredBefore(w, q, d, jl, j, w.p.First(j)) == AllMsgs(w, q, d, jl)
  {
  }

  // ----- receiving -----

  /** Messages whose column is node `c`. */
  ghost function ColumnsAt(l: seq<Msg>, c: int): int {
    if l == [] then 0 else ColumnsAt(l[..|l| - 1], c) + (if l[|l| - 1].jgp == c then 1 else 0)
  }

  /** Messages whose row is node `c`. */
  ghost function RowsAt(l: seq<Msg>, c: int): int {
    if l == [] then 0 else RowsAt(l[..|l| - 1], c) + (if l[|l| - 1].igp == c then 1 else 0)
  }

  lemma {:induction false} AtJoin(x: seq<Msg>, y: seq<Msg>, c: int)
    ensures ColumnsAt(x + y, c) == ColumnsAt(x, c) + ColumnsAt(y, c)
    ensures RowsAt(x + y, c) == RowsAt(x, c) + RowsAt(y, c)
  {
    if y == [] {
      assert x + y == x;
    } else {
      assert (x + y)[..|x + y| - 1] == x + y[..|y| - 1];
      AtJoin(x, y[..|y| - 1], c);
    }
  }

  ghost function CountedNodes(w: Spread, b: Bufs, c: int): int {
    ColumnsAt(b.a, c) + ColumnsAt(b.aat, c) + (if Sym(w) then RowsAt(b.at, c) + RowsAt(b.aat, c) else 0)
  }

  /** Columns and rows counted from what is received. */
  ghost function Counted(w: Spread, b: Bufs, c: int): int {
    w.p.spm.dof * CountedNodes(w, b, c)
  }

  lemma Distribute(d: int, x: int, y: int)
    ensures d * (x + y) == d * x + d * y
  {
  }

  lemma CountedJoin(w: Spread, x: Bufs, y: Bufs, c: int)
    ensures Counted(w, Append(x, y), c) == Counted(w, x, c) + Counted(w, y, c)
  {
    AtJoin(x.a, y.a, c);
    AtJoin(x.at, y.at, c);
    AtJoin(x.aat, y.aat, c);
    Distribute(w.p.spm.dof, CountedNodes(w, x, c), CountedNodes(w, y, c));
  }

  ghost predicate InNodes(l: seq<Msg>, n: int) {
    forall x :: 0 <= x < |l| ==> 0 <= l[x].igp < n && 0 <= l[x].jgp < n
  }

  /** Add the columns of the messages. */
  method AddColumns(globcol: array<int>, l: seq<Msg>, dof: int)
    requires InNodes(l, globcol.Length)
    modifies globcol
    ensures forall c :: 0 <= c < globcol.Length ==> globcol[c] == old(globcol[c]) + dof * ColumnsAt(l, c)
  {
    for k := 0 to |l|
      invariant forall c :: 0 <= c < globcol.Length ==> globcol[c] == old(globcol[c]) + dof * ColumnsAt(l[..k], c)
    {
      var jgp := l[k].jgp;
      assert l[..k + 1][..k] == l[..k];
      globcol[jgp] := globcol[jgp] + dof;
      forall c | 0 <= c < globcol.Length
        ensures dof * ColumnsAt(l[..k + 1], c) == dof * ColumnsAt(l[..k], c) + (if c == jgp then dof else 0)
      {
        OneMore(dof, ColumnsAt(l[..k], c));
      }
    }
    assert l[..|l|] == l;
  }

  method AddRows(globcol: array<int>, l: seq<Msg>, dof: int)
    requires InNodes(l, globcol.Length)
    modifies globcol
    ensures forall c :: 0 <= c < globcol.Length ==> globcol[c] == old(globcol[c]) + dof * RowsAt(l, c)
  {
    for k := 0 to |l|
      invariant forall c :: 0 <= c < globcol.Length ==> globcol[c] == old(globcol[c]) + dof * RowsAt(l[..k], c)
    {
      var igp := l[k].igp;
      assert l[..k + 1][..k] == l[..k];
      globcol[igp] := globcol[igp] + dof;
      forall c | 0 <= c < globcol.Length
        ensures dof * RowsAt(l[..k + 1], c) == dof * RowsAt(l[..k], c) + (if c == igp then dof else 0)
      {
        OneMore(dof, RowsAt(l[..k], c));
      }
    }
    assert l[..|l|] == l;
  }

  lemma OneMore(dof: int, x: int)
    ensures dof * (x + 1) == dof * x + dof
  {
  }

  /** Add what is received: columns for A, rows of a symmetric matrix for At, both for AAt. */
  method UpdateGlobcol(w: Spread, globcol: array<int>, recv: Bufs)
    requires globcol.Length == w.p.spm.n
    requires InNodes(recv.a, w.p.spm.n) && InNodes(recv.at, w.p.spm.n) && InNodes(recv.aat, w.p.spm.n)
    modifies globcol
    ensures forall c :: 0 <= c < globcol.Length ==> globcol[c] == old(globcol[c]) + Counted(w, recv, c)
  {
    AddColumns(globcol, recv.a, w.p.spm.dof);
    if Sym(w) {
      AddRows(globcol, recv.at, w.p.spm.dof);
    }
    AddColumns(globcol, recv.aat, w.p.spm.dof);
    if Sym(w) {
      AddRows(globcol, recv.aat, w.p.spm.dof);
    }
    forall c | 0 <= c < globcol.Length
      ensures globcol[c] == old(globcol[c]) + Counted(w, recv, c)
    {
      Distribute4(w.p.spm.dof, ColumnsAt(recv.a, c), ColumnsAt(recv.aat, c), RowsAt(recv.at, c), RowsAt(recv.aat, c));
    }
  }

  lemma Distribute4(d: int, x: int, y: int, z: int, t: int)
    ensures d * (x + y + (z + t)) == d * x + d * y + d * z + d * t
    ensures d * (x + y + 0) == d * x + d * y
  {
  }

  // ----- the distributed counts are the shared ones -----

  lemma OneMsg(m: Msg, c: int)
    ensures ColumnsAt([m], c) == (if m.jgp == c then 1 else 0) && RowsAt([m], c) == (if m.igp == c then 1 else 0)
    ensures ColumnsAt([], c) == 0 == RowsAt([], c)
  {
    assert [m][..0] == [];
  }

  /** Entry `k` of column `j`, held by `q`, counts at the owner `d` of node `c` as it
      does when memory is shared, but for the column part of a column `q` owns. */
  lemma EntryCounted(w: Spread, q: int, d: int, c: int, j: int, k: int)
    requires IsEntry(w, j, k) && 0 <= c < w.p.spm.n && w.owner[c] == d
    ensures (if q == d then LocalRow(w, q, c, j, k) else 0) + Counted(w, EntryMsgs(w, q, d, j, k), c)
         == (if Owner(w, j) != q && w.p.permtab[j] == c then w.p.spm.dof else 0)
          + (if Sym(w) && w.p.Row(k) != j && w.p.permtab[w.p.Row(k)] == c then w.p.spm.dof else 0)
  {
    hide ColumnsAt, RowsAt;
    var i := w.p.Row(k);
    OneMsg(Msg(w.p.permtab[i], w.p.permtab[j], k), c);
    SameNode(w, i, j);
  }

  lemma SameNode(w: Spread, i: int, j: int)
    requires 0 <= i < w.p.spm.n && 0 <= j < w.p.spm.n
    ensures w.p.permtab[i] == w.p.permtab[j] <==> i == j
  {
  }

  lemma NothingCounted(w: Spread, c: int)
    ensures Counted(w, Bufs([], [], []), c) == 0
  {
  }

  lemma {:induction false} ColumnCounted(w: Spread, q: int, d: int, c: int, j: int, k: int)
    requires 0 <= j < w.p.spm.n && w.p.First(j) <= k <= w.p.First(j + 1) && 0 <= c < w.p.spm.n && w.owner[c] == d
    ensures (if q == d then ColumnRows(w, q, c, j, k) else 0) + Counted(w, ColumnMsgs(w, q, d, j, k), c)
         == (if Owner(w, j) != q then InPlaceCount(w.p, c, j, k) else 0) + MirrorCount(w.p, c, j, k)
    decreases k - w.p.First(j)
  {
    hide Counted, EntryMsgs, LocalRow;
    assert w.p.ColumnOK(j);
    NothingCounted(w, c);
    if k > w.p.First(j) {
      ColumnCounted(w, q, d, c, j, k - 1);
      EntryOf(w, j, k - 1);
      EntryCounted(w, q, d, c, j, k - 1);
      CountedJoin(w, ColumnMsgs(w, q, d, j, k - 1), EntryMsgs(w, q, d, j, k - 1), c);
      Product(k - 1 - w.p.First(j), w.p.spm.dof);
    }
  }

  /** What column `j` gives to node `c`, wherever it is held. */
  ghost function ColumnShare(p: Valued, c: int, j: int): int
    requires 0 <= j < p.spm.n
  {
    assert p.ColumnOK(j);
    InPlaceCount(p, c, j, p.First(j + 1)) + MirrorCount(p, c, j, p.First(j + 1))
  }

  lemma WholeColumn(w: Spread, q: int, d: int, c: int, j: int)
    requires 0 <= j < w.p.spm.n && 0 <= c < w.p.spm.n && w.owner[c] == d
    ensures w.p.ColumnOK(j)
    ensures (if q == d then LocalColumn(w, q, c, j) + ColumnRows(w, q, c, j, w.p.First(j + 1)) else 0)
         + Counted(w, ColumnMsgs(w, q, d, j, w.p.First(j + 1)), c) == ColumnShare(w.p, c, j)
  {
    hide Counted, ColumnMsgs, ColumnRows, MirrorCount;
    assert w.p.ColumnOK(j);
    ColumnCounted(w, q, d, c, j, w.p.First(j + 1));
  }

  /** Sum of the shares of the first `m` columns of `l`. */
  ghost function Shares(p: Valued, c: int, l: seq<int>): int {
    if l == [] then 0 else Shares(p, c, l[..|l| - 1]) + ShareOf(p, c, l[|l| - 1])
  }

  ghost function ShareOf(p: Valued, c: int, j: int): int {
    if 0 <= j < p.spm.n then ColumnShare(p, c, j) else 0
  }

  lemma {:induction false} HeldCounted(w: Spread, q: int, d: int, c: int, m: int)
    requires 0 <= q < w.nprocs && 0 <= m <= |w.held[q]| && 0 <= c < w.p.spm.n && w.owner[c] == d
    ensures (if q == d then LocalCount(w, q, c, m) else 0) + Counted(w, AllMsgs(w, q, d, m), c)
        == Shares(w.p, c, w.held[q][..m])
  {
    hide Counted, ColumnMsgs, ColumnRows, LocalColumn, ColumnShare;
    NothingCounted(w, c);
    if m > 0 {
      assert HeldOK(w, q);
      var j := w.held[q][m - 1];
      HeldCounted(w, q, d, c, m - 1);
      WholeColumn(w, q, d, c, j);
      CountedJoin(w, AllMsgs(w, q, d, m - 1), ColumnMsgs(w, q, d, j, w.p.First(j + 1)), c);
      assert w.held[q][..m][..m - 1] == w.held[q][..m - 1];
    }
  }

  lemma {:induction false} SharesJoin(p: Valued, c: int, l: seq<int>, r: seq<int>)
    ensures Shares(p, c, l + r) == Shares(p, c, l) + Shares(p, c, r)
  {
    if r == [] {
      assert l + r == l;
    } else {
      assert (l + r)[..|l + r| - 1] == l + r[..|r| - 1];
      SharesJoin(p, c, l, r[..|r| - 1]);
    }
  }

  /** The last of `l` somewhere in `r`; without it the rest matches. */
  lemma TakeOut(l: seq<int>, r: seq<int>) returns (k: int)
    requires l != [] && multiset(l) == multiset(r)
    ensures 0 <= k < |r| && r[k] == l[|l| - 1] && multiset(r[..k] + r[k + 1..]) == multiset(l[..|l| - 1])
    ensures r == r[..k] + [l[|l| - 1]] + r[k + 1..]
  {
    var x := l[|l| - 1];
    assert l == l[..|l| - 1] + [x];
    assert x in multiset(r);
    k :| 0 <= k < |r| && r[k] == x;
    assert r == r[..k] + [x] + r[k + 1..];
    assert multiset(r) == multiset(r[..k] + r[k + 1..]) + multiset{x};
    assert multiset(l) == multiset(l[..|l| - 1]) + multiset{x};
    SameRest(multiset(r[..k] + r[k + 1..]), multiset(l[..|l| - 1]), x);
  }

  lemma SameRest(a: multiset<int>, b: multiset<int>, x: int)
    requires a + multiset{x} == b + multiset{x}
    ensures a == b
  {
    assert a == (a + multiset{x}) - multiset{x};
    assert b == (b + multiset{x}) - multiset{x};
  }

  /** Sums do not depend on the order. */
  lemma {:induction false} SharesPermuted(p: Valued, c: int, l: seq<int>, r: seq<int>)
    requires multiset(l) == multiset(r)
    ensures Shares(p, c, l) == Shares(p, c, r)
    decreases |l|
  {
    hide Shares;
    assert |l| == |multiset(l)| && |r| == |multiset(r)|;
    if l != [] {
      var x := l[|l| - 1];
      var k := TakeOut(l, r);
      SharesPermuted(p, c, l[..|l| - 1], r[..k] + r[k + 1..]);
      SharesJoin(p, c, r[..k] + [x], r[k + 1..]);
      SharesJoin(p, c, r[..k], [x]);
      SharesJoin(p, c, r[..k], r[k + 1..]);
      SharesJoin(p, c, l[..|l| - 1], [x]);
      assert l == l[..|l| - 1] + [x];
    }
  }

  /** Columns held by the first `n` processes. */
  ghost function AllHeld(w: Spread, n: int): seq<int>
    requires 0 <= n <= w.nprocs
  {
    if n == 0 then [] else AllHeld(w, n - 1) + w.held[n - 1]
  }

  ghost function Range(n: nat): (r: seq<int>)
    ensures |r| == n && forall i :: 0 <= i < n ==> r[i] == i
  {
    if n == 0 then [] else Range(n - 1) + [n - 1]
  }

  /** Every column is held by exactly one process. */
  ghost predicate Partition(w: Spread) {
    multiset(AllHeld(w, w.nprocs)) == multiset(Range(w.p.spm.n))
  }

  lemma {:induction false} SharesOfRange(p: Valued, c: int, m: nat)
    requires m <= p.spm.n
    ensures Shares(p, c, Range(m)) == NodeCount(p, c, m)
  {
    hide InPlaceCount, MirrorCount;
    if m > 0 {
      SharesOfRange(p, c, m - 1);
      assert p.ColumnOK(m - 1);
      assert Range(m)[..m - 1] == Range(m - 1);
    }
  }

  /** All that process `d` receives, sender after sender. */
  ghost function Received(w: Spread, d: int, n: int): Bufs
    requires 0 <= n <= w.nprocs
  {
    if n == 0 then Bufs([], [], []) else Append(Received(w, d, n - 1), AllMsgs(w, n - 1, d, |w.held[n - 1]|))
  }

  lemma {:induction false} ReceivedCounted(w: Spread, d: int, c: int, n: int)
    requires 0 <= n <= w.nprocs && 0 <= d && 0 <= c < w.p.spm.n && w.owner[c] == d
    ensures (if d < n then LocalCount(w, d, c, |w.held[d]|) else 0) + Counted(w, Received(w, d, n), c)
        == Shares(w.p, c, AllHeld(w, n))
  {
    hide Counted, AllMsgs, LocalCount, Shares;
    NothingCounted(w, c);
    NoShares(w.p, c);
    if n > 0 {
      ReceivedCounted(w, d, c, n - 1);
      HeldCounted(w, n - 1, d, c, |w.held[n - 1]|);
      assert w.held[n - 1][..|w.held[n - 1]|] == w.held[n - 1];
      CountedJoin(w, Received(w, d, n - 1), AllMsgs(w, n - 1, d, |w.held[n - 1]|), c);
      SharesJoin(w.p, c, AllHeld(w, n - 1), w.held[n - 1]);
    }
  }

  lemma NoShares(p: Valued, c: int)
    ensures Shares(p, c, []) == 0
  {
  }

  /** However the columns are spread over the processes, what the owner of node `c` counts
      at once and from what it receives is what shared memory counts. */
  lemma DistributedIsShared(w: Spread, c: int)
    requires Partition(w) && 0 <= c < w.p.spm.n
    ensures LocalCount(w, w.owner[c], c, |w.held[w.owner[c]]|) + Counted(w, Received(w, w.owner[c], w.nprocs), c)
         == NodeCount(w.p, c, w.p.spm.n)
  {
    hide Counted, AllMsgs, LocalCount, Shares, NodeCount, Received, AllHeld;
    ReceivedCounted(w, w.owner[c], c, w.nprocs);
    SharesPermuted(w.p, c, AllHeld(w, w.nprocs), Range(w.p.spm.n));
    SharesOfRange(w.p, c, w.p.spm.n);
  }

  ghost predicate BufsIn(b: Bufs, n: int) {
    InNodes(b.a, n) && InNodes(b.at, n) && InNodes(b.aat, n)
  }

  lemma BufsInJoin(x: Bufs, y: Bufs, n: int)
    requires BufsIn(x, n) && BufsIn(y, n)
    ensures BufsIn(Append(x, y), n)
  {
  }

  lemma EntryInNodes(w: Spread, q: int, d: int, j: int, k: int)
    requires IsEntry(w, j, k)
    ensures BufsIn(EntryMsgs(w, q, d, j, k), w.p.spm.n)
  {
  }

  lemma {:induction false} ColumnMsgsInNodes(w: Spread, q: int, d: int, j: int, k: int)
    requires 0 <= j < w.p.spm.n && w.p.First(j) <= k <= w.p.First(j + 1)
    ensures BufsIn(ColumnMsgs(w, q, d, j, k), w.p.spm.n)
    decreases k - w.p.First(j)
  {
    hide EntryMsgs, InNodes, Append;
    if k > w.p.First(j) {
      ColumnMsgsInNodes(w, q, d, j, k - 1);
      EntryOf(w, j, k - 1);
      EntryInNodes(w, q, d, j, k - 1);
      BufsInJoin(ColumnMsgs(w, q, d, j, k - 1), EntryMsgs(w, q, d, j, k - 1), w.p.spm.n);
    } else {
      NoneIn(w.p.spm.n);
    }
  }

  lemma NoneIn(n: int)
    ensures BufsIn(Bufs([], [], []), n)
  {
  }

  lemma {:induction false} AllMsgsInNodes(w: Spread, q: int, d: int, m: int)
    requires 0 <= q < w.nprocs && 0 <= m <= |w.held[q]|
    ensures BufsIn(AllMsgs(w, q, d, m), w.p.spm.n)
  {
    hide ColumnMsgs, InNodes, Append;
    if m > 0 {
      AllMsgsInNodes(w, q, d, m - 1);
      assert HeldOK(w, q);
      var j := w.held[q][m - 1];
      assert w.p.ColumnOK(j);
      ColumnMsgsInNodes(w, q, d, j, w.p.First(j + 1));
      BufsInJoin(AllMsgs(w, q, d, m - 1), ColumnMsgs(w, q, d, j, w.p.First(j + 1)), w.p.spm.n);
    } else {
      NoneIn(w.p.spm.n);
    }
  }

  lemma {:induction false} ReceivedInNodes(w: Spread, d: int, n: int)
    requires 0 <= n <= w.nprocs
    ensures BufsIn(Received(w, d, n), w.p.spm.n)
  {
    hide AllMsgs, InNodes, Append;
    if n > 0 {
      ReceivedInNodes(w, d, n - 1);
      AllMsgsInNodes(w, n - 1, d, |w.held[n - 1]|);
      BufsInJoin(Received(w, d, n - 1), AllMsgs(w, n - 1, d, |w.held[n - 1]|), w.p.spm.n);
    } else {
      NoneIn(w.p.spm.n);
    }
  }

  /** Process `d`: count what is held, then add what the others sent. */
  method GlobalColtab(w: Spread, d: int, recv: Bufs) returns (globcol: array<int>)
    requires Partition(w) && 0 <= d < w.nprocs && recv == Received(w, d, w.nprocs)
    ensures fresh(globcol) && globcol.Length == w.p.spm.n
    ensures forall c :: 0 <= c < globcol.Length && w.owner[c] == d ==> globcol[c] == NodeCount(w.p, c, w.p.spm.n)
  {
    hide NodeCount, LocalCount, AllMsgs, Counted, Partition;
    assert w.p.spm.n >= 0;
    globcol := new int[w.p.spm.n](_ => 0);
    var cntA := new int[w.nprocs](_ => 0);
    var cntAt := new int[w.nprocs](_ => 0);
    var cntAAt := new int[w.nprocs](_ => 0);
    CountHeld(w, d, globcol, cntA, cntAt, cntAAt);
    ReceivedInNodes(w, d, w.nprocs);
    UpdateGlobcol(w, globcol, recv);
    forall c | 0 <= c < globcol.Length && w.owner[c] == d
      ensures globcol[c] == NodeCount(w.p, c, w.p.spm.n)
    {
      DistributedIsShared(w, c);
    }
  }
}
