/** Writing a distributed matrix: each process places what it receives, then what it holds,
    at the cursors of its columns. */
module BcscRecv {
  import opened BcscFill
  import opened Bcsc
  import opened BcscInit
  import opened BcscWrite
  import opened BcscMirror
  import opened BcscMeaning
  import opened BcscDist
  import opened BcscSpread
  import Ring

  /** The local blocks of process `q` are those of the nodes it owns. */
  ghost predicate OwnLayout(j: BlockJob, w: World, q: int) {
    && j.p == w.p && |w.owner| == w.p.spm.n
    && (forall node :: 0 <= node < w.p.spm.n ==> NodeHere(j, w, q, node))
  }

  ghost predicate NodeHere(j: BlockJob, w: World, q: int, node: int)
    requires 0 <= node < |w.owner|
  {
    IsLocal(j.l, node * j.p.spm.dof) <==> w.owner[node] == q
  }

  /** A local column belongs to a node of the process. */
  lemma LocalOwner(j: BlockJob, w: World, q: int, c: int)
    requires OwnLayout(j, w, q) && 0 <= c < |j.l.col2cblk| && IsLocal(j.l, c)
    ensures j.p.spm.dof > 0 && 0 <= c / j.p.spm.dof < w.p.spm.n
    ensures InNode(j.p.spm.dof, c / j.p.spm.dof, c) && w.owner[c / j.p.spm.dof] == q
  {
    var node := c / j.p.spm.dof;
    NodeInRange(j.p.spm.n, j.p.spm.dof, c);
    NodeOfColumn(j.p.spm.dof, c);
    assert Whole(j, node) && NodeHere(j, w, q, node);
  }

  /** What the process writes fits in the sizes that were counted. */
  lemma WrittenByFits(j: BlockJob, w: Spread, q: int)
    requires OwnLayout(j, w, q) && Partition(w) && 0 <= q < w.nprocs
    ensures Fits(j, WrittenBy(w, q))
  {
    hide Pick, Written, WrittenBy, IsLocal, Whole;
    forall c | 0 <= c < |Size(j)| && IsLocal(j.l, c)
      ensures |Pick(WrittenBy(w, q), c)| == Size(j)[c]
    {
      LocalOwner(j, w, q, c);
      SpreadIsWritten(w, c / j.p.spm.dof, c);
      assert |Pick(WrittenBy(w, q), c)| == |Bag(WrittenBy(w, q), c)|;
      assert |Pick(Written(w.p, w.p.spm.n), c)| == |Bag(Written(w.p, w.p.spm.n), c)|;
    }
  }

  // ----- both at once -----

  ghost function Bump(tab: seq<seq<int>>, b: int, i: int, m: int): seq<seq<int>>
    requires 0 <= b < |tab| && 0 <= i < |tab[b]|
  {
    tab[b := tab[b][i := tab[b][i] + m]]
  }

  lemma BumpMore(tab: seq<seq<int>>, b: int, i: int, m: int)
    requires 0 <= b < |tab| && 0 <= i < |tab[b]|
    ensures var t := Bump(tab, b, i, m); Bump(tab, b, i, m + 1) == t[b := t[b][i := t[b][i] + 1]]
  {
    var t := Bump(tab, b, i, m);
    assert t[b][i := t[b][i] + 1] == tab[b][i := tab[b][i] + m + 1];
  }

  /** Moving another cursor. */
  lemma BumpOther(tab: seq<seq<int>>, next: seq<seq<int>>, b: int, i: int, m: int, b': int, i': int)
    requires 0 <= b < |tab| && 0 <= i < |tab[b]| && 0 <= b' < |tab| && 0 <= i' < |tab[b']| && (b != b' || i != i')
    requires next == tab[b' := tab[b'][i' := tab[b'][i'] + 1]]
    ensures var t := Bump(tab, b, i, m);
      t[b'][i'] == tab[b'][i'] && Bump(next, b, i, m) == t[b' := t[b'][i' := t[b'][i'] + 1]]
  {
    var t := Bump(tab, b, i, m);
    if b == b' {
      assert next[b][i := next[b][i] + m] == t[b'][i' := t[b'][i'] + 1];
    }
  }

  lemma OneEntry(es: seq<Entry>, e: Entry, n: int)
    ensures forall c :: 0 <= c < n ==> |Pick(es + [e], c)| == |Pick(es, c)| + (if c == e.col then 1 else 0)
  {
    forall c | 0 <= c < n
      ensures |Pick(es + [e], c)| == |Pick(es, c)| + (if c == e.col then 1 else 0)
    {
      PickMore(es, e, c);
    }
  }

  /** The storage holds `es`; the cursor of column `col` is `m` writes late, `pos` is not. */
  ghost predicate Late(j: BlockJob, tab: seq<seq<int>>, rows: seq<int>, vals: seq<Complex>, es: seq<Entry>, col: int,
          pos: int, m: int) {
    && IsLocal(j.l, col) && |tab| == |j.l.cblks| && ColOK(j.l, col)
    && 0 <= col - j.l.cblks[j.l.col2cblk[col]].fcolnum < |tab[j.l.col2cblk[col]]|
    && Cursors(j.l, Size(j), Bump(tab, j.l.col2cblk[col], col - j.l.cblks[j.l.col2cblk[col]].fcolnum, m), es)
    && Filled(j.l, Size(j), rows, vals, es) && pos == Start(j.l, Size(j), col) + |Pick(es, col)|
  }

  /** A mirrored value, at the cursor of its column. */
  method PutMirrored(j: BlockJob, cscftab: array<seq<int>>, rowtab: array<int>, vals: array<Complex>,
                     coli: int, colj: int, value: Complex, ghost posj: int, ghost m: int, ghost es: seq<Entry>,
                         ghost total: seq<Entry>)
    requires Fits(j, total) && IsLocal(j.l, coli) && coli != colj
    requires Late(j, cscftab[..], rowtab[..], vals[..], es, colj, posj, m)
    requires es + [Entry(coli, colj, value)] <= total && 0 <= colj < j.p.spm.n * j.p.spm.dof
    modifies cscftab, rowtab, vals
    ensures Late(j, cscftab[..], rowtab[..], vals[..], es + [Entry(coli, colj, value)], colj, posj, m)
  {
    hide Start, Pick, Size, Fits, Filled, Cursors, Written, Problem.Valid, Whole, TabOK, Bump;
    ghost var bj := j.l.col2cblk[colj];
    var bi := j.l.col2cblk[coli];
    ghost var ij := colj - j.l.cblks[bj].fcolnum;
    ghost var before := cscftab[..];
    ghost var tab := Bump(before, bj, ij, m);
    ghost var e := Entry(coli, colj, value);
    BumpShape(before, bj, ij, m);
    LocalTab(j.l, Size(j), tab, es, coli);
    var ii := coli - j.l.cblks[bi].fcolnum;
    assert bi == bj ==> ii != ij;
    BumpOther(before, before[bi := before[bi][ii := before[bi][ii] + 1]], bj, ij, m, bi, ii);
    var posi := cscftab[bi][ii];
    PutEntry(j, rowtab, vals, posi, colj, value, coli, es, total);
    OneEntry(es, e, |Size(j)|);
    cscftab[bi] := cscftab[bi][ii := cscftab[bi][ii] + 1];
    assert cscftab[..] == before[bi := before[bi][ii := before[bi][ii] + 1]];
    CursorMoves(j.l, Size(j), tab, Bump(cscftab[..], bj, ij, m), es, es + [e], coli, 1);
  }

  lemma BumpShape(tab: seq<seq<int>>, b: int, i: int, m: int)
    requires 0 <= b < |tab| && 0 <= i < |tab[b]|
    ensures |Bump(tab, b, i, m)| == |tab| && forall x :: 0 <= x < |tab| ==> |Bump(tab, b, i, m)[x]| == |tab[x]|
  {
  }

  /** A value in place, at the position kept for its column. */
  method PutInPlace(j: BlockJob, ghost tab: seq<seq<int>>, rowtab: array<int>, vals: array<Complex>,
                    coli: int, colj: int, value: Complex, posj: int, ghost m: int, ghost es: seq<Entry>,
                        ghost total: seq<Entry>)
    requires Fits(j, total) && Late(j, tab, rowtab[..], vals[..], es, colj, posj, m)
    requires es + [Entry(colj, coli, value)] <= total && 0 <= coli < j.p.spm.n * j.p.spm.dof
    modifies rowtab, vals
    ensures Late(j, tab, rowtab[..], vals[..], es + [Entry(colj, coli, value)], colj, posj + 1, m + 1)
  {
    hide Start, Pick, Size, Fits, Filled, Cursors, Written, Problem.Valid, Whole, TabOK, Bump;
    ghost var bj := j.l.col2cblk[colj];
    ghost var ij := colj - j.l.cblks[bj].fcolnum;
    ghost var f := Entry(colj, coli, value);
    PutEntry(j, rowtab, vals, posj, coli, value, colj, es, total);
    OneEntry(es, f, |Size(j)|);
    BumpMore(tab, bj, ij, m);
    BumpShape(tab, bj, ij, m);
    LocalTab(j.l, Size(j), Bump(tab, bj, ij, m), es, colj);
    CursorMoves(j.l, Size(j), Bump(tab, bj, ij, m), Bump(tab, bj, ij, m + 1), es, es + [f], colj, 1);
  }

  lemma {:induction false} BothRunPrefix(p: Problem, msg: Msg, a: int, m: nat, n: nat)
    requires m <= n
    ensures BothRun(p, msg, a, m) <= BothRun(p, msg, a, n)
  {
    if m < n {
      BothRunPrefix(p, msg, a, m, n - 1);
    }
  }

  /** The next value, mirrored and in place, has its two places. */
  lemma BothNext(p: Problem, msg: Msg, a: int, m: nat, es: seq<Entry>, total: seq<Entry>)
    requires m < p.spm.dof && es + BothRun(p, msg, a, p.spm.dof) <= total
    ensures var i, j := msg.igp * p.spm.dof + m, msg.jgp * p.spm.dof + a;
      var e, f := Entry(i, j, p.Mirror(p.Value(msg.k, a, m))), Entry(j, i, p.Value(msg.k, a, m));
      var done := es + BothRun(p, msg, a, m);
      done + [e] <= total && (done + [e]) + [f] == es + BothRun(p, msg, a, m + 1) <= total
  {
    var i, j := msg.igp * p.spm.dof + m, msg.jgp * p.spm.dof + a;
    var e, f := Entry(i, j, p.Mirror(p.Value(msg.k, a, m))), Entry(j, i, p.Value(msg.k, a, m));
    var done := es + BothRun(p, msg, a, m);
    assert BothRun(p, msg, a, m + 1) == BothRun(p, msg, a, m) + [e, f];
    assert (done + [e]) + [f] == es + BothRun(p, msg, a, m + 1);
    BothRunPrefix(p, msg, a, m + 1, p.spm.dof);
    PrefixOf(es, BothRun(p, msg, a, m + 1), BothRun(p, msg, a, p.spm.dof), total);
    assert (done + [e]) + [] == done + [e];
    PrefixOf(done + [e], [], [f], total);
  }

  lemma NoBothRun(p: Problem, msg: Msg, a: int, es: seq<Entry>)
    ensures es + BothRun(p, msg, a, 0) == es
  {
  }

  lemma LateStarts(j: BlockJob, tab: seq<seq<int>>, rows: seq<int>, vals: seq<Complex>, es: seq<Entry>, col: int)
    requires Fill(j, tab, rows, vals, es) && IsLocal(j.l, col)
    ensures ColOK(j.l, col) && 0 <= j.l.col2cblk[col] < |tab| == |j.l.cblks|
    ensures var b := j.l.col2cblk[col]; var i := col - j.l.cblks[b].fcolnum;
      0 <= i < |tab[b]| && Late(j, tab, rows, vals, es, col, tab[b][i], 0)
  {
    hide Start, Pick, Size, Filled, Cursors, Whole, TabOK;
    LocalTab(j.l, Size(j), tab, es, col);
    var b := j.l.col2cblk[col];
    var i := col - j.l.cblks[b].fcolnum;
    assert tab[b][i := tab[b][i]] == tab[b];
    assert Bump(tab, b, i, 0) == tab;
  }

  lemma LateEnds(j: BlockJob, tab: seq<seq<int>>, next: seq<seq<int>>, rows: seq<int>, vals: seq<Complex>,
          es: seq<Entry>, col: int, pos: int, m: int)
    requires Late(j, tab, rows, vals, es, col, pos, m)
    requires next == Bump(tab, j.l.col2cblk[col], col - j.l.cblks[j.l.col2cblk[col]].fcolnum, m)
    ensures Fill(j, next, rows, vals, es)
  {
  }

  /** Column `a` of a block for both: the mirrored values along row `colj` from column
      `col0`, the values themselves down column `colj`, whose cursor moves at the end. */
  method WriteBothRun(j: BlockJob, cscftab: array<seq<int>>, rowtab: array<int>, vals: array<Complex>,
                      msg: Msg, a: int, col0: int, colj: int, v: int, ghost es: seq<Entry>, ghost total: seq<Entry>)
    requires Fill(j, cscftab[..], rowtab[..], vals[..], es) && Fits(j, total) && IsLocal(j.l, col0)
    requires IsLocal(j.l, colj)
    requires 0 <= msg.k < |j.p.spm.rowptr| && 0 <= a < j.p.spm.dof && v == (msg.k * j.p.spm.dof + a) * j.p.spm.dof
    requires 0 <= msg.igp < j.p.spm.n && col0 == msg.igp * j.p.spm.dof && colj == msg.jgp * j.p.spm.dof + a
    requires 0 <= colj < j.p.spm.n * j.p.spm.dof && !(col0 <= colj < col0 + j.p.spm.dof)
    requires es + BothRun(j.p, msg, a, j.p.spm.dof) <= total
    modifies cscftab, rowtab, vals
    ensures Fill(j, cscftab[..], rowtab[..], vals[..], es + BothRun(j.p, msg, a, j.p.spm.dof))
  {
    hide Fits, Problem.Valid, Whole, IsLocal, Late, Fill, Bump, BothRun, Problem.Mirror, Problem.Value;
    Basics(j.p);
    var dof := j.p.spm.dof;
    LateStarts(j, cscftab[..], rowtab[..], vals[..], es, colj);
    var bj := j.l.col2cblk[colj];
    var ij := colj - j.l.cblks[bj].fcolnum;
    var posj := cscftab[bj][ij];
    NoBothRun(j.p, msg, a, es);
    for idofi := 0 to dof
      invariant Late(j, cscftab[..], rowtab[..], vals[..], es + BothRun(j.p, msg, a, idofi), colj, posj, idofi)
    {
      BothNext(j.p, msg, a, idofi, es, total);
      ColLocal(j, msg.igp, col0, idofi);
      ValueIndex(j.p, msg.k, a, idofi);
      ghost var done := es + BothRun(j.p, msg, a, idofi);
      var value := j.p.spm.values[v + idofi];
      var coli := col0 + idofi;
      PutMirrored(j, cscftab, rowtab, vals, coli, colj, j.p.Mirror(value), posj, idofi, done, total);
      PutInPlace(j, cscftab[..], rowtab, vals, coli, colj, value, posj, idofi,
                 done + [Entry(coli, colj, j.p.Mirror(value))], total);
      posj := posj + 1;
    }
    LateIndex(j, cscftab[..], rowtab[..], vals[..], es + BothRun(j.p, msg, a, dof), colj, posj, dof);
    ghost var tab := cscftab[..];
    cscftab[bj] := cscftab[bj][ij := cscftab[bj][ij] + dof];
    assert cscftab[..] == tab[bj := tab[bj][ij := tab[bj][ij] + dof]];
    BumpIs(tab, bj, ij, dof);
    LateEnds(j, tab, cscftab[..], rowtab[..], vals[..], es + BothRun(j.p, msg, a, dof), colj, posj, dof);
  }

  lemma LateIndex(j: BlockJob, tab: seq<seq<int>>, rows: seq<int>, vals: seq<Complex>, es: seq<Entry>, col: int,
          pos: int, m: int)
    requires Late(j, tab, rows, vals, es, col, pos, m)
    ensures ColOK(j.l, col) && 0 <= j.l.col2cblk[col] < |tab| == |j.l.cblks|
    ensures 0 <= col - j.l.cblks[j.l.col2cblk[col]].fcolnum < |tab[j.l.col2cblk[col]]|
  {
  }

  lemma BumpIs(tab: seq<seq<int>>, b: int, i: int, m: int)
    requires 0 <= b < |tab| && 0 <= i < |tab[b]|
    ensures Bump(tab, b, i, m) == tab[b := tab[b][i := tab[b][i] + m]]
  {
  }

  lemma {:induction false} BothBlockPrefix(p: Problem, msg: Msg, m: nat, n: nat)
    requires m <= n && p.spm.dof >= 0
    ensures BothBlock(p, msg, m) <= BothBlock(p, msg, n)
  {
    hide BothRun;
    if m < n {
      BothBlockPrefix(p, msg, m, n - 1);
      PrefixMore(BothBlock(p, msg, m), BothBlock(p, msg, n - 1), BothRun(p, msg, n - 1, p.spm.dof));
    }
  }

  lemma BothColumnNext(p: Valued, msg: Msg, m: nat, es: seq<Entry>, total: seq<Entry>)
    requires m < p.spm.dof && es + BothBlock(p, msg, p.spm.dof) <= total
    ensures (es + BothBlock(p, msg, m)) + BothRun(p, msg, m, p.spm.dof) == es + BothBlock(p, msg, m + 1) <= total
  {
    BothBlockPrefix(p, msg, m + 1, p.spm.dof);
    PrefixOf(es, BothBlock(p, msg, m + 1), BothBlock(p, msg, p.spm.dof), total);
  }

  /** The columns of two nodes are apart. */
  lemma ColumnsApart(p: Valued, i: int, j: int, a: int)
    requires i != j && 0 <= a < p.spm.dof
    ensures !(i * p.spm.dof <= j * p.spm.dof + a < i * p.spm.dof + p.spm.dof)
  {
    if i < j {
      NodesApart(p.spm.dof, i, j);
    } else {
      NodesApart(p.spm.dof, j, i);
    }
  }

  /** A pair for both, the row and the column of which are owned here. */
  method RecvBoth(j: BlockJob, cscftab: array<seq<int>>, rowtab: array<int>, vals: array<Complex>, msg: Msg,
                  ghost es: seq<Entry>, ghost total: seq<Entry>)
    requires Fill(j, cscftab[..], rowtab[..], vals[..], es) && Fits(j, total) && MsgOK(j, msg, Both)
    requires es + MsgEntries(j.p, msg, Both) <= total
    modifies cscftab, rowtab, vals
    ensures Fill(j, cscftab[..], rowtab[..], vals[..], es + MsgEntries(j.p, msg, Both))
  {
    hide Fits, Fill, Problem.Valid, Whole, BothRun, IsLocal;
    Basics(j.p);
    var dof := j.p.spm.dof;
    var col, row := msg.igp * dof, msg.jgp * dof;
    var v := (msg.k * dof) * dof;
    assert es + BothBlock(j.p, msg, 0) == es;
    for idofj := 0 to dof
      invariant Fill(j, cscftab[..], rowtab[..], vals[..], es + BothBlock(j.p, msg, idofj))
      invariant v == (msg.k * dof + idofj) * dof
    {
      BothColumnNext(j.p, msg, idofj, es, total);
      NodeRows(j.p, msg.jgp, idofj);
      ColLocal(j, msg.jgp, row, idofj);
      ColumnsApart(j.p, msg.igp, msg.jgp, idofj);
      WriteBothRun(j, cscftab, rowtab, vals, msg, idofj, col, row + idofj, v, es + BothBlock(j.p, msg, idofj), total);
      Product(msg.k * dof + idofj, dof);
      v := v + dof;
    }
  }

  /** A message for this process: its column, its row, or both are here. */
  ghost predicate MsgOK(j: BlockJob, msg: Msg, kind: Kind) {
    && 0 <= msg.igp < j.p.spm.n && 0 <= msg.jgp < j.p.spm.n && 0 <= msg.k < |j.p.spm.rowptr|
    && (kind != Mirrored ==> IsLocal(j.l, msg.jgp * j.p.spm.dof))
    && (kind != InPlace ==> IsLocal(j.l, msg.igp * j.p.spm.dof))
    && (kind == Both ==> msg.igp != msg.jgp)
  }

  method RecvOne(j: BlockJob, cscftab: array<seq<int>>, rowtab: array<int>, vals: array<Complex>, msg: Msg, kind: Kind,
                 ghost es: seq<Entry>, ghost total: seq<Entry>)
    requires Fill(j, cscftab[..], rowtab[..], vals[..], es) && Fits(j, total) && MsgOK(j, msg, kind)
    requires es + MsgEntries(j.p, msg, kind) <= total
    modifies cscftab, rowtab, vals
    ensures Fill(j, cscftab[..], rowtab[..], vals[..], es + MsgEntries(j.p, msg, kind))
  {
    hide Fits, Fill, Problem.Valid, Whole, IsLocal, BlockA, BlockAt, BothBlock;
    match kind
    case InPlace =>
      WriteBlockA(j, cscftab, rowtab, vals, msg.k, msg.jgp, msg.igp, es, total);
    case Mirrored =>
      WriteBlockAt(j, cscftab, rowtab, vals, msg.k, msg.jgp, msg.igp, es, total);
    case Both =>
      RecvBoth(j, cscftab, rowtab, vals, msg, es, total);
  }

  ghost predicate MsgsOK(j: BlockJob, l: seq<Msg>, kind: Kind) {
    forall x :: 0 <= x < |l| ==> MsgOK(j, l[x], kind)
  }

  lemma RunPrefixes(p: Valued, l: seq<Msg>, m: int, kind: Kind)
    requires 0 <= m <= |l|
    ensures Run(p, l[..m], kind) <= Run(p, l, kind)
  {
    hide Run, MsgEntries;
    RunJoin(p, l[..m], l[m..], kind);
    assert l[..m] + l[m..] == l;
  }

  lemma RunNextMsg(p: Valued, l: seq<Msg>, m: int, kind: Kind, es: seq<Entry>, total: seq<Entry>)
    requires 0 <= m < |l| && es + Run(p, l, kind) <= total
    ensures (es + Run(p, l[..m], kind)) + MsgEntries(p, l[m], kind) == es + Run(p, l[..m + 1], kind) <= total
  {
    hide MsgEntries, Run;
    assert l[..m + 1] == l[..m] + [l[m]];
    RunMore(p, l[..m], l[m], kind);
    Assoc(es, Run(p, l[..m], kind), MsgEntries(p, l[m], kind));
    RunPrefixes(p, l, m + 1, kind);
    PrefixOf(es, Run(p, l[..m + 1], kind), Run(p, l, kind), total);
  }

  lemma NoRun(p: Valued, l: seq<Msg>, kind: Kind, es: seq<Entry>)
    ensures es + Run(p, l[..0], kind) == es && l[..|l|] == l
  {
  }

  /** Place a received buffer, in place, mirrored or both. */
  method HandleRecv(j: BlockJob, cscftab: array<seq<int>>, rowtab: array<int>, vals: array<Complex>, l: seq<Msg>,
          kind: Kind,
                    ghost es: seq<Entry>, ghost total: seq<Entry>)
    requires Fill(j, cscftab[..], rowtab[..], vals[..], es) && Fits(j, total) && MsgsOK(j, l, kind)
    requires es + Run(j.p, l, kind) <= total
    modifies cscftab, rowtab, vals
    ensures Fill(j, cscftab[..], rowtab[..], vals[..], es + Run(j.p, l, kind))
  {
    hide Fits, Fill, Problem.Valid, Whole, MsgEntries, Run, MsgOK;
    NoRun(j.p, l, kind, es);
    for m := 0 to |l|
      invariant Fill(j, cscftab[..], rowtab[..], vals[..], es + Run(j.p, l[..m], kind))
    {
      RunNextMsg(j.p, l, m, kind, es, total);
      RecvOne(j, cscftab, rowtab, vals, l[m], kind, es + Run(j.p, l[..m], kind), total);
    }
  }

  // ----- the messages for this process -----

  /** Every buffer holds messages for this process. */
  ghost predicate BufsOK(j: BlockJob, w: World, b: Bufs) {
    && MsgsOK(j, b.a, InPlace) && MsgsOK(j, b.at, Mirrored)
    && MsgsOK(j, b.aat, PairKind(w)) && MsgsOK(j, b.aat, Mirrored)
  }

  lemma BufsOKJoin(j: BlockJob, w: World, x: Bufs, y: Bufs)
    requires BufsOK(j, w, x) && BufsOK(j, w, y)
    ensures BufsOK(j, w, Append(x, y))
  {
    hide MsgOK;
  }

  lemma EntryBufsOK(j: BlockJob, w: Spread, h: int, q: int, jg: int, k: int)
    requires OwnLayout(j, w, q) && IsEntry(w, jg, k)
    ensures BufsOK(j, w, EntryMsgs(w, h, q, jg, k))
  {
    hide IsLocal;
    var i := w.p.Row(k);
    assert NodeHere(j, w, q, w.p.permtab[i]) && NodeHere(j, w, q, w.p.permtab[jg]);
    SameNode(w, i, jg);
  }

  lemma NoBufs(j: BlockJob, w: World)
    ensures BufsOK(j, w, Bufs([], [], []))
  {
  }

  lemma {:induction false} ColumnBufsOK(j: BlockJob, w: Spread, h: int, q: int, jg: int, k: int)
    requires OwnLayout(j, w, q) && 0 <= jg < w.p.spm.n && w.p.First(jg) <= k <= w.p.First(jg + 1)
    ensures BufsOK(j, w, ColumnMsgs(w, h, q, jg, k))
    decreases k - w.p.First(jg)
  {
    hide EntryMsgs, BufsOK, Append, OwnLayout;
    if k == w.p.First(jg) {
      NoBufs(j, w);
    } else {
      ColumnBufsOK(j, w, h, q, jg, k - 1);
      EntryOf(w, jg, k - 1);
      EntryBufsOK(j, w, h, q, jg, k - 1);
      BufsOKJoin(j, w, ColumnMsgs(w, h, q, jg, k - 1), EntryMsgs(w, h, q, jg, k - 1));
    }
  }

  lemma {:induction false} AllBufsOK(j: BlockJob, w: Spread, h: int, q: int, m: int)
    requires OwnLayout(j, w, q) && 0 <= h < w.nprocs && 0 <= m <= |w.held[h]|
    ensures BufsOK(j, w, AllMsgs(w, h, q, m))
  {
    hide ColumnMsgs, BufsOK, Append, OwnLayout;
    if m == 0 {
      NoBufs(j, w);
    } else {
      AllBufsOK(j, w, h, q, m - 1);
      assert HeldOK(w, h);
      var jg := w.held[h][m - 1];
      assert w.p.ColumnOK(jg);
      ColumnBufsOK(j, w, h, q, jg, w.p.First(jg + 1));
      BufsOKJoin(j, w, AllMsgs(w, h, q, m - 1), ColumnMsgs(w, h, q, jg, w.p.First(jg + 1)));
    }
  }

  // ----- the whole distributed initialization -----

  lemma {:induction false} RingPrefix(w: Spread, q: int, which: Which, kind: Kind, m: int, n: int)
    requires 0 <= q < w.nprocs && 0 <= m <= n <= w.nprocs - 1
    ensures FromRing(w, q, which, kind, m) <= FromRing(w, q, which, kind, n)
    decreases n
  {
    hide Run, SentTo;
    if m < n {
      RingPrefix(w, q, which, kind, m, n - 1);
      var b := SentTo(w, Ring.RecvFrom(w.nprocs, q, n - 1), q);
      PrefixMore(FromRing(w, q, which, kind, m), FromRing(w, q, which, kind, n - 1), Run(w.p, Of(b, which), kind));
    }
  }

  lemma RingNext(w: Spread, q: int, which: Which, kind: Kind, m: int, es: seq<Entry>, total: seq<Entry>)
    requires 0 <= q < w.nprocs && 0 <= m < w.nprocs - 1 && es + FromRing(w, q, which, kind, w.nprocs - 1) <= total
    ensures var b := SentTo(w, Ring.RecvFrom(w.nprocs, q, m), q);
      (es + FromRing(w, q, which, kind, m)) + Run(w.p, Of(b, which), kind)
          == es + FromRing(w, q, which, kind, m + 1) <= total
  {
    hide Run, SentTo;
    var b := SentTo(w, Ring.RecvFrom(w.nprocs, q, m), q);
    RingPrefix(w, q, which, kind, m + 1, w.nprocs - 1);
    PrefixOf(es, FromRing(w, q, which, kind, m + 1), FromRing(w, q, which, kind, w.nprocs - 1), total);
    Assoc(es, FromRing(w, q, which, kind, m), Run(w.p, Of(b, which), kind));
  }

  lemma NoRing(w: Spread, q: int, which: Which, kind: Kind, es: seq<Entry>)
    requires 0 <= q < w.nprocs
    ensures es + FromRing(w, q, which, kind, 0) == es
  {
  }

  /** What each process sent to process `q`. */
  ghost predicate Delivered(w: Spread, q: int, recv: seq<Bufs>) {
    |recv| == w.nprocs && forall h :: 0 <= h < w.nprocs && h != q ==> recv[h] == SentTo(w, h, q)
  }

  /** Buffers for A go in place, those for At mirrored, those for AAt as one, the other or both. */
  predicate UsedFor(w: World, which: Which, kind: Kind) {
    match which
    case ForA => kind == InPlace
    case ForAt => kind == Mirrored
    case ForAAt => kind == PairKind(w) || kind == Mirrored
  }

  /** Receive one kind of values from every other process, in the order of the ring. */
  method ExchangeValues(j: BlockJob, cscftab: array<seq<int>>, rowtab: array<int>, vals: array<Complex>, w: Spread,
          q: int,
                        recv: seq<Bufs>, which: Which, kind: Kind, ghost es: seq<Entry>, ghost total: seq<Entry>)
    requires OwnLayout(j, w, q) && 0 <= q < w.nprocs && Delivered(w, q, recv) && UsedFor(w, which, kind)
    requires Fill(j, cscftab[..], rowtab[..], vals[..], es) && Fits(j, total)
    requires es + FromRing(w, q, which, kind, w.nprocs - 1) <= total
    modifies cscftab, rowtab, vals
    ensures Fill(j, cscftab[..], rowtab[..], vals[..], es + FromRing(w, q, which, kind, w.nprocs - 1))
  {
    hide Fits, Fill, Problem.Valid, Whole, FromRing, Run, MsgsOK, AllMsgs, IsLocal;
    NoRing(w, q, which, kind, es);
    var _, from := Ring.Targets(w.nprocs, q);
    for k := 0 to w.nprocs - 1
      invariant Fill(j, cscftab[..], rowtab[..], vals[..], es + FromRing(w, q, which, kind, k))
    {
      var c := from[k];
      RingNext(w, q, which, kind, k, es, total);
      AllBufsOK(j, w, c, q, |w.held[c]|);
      HandleRecv(j, cscftab, rowtab, vals, Of(recv[c], which), kind, es + FromRing(w, q, which, kind, k), total);
    }
  }

  lemma {:induction false} HeldPrefix(w: Spread, q: int, m: int, n: int)
    requires 0 <= q < w.nprocs && 0 <= m <= n <= |w.held[q]|
    ensures HeldA(w, q, m) <= HeldA(w, q, n) && HeldAt(w, q, m) <= HeldAt(w, q, n)
    decreases n
  {
    hide HeldA, HeldAt, ColumnA, ColumnAt;
    if m < n {
      HeldPrefix(w, q, m, n - 1);
      HeldNext(w, q, n - 1);
      var j := w.held[q][n - 1];
      PrefixMore(HeldA(w, q, m), HeldA(w, q, n - 1), ColumnA(w.p, j, w.p.First(j + 1)));
      PrefixMore(HeldAt(w, q, m), HeldAt(w, q, n - 1), ColumnAt(w.p, j, w.p.First(j + 1)));
    }
  }

  /** The columns that process `q` holds, in place. */
  method InitHeldA(j: BlockJob, cscftab: array<seq<int>>, rowtab: array<int>, vals: array<Complex>, w: Spread, q: int,
                   ghost es: seq<Entry>, ghost total: seq<Entry>)
    requires j.p == w.p && 0 <= q < w.nprocs
    requires Fill(j, cscftab[..], rowtab[..], vals[..], es) && Fits(j, total) && es + HeldA(w, q, |w.held[q]|) <= total
    modifies cscftab, rowtab, vals
    ensures Fill(j, cscftab[..], rowtab[..], vals[..], es + HeldA(w, q, |w.held[q]|))
  {
    hide Fits, Fill, Problem.Valid, Whole, HeldA, HeldAt, ColumnA, ColumnAt, IsLocal;
    NothingHeld(w, q);
    assert es + [] == es;
    for jl := 0 to |w.held[q]|
      invariant Fill(j, cscftab[..], rowtab[..], vals[..], es + HeldA(w, q, jl))
    {
      Basics(w.p);
      HeldNext(w, q, jl);
      HeldPrefix(w, q, jl + 1, |w.held[q]|);
      var jg := w.held[q][jl];
      PrefixOf(es, HeldA(w, q, jl + 1), HeldA(w, q, |w.held[q]|), total);
      Assoc(es, HeldA(w, q, jl), ColumnA(w.p, jg, w.p.First(jg + 1)));
      WriteColumnA(j, cscftab, rowtab, vals, jg, es + HeldA(w, q, jl), total);
    }
  }

  /** The columns that process `q` holds, mirrored. */
  method InitHeldAt(j: BlockJob, cscftab: array<seq<int>>, rowtab: array<int>, vals: array<Complex>, w: Spread, q: int,
                    ghost es: seq<Entry>, ghost total: seq<Entry>)
    requires j.p == w.p && 0 <= q < w.nprocs
    requires Fill(j, cscftab[..], rowtab[..], vals[..], es) && Fits(j, total) && es + HeldAt(w, q, |w.held[q]|) <= total
    modifies cscftab, rowtab, vals
    ensures Fill(j, cscftab[..], rowtab[..], vals[..], es + HeldAt(w, q, |w.held[q]|))
  {
    hide Fits, Fill, Problem.Valid, Whole, HeldA, HeldAt, ColumnA, ColumnAt, IsLocal;
    NothingHeld(w, q);
    assert es + [] == es;
    for jl := 0 to |w.held[q]|
      invariant Fill(j, cscftab[..], rowtab[..], vals[..], es + HeldAt(w, q, jl))
    {
      Basics(w.p);
      HeldNext(w, q, jl);
      HeldPrefix(w, q, jl + 1, |w.held[q]|);
      var jg := w.held[q][jl];
      PrefixOf(es, HeldAt(w, q, jl + 1), HeldAt(w, q, |w.held[q]|), total);
      Assoc(es, HeldAt(w, q, jl), ColumnAt(w.p, jg, w.p.First(jg + 1)));
      WriteColumnAt(j, cscftab, rowtab, vals, jg, es + HeldAt(w, q, jl), total);
    }
  }

  /** The parts of what process `q` writes, one after the other. */
  ghost function FirstPart(w: Spread, q: int): seq<Entry>
    requires 0 <= q < w.nprocs
  {
    FromRing(w, q, ForA, InPlace, w.nprocs - 1) + FromRing(w, q, ForAAt, PairKind(w), w.nprocs - 1)
  }

  lemma WrittenByParts(w: Spread, q: int)
    requires 0 <= q < w.nprocs
    ensures var m := w.nprocs - 1;
      var a, b := FromRing(w, q, ForA, InPlace, m), FirstPart(w, q);
      var c := b + HeldA(w, q, |w.held[q]|);
      && [] + a == a && a + FromRing(w, q, ForAAt, PairKind(w), m) == b
      && a <= WrittenBy(w, q) && b <= WrittenBy(w, q) && c <= WrittenBy(w, q)
      && (if Sym(w) then
            var d := c + FromRing(w, q, ForAt, Mirrored, m);
            d <= WrittenBy(w, q) && d + HeldAt(w, q, |w.held[q]|) == WrittenBy(w, q)
          else c == WrittenBy(w, q))
  {
    hide FromRing, HeldA, HeldAt;
    var m := w.nprocs - 1;
    var a, b := FromRing(w, q, ForA, InPlace, m), FirstPart(w, q);
    var c := b + HeldA(w, q, |w.held[q]|);
    PrefixMore(a, a, FromRing(w, q, ForAAt, PairKind(w), m));
    PrefixMore(a, b, HeldA(w, q, |w.held[q]|));
    PrefixMore(b, b, HeldA(w, q, |w.held[q]|));
    if Sym(w) {
      var d := c + FromRing(w, q, ForAt, Mirrored, m);
      PrefixMore(a, c, FromRing(w, q, ForAt, Mirrored, m));
      PrefixMore(b, c, FromRing(w, q, ForAt, Mirrored, m));
      PrefixMore(c, c, FromRing(w, q, ForAt, Mirrored, m));
      PrefixMore(a, d, HeldAt(w, q, |w.held[q]|));
      PrefixMore(b, d, HeldAt(w, q, |w.held[q]|));
      PrefixMore(c, d, HeldAt(w, q, |w.held[q]|));
      PrefixMore(d, d, HeldAt(w, q, |w.held[q]|));
    }
  }

  /** Receive, then write what is held: all that process `q` puts in its columns. */
  method FillDist(j: BlockJob, cscftab: array<seq<int>>, rowtab: array<int>, vals: array<Complex>, w: Spread, q: int,
          recv: seq<Bufs>)
    requires OwnLayout(j, w, q) && 0 <= q < w.nprocs && Delivered(w, q, recv) && Partition(w)
    requires Fill(j, cscftab[..], rowtab[..], vals[..], [])
    modifies cscftab, rowtab, vals
    ensures Fill(j, cscftab[..], rowtab[..], vals[..], WrittenBy(w, q)) && Fits(j, WrittenBy(w, q))
  {
    hide *;
    SameProblem(j, w, q);
    AllUsed(w);
    ghost var total := WrittenBy(w, q);
    WrittenByFits(j, w, q);
    WrittenByParts(w, q);
    ghost var m := w.nprocs - 1;
    ghost var a := FromRing(w, q, ForA, InPlace, m);
    ExchangeValues(j, cscftab, rowtab, vals, w, q, recv, ForA, InPlace, [], total);
    ExchangeValues(j, cscftab, rowtab, vals, w, q, recv, ForAAt, PairKind(w), a, total);
    ghost var b := FirstPart(w, q);
    InitHeldA(j, cscftab, rowtab, vals, w, q, b, total);
    ghost var c := b + HeldA(w, q, |w.held[q]|);
    if w.p.spm.mtxtype != General {
      SymIs(w);
      ExchangeValues(j, cscftab, rowtab, vals, w, q, recv, ForAt, Mirrored, c, total);
      InitHeldAt(j, cscftab, rowtab, vals, w, q, c + FromRing(w, q, ForAt, Mirrored, m), total);
    } else {
      SymIs(w);
    }
  }

  lemma SameProblem(j: BlockJob, w: Spread, q: int)
    requires OwnLayout(j, w, q)
    ensures j.p == w.p && |w.held| == w.nprocs
  {
  }

  lemma AllUsed(w: World)
    ensures UsedFor(w, ForA, InPlace) && UsedFor(w, ForAt, Mirrored)
    ensures UsedFor(w, ForAAt, PairKind(w)) && UsedFor(w, ForAAt, Mirrored)
  {
  }

  lemma SymIs(w: World)
    ensures Sym(w) <==> w.p.spm.mtxtype != General
  {
  }

  /** The counts of a process are right for its own columns. */
  lemma OwnCounts(j: BlockJob, w: Spread, q: int, globcol: seq<int>)
    requires OwnLayout(j, w, q) && |globcol| == w.p.spm.n
    requires forall i :: 0 <= i < |globcol| && w.owner[i] == q ==> globcol[i] == NodeCount(w.p, i, w.p.spm.n)
    ensures CountsOK(j, globcol)
  {
    hide NodeCount, IsLocal, Whole;
    SameProblem(j, w, q);
    forall c | 0 <= c < |j.l.col2cblk| && IsLocal(j.l, c)
      ensures CountOK(j, globcol, c)
    {
      LocalOwner(j, w, q, c);
    }
  }

  /** One process of a distributed matrix: count, lay out, receive, write what is held,
      restore the starts. Its columns hold what shared memory writes there, in some order. */
  method ZinitDist(j: BlockJob, cscftab: array<seq<int>>, w: Spread, q: int, indexes: Bufs, recv: seq<Bufs>)
      returns (idxcol: int, rowtab: array<int>, lvalues: array<Complex>)
    requires OwnLayout(j, w, q) && 0 <= q < w.nprocs && Partition(w) && cscftab.Length == |j.l.cblks|
    requires indexes == Received(w, q, w.nprocs) && Delivered(w, q, recv)
    modifies cscftab
    ensures fresh(rowtab) && fresh(lvalues) && idxcol == Start(j.l, Size(j), |Size(j)|)
    ensures Stored(j, cscftab[..], rowtab[..], lvalues[..], WrittenBy(w, q))
    ensures forall c :: 0 <= c < |j.l.col2cblk| && IsLocal(j.l, c) ==>
      Bag(WrittenBy(w, q), c) == Bag(Written(w.p, w.p.spm.n), c)
  {
    hide *;
    var globcol := GlobalColtab(w, q, indexes);
    OwnCounts(j, w, q, globcol[..]);
    idxcol := StartsFrom(j, cscftab, globcol);
    StartNonNegative(j);
    rowtab := new int[idxcol](_ => 0);
    lvalues := new Complex[idxcol](_ => Complex(0.0, 0.0));
    NothingWritten(j, cscftab[..], rowtab[..], lvalues[..]);
    FillDist(j, cscftab, rowtab, lvalues, w, q, recv);
    FillParts(j, cscftab[..], rowtab[..], lvalues[..], WrittenBy(w, q));
    RestoreColtab(j.l, cscftab, Size(j), WrittenBy(w, q));
    FilledIsStored(j, cscftab[..], rowtab[..], lvalues[..], WrittenBy(w, q));
    LocalBags(j, w, q);
  }

  /** Every column of the process holds what shared memory writes in it, in some order. */
  lemma LocalBags(j: BlockJob, w: Spread, q: int)
    requires OwnLayout(j, w, q) && 0 <= q < w.nprocs && Partition(w)
    ensures forall c :: 0 <= c < |j.l.col2cblk| && IsLocal(j.l, c) ==>
      Bag(WrittenBy(w, q), c) == Bag(Written(w.p, w.p.spm.n), c)
  {
    hide Bag, WrittenBy, Written, IsLocal, Whole;
    forall c | 0 <= c < |j.l.col2cblk| && IsLocal(j.l, c)
      ensures Bag(WrittenBy(w, q), c) == Bag(Written(w.p, w.p.spm.n), c)
    {
      LocalOwner(j, w, q, c);
      SpreadIsWritten(w, c / j.p.spm.dof, c);
    }
  }

  // ----- the transpose of a general matrix -----

  lemma TransposedByFits(j: BlockJob, w: Spread, q: int)
    requires OwnLayout(j, w, q) && Partition(w) && 0 <= q < w.nprocs && !Sym(w) && Fits(j, AllAt(j.p, j.p.spm.n))
    ensures Fits(j, TransposedBy(w, q))
  {
    hide Pick, AllAt, TransposedBy, IsLocal, Whole;
    forall c | 0 <= c < |Size(j)| && IsLocal(j.l, c)
      ensures |Pick(TransposedBy(w, q), c)| == Size(j)[c]
    {
      LocalOwner(j, w, q, c);
      SpreadIsTransposed(w, c / j.p.spm.dof, c);
      assert |Pick(TransposedBy(w, q), c)| == |Bag(TransposedBy(w, q), c)|;
      assert |Pick(AllAt(w.p, w.p.spm.n), c)| == |Bag(AllAt(w.p, w.p.spm.n), c)|;
    }
  }

  lemma TransposedByParts(w: Spread, q: int)
    requires 0 <= q < w.nprocs
    ensures var m := w.nprocs - 1;
      var a, b := HeldAt(w, q, |w.held[q]|), FromRing(w, q, ForAt, Mirrored, m);
      && [] + a == a && a <= TransposedBy(w, q) && a + b <= TransposedBy(w, q)
      && (a + b) + FromRing(w, q, ForAAt, Mirrored, m) == TransposedBy(w, q)
  {
    hide FromRing, HeldAt;
    var m := w.nprocs - 1;
    var a, b := HeldAt(w, q, |w.held[q]|), FromRing(w, q, ForAt, Mirrored, m);
    PrefixMore(a, a, b);
    PrefixMore(a, a + b, FromRing(w, q, ForAAt, Mirrored, m));
  }

  /** One process writes the transpose of a general distributed matrix on the same start
      table, from what it holds and from the buffers for At and AAt. */
  method ZinitTransposeDist(j: BlockJob, cscftab: array<seq<int>>, valuesize: int, w: Spread, q: int, recv: seq<Bufs>)
      returns (trowtab: array<int>, uvalues: array<Complex>)
    requires OwnLayout(j, w, q) && 0 <= q < w.nprocs && Partition(w) && Delivered(w, q, recv)
    requires w.p.spm.mtxtype == General && cscftab.Length == |j.l.cblks| && IsColtab(j.l, Size(j), cscftab[..])
    requires valuesize == Start(j.l, Size(j), |Size(j)|) && Fits(j, AllAt(j.p, j.p.spm.n))
    modifies cscftab
    ensures fresh(trowtab) && fresh(uvalues)
    ensures Stored(j, cscftab[..], trowtab[..], uvalues[..], TransposedBy(w, q))
    ensures forall c :: 0 <= c < |j.l.col2cblk| && IsLocal(j.l, c) ==>
      Bag(TransposedBy(w, q), c) == Bag(AllAt(w.p, w.p.spm.n), c)
  {
    hide *;
    StartNonNegative(j);
    SymIs(w);
    trowtab := new int[valuesize](_ => -1);
    uvalues := new Complex[valuesize](_ => Complex(0.0, 0.0));
    NothingWritten(j, cscftab[..], trowtab[..], uvalues[..]);
    FillTransposed(j, cscftab, trowtab, uvalues, w, q, recv);
    FillParts(j, cscftab[..], trowtab[..], uvalues[..], TransposedBy(w, q));
    RestoreColtab(j.l, cscftab, Size(j), TransposedBy(w, q));
    FilledIsStored(j, cscftab[..], trowtab[..], uvalues[..], TransposedBy(w, q));
    LocalTransposed(j, w, q);
  }

  method FillTransposed(j: BlockJob, cscftab: array<seq<int>>, rowtab: array<int>, vals: array<Complex>, w: Spread,
          q: int, recv: seq<Bufs>)
    requires OwnLayout(j, w, q) && 0 <= q < w.nprocs && Delivered(w, q, recv) && Partition(w)
    requires Fill(j, cscftab[..], rowtab[..], vals[..], []) && !Sym(w) && Fits(j, AllAt(j.p, j.p.spm.n))
    modifies cscftab, rowtab, vals
    ensures Fill(j, cscftab[..], rowtab[..], vals[..], TransposedBy(w, q)) && Fits(j, TransposedBy(w, q))
  {
    hide *;
    SameProblem(j, w, q);
    AllUsed(w);
    ghost var total := TransposedBy(w, q);
    TransposedByFits(j, w, q);
    TransposedByParts(w, q);
    InitHeldAt(j, cscftab, rowtab, vals, w, q, [], total);
    ghost var a := HeldAt(w, q, |w.held[q]|);
    ExchangeValues(j, cscftab, rowtab, vals, w, q, recv, ForAt, Mirrored, a, total);
    ExchangeValues(j, cscftab, rowtab, vals, w, q, recv, ForAAt, Mirrored,
                   a + FromRing(w, q, ForAt, Mirrored, w.nprocs - 1), total);
  }

  lemma LocalTransposed(j: BlockJob, w: Spread, q: int)
    requires OwnLayout(j, w, q) && 0 <= q < w.nprocs && Partition(w) && !Sym(w)
    ensures forall c :: 0 <= c < |j.l.col2cblk| && IsLocal(j.l, c) ==>
      Bag(TransposedBy(w, q), c) == Bag(AllAt(w.p, w.p.spm.n), c)
  {
    hide Bag, TransposedBy, AllAt, IsLocal, Whole;
    forall c | 0 <= c < |j.l.col2cblk| && IsLocal(j.l, c)
      ensures Bag(TransposedBy(w, q), c) == Bag(AllAt(w.p, w.p.spm.n), c)
    {
      LocalOwner(j, w, q, c);
      SpreadIsTransposed(w, c / j.p.spm.dof, c);
    }
  }

  // ----- what it amounts to -----

  /** The last of `es` somewhere in `fs`; without it the rest matches. */
  lemma TakeEntry(es: seq<Entry>, fs: seq<Entry>) returns (k: int)
    requires es != [] && multiset(es) == multiset(fs)
    ensures 0 <= k < |fs| && fs == fs[..k] + [es[|es| - 1]] + fs[k + 1..]
    ensures multiset(fs[..k] + fs[k + 1..]) == multiset(es[..|es| - 1])
  {
    var x := es[|es| - 1];
    assert es == es[..|es| - 1] + [x];
    assert x in multiset(fs);
    k :| 0 <= k < |fs| && fs[k] == x;
    assert fs == fs[..k] + [x] + fs[k + 1..];
    assert multiset(fs) == multiset(fs[..k] + fs[k + 1..]) + multiset{x};
    assert multiset(es) == multiset(es[..|es| - 1]) + multiset{x};
    SameEntries(multiset(fs[..k] + fs[k + 1..]), multiset(es[..|es| - 1]), x);
  }

  lemma SameEntries(a: multiset<Entry>, b: multiset<Entry>, x: Entry)
    requires a + multiset{x} == b + multiset{x}
    ensures a == b
  {
    assert a == (a + multiset{x}) - multiset{x};
    assert b == (b + multiset{x}) - multiset{x};
  }

  /** Sums do not depend on the order of the entries. */
  lemma {:induction false} AtPermuted(es: seq<Entry>, fs: seq<Entry>, r: int, c: int)
    requires multiset(es) == multiset(fs)
    ensures BcscMeaning.At(es, r, c) == BcscMeaning.At(fs, r, c)
    decreases |es|
  {
    hide BcscMeaning.At;
    assert |es| == |multiset(es)| && |fs| == |multiset(fs)|;
    if es != [] {
      var x := es[|es| - 1];
      var k := TakeEntry(es, fs);
      var a, b := fs[..k], fs[k + 1..];
      AtPermuted(es[..|es| - 1], a + b, r, c);
      BcscMeaning.AtJoin(a + [x], b, r, c);
      BcscMeaning.AtJoin(a, [x], r, c);
      BcscMeaning.AtJoin(a, b, r, c);
      BcscMeaning.AtJoin(es[..|es| - 1], [x], r, c);
      assert es == es[..|es| - 1] + [x];
    }
  }

  /** What the owner of a column stores at the new place of row `r` and column `x` is the
      value of the matrix there, completed across the diagonal as in shared memory. */
  lemma SpreadIsPermuted(w: Spread, r: int, x: int)
    requires Partition(w) && 0 <= r / w.p.spm.dof < w.p.spm.n && 0 <= x / w.p.spm.dof < w.p.spm.n
    ensures var z := BcscMeaning.At(WrittenBy(w, Owner(w, x / w.p.spm.dof)), Place(w.p, r), Place(w.p, x));
      var here, across := Matrix(w.p, r, x), Matrix(w.p, x, r);
      && (w.p.spm.mtxtype == General || r / w.p.spm.dof == x / w.p.spm.dof ==> z == here)
      && (w.p.spm.mtxtype == Symmetric && r / w.p.spm.dof != x / w.p.spm.dof ==>
            z.re == here.re + across.re && z.im == here.im + across.im)
      && (w.p.spm.mtxtype == Hermitian && r / w.p.spm.dof != x / w.p.spm.dof ==>
            z.re == here.re + across.re && z.im == here.im - across.im)
  {
    hide BcscMeaning.At, Pick, WrittenBy, Written, Matrix;
    var u := x / w.p.spm.dof;
    var c := Place(w.p, x);
    var es, fs := WrittenBy(w, Owner(w, u)), Written(w.p, w.p.spm.n);
    PlaceInNode(w.p, u, x);
    SpreadIsWritten(w, w.p.permtab[u], c);
    AtPermuted(Pick(es, c), Pick(fs, c), Place(w.p, r), c);
    AtOfPick(es, Place(w.p, r), c);
    AtOfPick(fs, Place(w.p, r), c);
    StoredIsPermuted(w.p, r, x);
  }

  /** The arrays of each process hold, in its own columns, the permuted matrix. */
  lemma SpreadArraysHold(j: BlockJob, tab: seq<seq<int>>, rows: seq<int>, vals: seq<Complex>, w: Spread, q: int, r: int,
          x: int)
    requires OwnLayout(j, w, q) && 0 <= q < w.nprocs && Partition(w) && Stored(j, tab, rows, vals, WrittenBy(w, q))
    requires 0 <= r / w.p.spm.dof < w.p.spm.n && 0 <= x / w.p.spm.dof < w.p.spm.n && IsLocal(j.l, Place(w.p, x))
    ensures ColumnPlaced(j, tab, rows, vals, Place(w.p, x))
    ensures var z := ColumnSum(j, tab, rows, vals, Place(w.p, r), Place(w.p, x));
      var here, across := Matrix(w.p, r, x), Matrix(w.p, x, r);
      && (w.p.spm.mtxtype == General || r / w.p.spm.dof == x / w.p.spm.dof ==> z == here)
      && (w.p.spm.mtxtype == Symmetric && r / w.p.spm.dof != x / w.p.spm.dof ==>
            z.re == here.re + across.re && z.im == here.im + across.im)
      && (w.p.spm.mtxtype == Hermitian && r / w.p.spm.dof != x / w.p.spm.dof ==>
            z.re == here.re + across.re && z.im == here.im - across.im)
  {
    hide *;
    SameProblem(j, w, q);
    LocalPlace(j, w, q, x);
    StoredSums(j, tab, rows, vals, WrittenBy(w, q), Place(w.p, r), Place(w.p, x));
    SpreadIsPermuted(w, r, x);
  }

  lemma LocalPlace(j: BlockJob, w: Spread, q: int, x: int)
    requires OwnLayout(j, w, q) && 0 <= x / w.p.spm.dof < w.p.spm.n && IsLocal(j.l, Place(w.p, x))
    ensures Owner(w, x / w.p.spm.dof) == q
  {
    hide Place, IsLocal, Whole;
    SameProblem(j, w, q);
    var c := Place(w.p, x);
    IsColumn(j.l, c);
    LocalOwner(j, w, q, c);
    PlaceInNode(w.p, x / w.p.spm.dof, x);
    NodeOf(w.p, c / w.p.spm.dof, x / w.p.spm.dof, c);
  }

  lemma IsColumn(l: Layout, c: int)
    requires IsLocal(l, c)
    ensures 0 <= c < |l.col2cblk|
  {
  }

  /** The same of the transpose of a general matrix. */
  lemma SpreadTransposes(w: Spread, r: int, x: int)
    requires !Sym(w) && Partition(w) && 0 <= r / w.p.spm.dof < w.p.spm.n && 0 <= x / w.p.spm.dof < w.p.spm.n
    ensures BcscMeaning.At(TransposedBy(w, Owner(w, x / w.p.spm.dof)), Place(w.p, r), Place(w.p, x))
        == Matrix(w.p, x, r)
  {
    hide BcscMeaning.At, Pick, TransposedBy, AllAt, Matrix;
    var u := x / w.p.spm.dof;
    var c := Place(w.p, x);
    var es, fs := TransposedBy(w, Owner(w, u)), AllAt(w.p, w.p.spm.n);
    PlaceInNode(w.p, u, x);
    SpreadIsTransposed(w, w.p.permtab[u], c);
    AtPermuted(Pick(es, c), Pick(fs, c), Place(w.p, r), c);
    AtOfPick(es, Place(w.p, r), c);
    AtOfPick(fs, Place(w.p, r), c);
    TransposeIsPermuted(w.p, r, x);
  }
}
