/** What each process writes when the matrix is distributed: what it receives from the
    others, then what it holds; column by column it amounts to what shared memory writes. */
module BcscSpread {
  import opened BcscFill
  import opened Bcsc
  import opened BcscDist
  import Ring

  // ----- messages -----

  /** The block of a message goes in place, mirrored, or both at once. */
  datatype Kind = InPlace | Mirrored | Both

  /** First `m` values of column `a` of a block, each written mirrored then in place. */
  ghost function BothRun(p: Problem, msg: Msg, a: int, m: nat): seq<Entry> {
    if m == 0 then []
    else
      var v := p.Value(msg.k, a, m - 1);
      var i, j := msg.igp * p.spm.dof + m - 1, msg.jgp * p.spm.dof + a;
      BothRun(p, msg, a, m - 1) + [Entry(i, j, p.Mirror(v)), Entry(j, i, v)]
  }

  ghost function BothBlock(p: Problem, msg: Msg, m: nat): seq<Entry>
    requires p.spm.dof >= 0
  {
    if m == 0 then [] else BothBlock(p, msg, m - 1) + BothRun(p, msg, m - 1, p.spm.dof)
  }

  ghost function MsgEntries(p: Valued, msg: Msg, kind: Kind): seq<Entry> {
    match kind
    case InPlace => BlockA(p, msg.k, msg.jgp * p.spm.dof, msg.igp * p.spm.dof, p.spm.dof)
    case Mirrored => BlockAt(p, msg.k, msg.igp * p.spm.dof, msg.jgp * p.spm.dof, p.spm.dof)
    case Both => BothBlock(p, msg, p.spm.dof)
  }

  /** Entries of a list of messages. */
  ghost function Run(p: Valued, l: seq<Msg>, kind: Kind): seq<Entry> {
    if l == [] then [] else Run(p, l[..|l| - 1], kind) + MsgEntries(p, l[|l| - 1], kind)
  }

  lemma RunMore(p: Valued, l: seq<Msg>, m: Msg, kind: Kind)
    ensures Run(p, l + [m], kind) == Run(p, l, kind) + MsgEntries(p, m, kind)
  {
    assert (l + [m])[..|l + [m]| - 1] == l;
  }

  lemma {:induction false} RunJoin(p: Valued, l: seq<Msg>, r: seq<Msg>, kind: Kind)
    ensures Run(p, l + r, kind) == Run(p, l, kind) + Run(p, r, kind)
  {
    hide MsgEntries;
    if r == [] {
      assert l + r == l;
    } else {
      var last, init := r[|r| - 1], r[..|r| - 1];
      assert l + r == (l + init) + [last] && r == init + [last];
      RunJoin(p, l, init, kind);
      RunMore(p, l + init, last, kind);
      RunMore(p, init, last, kind);
      Assoc(Run(p, l, kind), Run(p, init, kind), MsgEntries(p, last, kind));
    }
  }

  // ----- entries of a column, in any order -----

  ghost function Bag(es: seq<Entry>, c: int): multiset<Entry> {
    multiset(Pick(es, c))
  }

  lemma BagNone(c: int)
    ensures Bag([], c) == multiset{}
  {
  }

  lemma BagMore(es: seq<Entry>, e: Entry, c: int)
    ensures Bag(es + [e], c) == Bag(es, c) + (if e.col == c then multiset{e} else multiset{})
  {
    PickMore(es, e, c);
  }

  lemma BagJoin(es: seq<Entry>, fs: seq<Entry>, c: int)
    ensures Bag(es + fs, c) == Bag(es, c) + Bag(fs, c)
  {
    PickJoin(es, fs, c);
  }

  lemma {:induction false} BothRunBag(p: Problem, msg: Msg, a: int, m: nat, c: int)
    ensures Bag(BothRun(p, msg, a, m), c)
         == Bag(ColRun(p, msg.k, a, msg.jgp * p.spm.dof + a, msg.igp * p.spm.dof, m), c)
          + Bag(RowRun(p, msg.k, a, msg.igp * p.spm.dof, msg.jgp * p.spm.dof + a, m), c)
  {
    hide Bag;
    BagNone(c);
    if m > 0 {
      BothRunBag(p, msg, a, m - 1, c);
      var v := p.Value(msg.k, a, m - 1);
      var i, j := msg.igp * p.spm.dof + m - 1, msg.jgp * p.spm.dof + a;
      var es := BothRun(p, msg, a, m - 1);
      assert BothRun(p, msg, a, m) == (es + [Entry(i, j, p.Mirror(v))]) + [Entry(j, i, v)];
      BagMore(es, Entry(i, j, p.Mirror(v)), c);
      BagMore(es + [Entry(i, j, p.Mirror(v))], Entry(j, i, v), c);
      BagMore(ColRun(p, msg.k, a, j, msg.igp * p.spm.dof, m - 1), Entry(j, i, v), c);
      BagMore(RowRun(p, msg.k, a, msg.igp * p.spm.dof, j, m - 1), Entry(i, j, p.Mirror(v)), c);
    }
  }

  lemma {:induction false} BothBlockBag(p: Problem, msg: Msg, m: nat, c: int)
    requires p.spm.dof >= 0
    ensures Bag(BothBlock(p, msg, m), c)
         == Bag(BlockA(p, msg.k, msg.jgp * p.spm.dof, msg.igp * p.spm.dof, m), c)
          + Bag(BlockAt(p, msg.k, msg.igp * p.spm.dof, msg.jgp * p.spm.dof, m), c)
  {
    hide Bag, BothRun, ColRun, RowRun;
    BagNone(c);
    if m > 0 {
      BothBlockBag(p, msg, m - 1, c);
      BothRunBag(p, msg, m - 1, p.spm.dof, c);
      var col, row := msg.jgp * p.spm.dof, msg.igp * p.spm.dof;
      BagJoin(BothBlock(p, msg, m - 1), BothRun(p, msg, m - 1, p.spm.dof), c);
      BagJoin(BlockA(p, msg.k, col, row, m - 1), ColRun(p, msg.k, m - 1, col + m - 1, row, p.spm.dof), c);
      BagJoin(BlockAt(p, msg.k, row, col, m - 1), RowRun(p, msg.k, m - 1, row, col + m - 1, p.spm.dof), c);
    }
  }

  // ----- one entry of the matrix -----

  /** How a pair for both is used: at once when the matrix has a mirror, in place otherwise. */
  function PairKind(w: World): Kind {
    if Sym(w) then Both else InPlace
  }

  /** Entries of column `c` brought by messages, of the matrix or of its transpose. */
  ghost function MsgsBag(w: Spread, t: bool, b: Bufs, c: int): multiset<Entry> {
    if t then Bag(Run(w.p, b.at, Mirrored), c) + Bag(Run(w.p, b.aat, Mirrored), c) else
    Bag(Run(w.p, b.a, InPlace), c) + Bag(Run(w.p, b.aat, PairKind(w)), c)
    + (if Sym(w) then Bag(Run(w.p, b.at, Mirrored), c) else multiset{})
  }

  /** Entries of column `c` that entry `k` of column `j` makes in shared memory. */
  ghost function EntryBag(w: Spread, t: bool, c: int, j: int, k: int): multiset<Entry>
    requires IsEntry(w, j, k)
  {
    if t then Bag(MirrorOf(w.p, j, k), c) else
    Bag(BlockA(w.p, k, New(w.p, j), New(w.p, w.p.Row(k)), w.p.spm.dof), c)
    + (if Sym(w) then Bag(MirrorOf(w.p, j, k), c) else multiset{})
  }

  lemma NoMsgs(w: Spread, t: bool, c: int)
    ensures MsgsBag(w, t, Bufs([], [], []), c) == multiset{}
  {
  }

  lemma OneRun(p: Valued, m: Msg, kind: Kind)
    ensures Run(p, [m], kind) == MsgEntries(p, m, kind) && Run(p, [], kind) == []
  {
    hide MsgEntries;
    assert [] + [m] == [m];
    RunMore(p, [], m, kind);
    assert [] + MsgEntries(p, m, kind) == MsgEntries(p, m, kind);
  }

  /** A block in place puts nothing in the columns of another node. */
  lemma InPlaceElsewhere(w: Spread, node: int, c: int, j: int, k: int)
    requires IsEntry(w, j, k) && InNode(w.p.spm.dof, node, c) && w.p.permtab[j] != node
    ensures Bag(BlockA(w.p, k, New(w.p, j), New(w.p, w.p.Row(k)), w.p.spm.dof), c) == multiset{}
  {
    hide Pick;
    NodeOf(w.p, node, j, c);
    PickBlockA(w.p, k, New(w.p, j), New(w.p, w.p.Row(k)), w.p.spm.dof, c);
  }

  lemma MirroredElsewhere(w: Spread, node: int, c: int, j: int, k: int)
    requires IsEntry(w, j, k) && InNode(w.p.spm.dof, node, c) && w.p.permtab[w.p.Row(k)] != node
    ensures Bag(BlockAt(w.p, k, New(w.p, w.p.Row(k)), New(w.p, j), w.p.spm.dof), c) == multiset{}
  {
    hide Pick;
    NodeOf(w.p, node, w.p.Row(k), c);
    PickBlockAt(w.p, k, New(w.p, w.p.Row(k)), New(w.p, j), w.p.spm.dof, c);
  }

  /** What another process sends for one of its entries makes the same entries in the
      columns owned here as shared memory does. */
  lemma EntrySpread(w: Spread, t: bool, h: int, q: int, node: int, c: int, j: int, k: int)
    requires (t ==> !Sym(w)) && IsEntry(w, j, k) && h != q && 0 <= node < w.p.spm.n && w.owner[node] == q
    requires InNode(w.p.spm.dof, node, c)
    ensures MsgsBag(w, t, EntryMsgs(w, h, q, j, k), c) == EntryBag(w, t, c, j, k)
  {
    hide Bag, BlockA, BlockAt, BothBlock, Run, InNode;
    var i := w.p.Row(k);
    var msg := Msg(w.p.permtab[i], w.p.permtab[j], k);
    OneRun(w.p, msg, InPlace);
    OneRun(w.p, msg, Mirrored);
    OneRun(w.p, msg, Both);
    BagNone(c);
    BothBlockBag(w.p, msg, w.p.spm.dof, c);
    if w.p.permtab[j] != node {
      InPlaceElsewhere(w, node, c, j, k);
    }
    if w.p.permtab[i] != node {
      MirroredElsewhere(w, node, c, j, k);
    }
    SameNode(w, i, j);
  }

  // ----- columns -----

  lemma MsgsJoin(w: Spread, t: bool, x: Bufs, y: Bufs, c: int)
    ensures MsgsBag(w, t, Append(x, y), c) == MsgsBag(w, t, x, c) + MsgsBag(w, t, y, c)
  {
    hide Bag, Run;
    RunJoin(w.p, x.a, y.a, InPlace);
    RunJoin(w.p, x.aat, y.aat, PairKind(w));
    RunJoin(w.p, x.at, y.at, Mirrored);
    RunJoin(w.p, x.aat, y.aat, Mirrored);
    BagJoin(Run(w.p, x.aat, Mirrored), Run(w.p, y.aat, Mirrored), c);
    BagJoin(Run(w.p, x.a, InPlace), Run(w.p, y.a, InPlace), c);
    BagJoin(Run(w.p, x.aat, PairKind(w)), Run(w.p, y.aat, PairKind(w)), c);
    BagJoin(Run(w.p, x.at, Mirrored), Run(w.p, y.at, Mirrored), c);
  }

  /** Entries of column `c` that column `j`, before entry `k`, makes in shared memory. */
  ghost function ColumnBag(w: Spread, t: bool, c: int, j: int, k: int): multiset<Entry>
    requires 0 <= j < w.p.spm.n && w.p.First(j) <= k <= w.p.First(j + 1)
  {
    if t then Bag(ColumnAt(w.p, j, k), c) else
    Bag(ColumnA(w.p, j, k), c) + (if Sym(w) then Bag(ColumnAt(w.p, j, k), c) else multiset{})
  }

  lemma ColumnBagNext(w: Spread, t: bool, c: int, j: int, k: int)
    requires 0 <= j < w.p.spm.n && w.p.First(j) <= k < w.p.First(j + 1)
    ensures IsEntry(w, j, k) && ColumnBag(w, t, c, j, k + 1) == ColumnBag(w, t, c, j, k) + EntryBag(w, t, c, j, k)
  {
    hide Bag, BlockA, MirrorOf;
    assert w.p.ColumnOK(j);
    EntryOf(w, j, k);
    var block := BlockA(w.p, k, New(w.p, j), New(w.p, w.p.Row(k)), w.p.spm.dof);
    assert ColumnA(w.p, j, k + 1) == ColumnA(w.p, j, k) + block;
    assert ColumnAt(w.p, j, k + 1) == ColumnAt(w.p, j, k) + MirrorOf(w.p, j, k);
    BagJoin(ColumnA(w.p, j, k), block, c);
    BagJoin(ColumnAt(w.p, j, k), MirrorOf(w.p, j, k), c);
  }

  lemma ColumnBagNone(w: Spread, t: bool, c: int, j: int)
    requires 0 <= j < w.p.spm.n
    ensures w.p.ColumnOK(j) && ColumnBag(w, t, c, j, w.p.First(j)) == multiset{}
  {
    assert w.p.ColumnOK(j);
  }

  lemma {:induction false} ColumnSpread(w: Spread, t: bool, h: int, q: int, node: int, c: int, j: int, k: int)
    requires 0 <= j < w.p.spm.n && w.p.First(j) <= k <= w.p.First(j + 1)
    requires (t ==> !Sym(w)) && h != q && 0 <= node < w.p.spm.n && w.owner[node] == q && InNode(w.p.spm.dof, node, c)
    ensures MsgsBag(w, t, ColumnMsgs(w, h, q, j, k), c) == ColumnBag(w, t, c, j, k)
    decreases k - w.p.First(j)
  {
    hide MsgsBag, ColumnBag, EntryMsgs, EntryBag, Append, InNode;
    if k == w.p.First(j) {
      NoMsgs(w, t, c);
      ColumnBagNone(w, t, c, j);
    } else {
      ColumnSpread(w, t, h, q, node, c, j, k - 1);
      ColumnBagNext(w, t, c, j, k - 1);
      EntrySpread(w, t, h, q, node, c, j, k - 1);
      MsgsJoin(w, t, ColumnMsgs(w, h, q, j, k - 1), EntryMsgs(w, h, q, j, k - 1), c);
    }
  }

  /** Entries of column `c` that whole column `j` makes in shared memory. */
  ghost function WholeBag(w: Spread, t: bool, c: int, j: int): multiset<Entry> {
    if 0 <= j < w.p.spm.n then
      assert w.p.ColumnOK(j);
      ColumnBag(w, t, c, j, w.p.First(j + 1))
    else multiset{}
  }

  ghost function ListBag(w: Spread, t: bool, c: int, l: seq<int>): multiset<Entry> {
    if l == [] then multiset{} else ListBag(w, t, c, l[..|l| - 1]) + WholeBag(w, t, c, l[|l| - 1])
  }

  lemma {:induction false} ListBagJoin(w: Spread, t: bool, c: int, l: seq<int>, r: seq<int>)
    ensures ListBag(w, t, c, l + r) == ListBag(w, t, c, l) + ListBag(w, t, c, r)
  {
    hide WholeBag;
    if r == [] {
      assert l + r == l;
    } else {
      assert (l + r)[..|l + r| - 1] == l + r[..|r| - 1];
      ListBagJoin(w, t, c, l, r[..|r| - 1]);
    }
  }

  /** The order of the columns does not matter. */
  lemma {:induction false} ListBagPermuted(w: Spread, t: bool, c: int, l: seq<int>, r: seq<int>)
    requires multiset(l) == multiset(r)
    ensures ListBag(w, t, c, l) == ListBag(w, t, c, r)
    decreases |l|
  {
    hide ListBag;
    assert |l| == |multiset(l)| && |r| == |multiset(r)|;
    if l != [] {
      var x := l[|l| - 1];
      var k := TakeOut(l, r);
      ListBagPermuted(w, t, c, l[..|l| - 1], r[..k] + r[k + 1..]);
      ListBagJoin(w, t, c, r[..k] + [x], r[k + 1..]);
      ListBagJoin(w, t, c, r[..k], [x]);
      ListBagJoin(w, t, c, r[..k], r[k + 1..]);
      ListBagJoin(w, t, c, l[..|l| - 1], [x]);
      assert l == l[..|l| - 1] + [x];
    }
  }

  /** What process `h` sends to the owner of column `c` makes what its columns make. */
  lemma {:induction false} HeldSpread(w: Spread, t: bool, h: int, q: int, node: int, c: int, m: int)
    requires 0 <= h < w.nprocs && 0 <= m <= |w.held[h]|
    requires (t ==> !Sym(w)) && h != q && 0 <= node < w.p.spm.n && w.owner[node] == q && InNode(w.p.spm.dof, node, c)
    ensures MsgsBag(w, t, AllMsgs(w, h, q, m), c) == ListBag(w, t, c, w.held[h][..m])
  {
    hide MsgsBag, ColumnBag, ColumnMsgs, Append, InNode;
    if m == 0 {
      NoMsgs(w, t, c);
    } else {
      assert HeldOK(w, h);
      var j := w.held[h][m - 1];
      assert w.p.ColumnOK(j);
      HeldSpread(w, t, h, q, node, c, m - 1);
      ColumnSpread(w, t, h, q, node, c, j, w.p.First(j + 1));
      MsgsJoin(w, t, AllMsgs(w, h, q, m - 1), ColumnMsgs(w, h, q, j, w.p.First(j + 1)), c);
      assert w.held[h][..m][..m - 1] == w.held[h][..m - 1];
    }
  }

  // ----- what a process writes -----

  /** In-place entries of the first `m` columns that process `q` holds. */
  ghost function HeldA(w: Spread, q: int, m: int): seq<Entry>
    requires 0 <= q < w.nprocs && 0 <= m <= |w.held[q]|
  {
    if m == 0 then [] else
    assert HeldOK(w, q);
    var j := w.held[q][m - 1];
    assert w.p.ColumnOK(j);
    HeldA(w, q, m - 1) + ColumnA(w.p, j, w.p.First(j + 1))
  }

  /** Mirrored entries of the first `m` columns that process `q` holds. */
  ghost function HeldAt(w: Spread, q: int, m: int): seq<Entry>
    requires 0 <= q < w.nprocs && 0 <= m <= |w.held[q]|
  {
    if m == 0 then [] else
    assert HeldOK(w, q);
    var j := w.held[q][m - 1];
    assert w.p.ColumnOK(j);
    HeldAt(w, q, m - 1) + ColumnAt(w.p, j, w.p.First(j + 1))
  }

  lemma HeldNext(w: Spread, q: int, m: int)
    requires 0 <= q < w.nprocs && 0 <= m < |w.held[q]|
    ensures 0 <= w.held[q][m] < w.p.spm.n && w.p.ColumnOK(w.held[q][m])
    ensures HeldA(w, q, m + 1) == HeldA(w, q, m) + ColumnA(w.p, w.held[q][m], w.p.First(w.held[q][m] + 1))
    ensures HeldAt(w, q, m + 1) == HeldAt(w, q, m) + ColumnAt(w.p, w.held[q][m], w.p.First(w.held[q][m] + 1))
  {
    assert HeldOK(w, q);
    assert w.p.ColumnOK(w.held[q][m]);
  }

  lemma {:induction false} OwnBag(w: Spread, t: bool, q: int, c: int, m: int)
    requires 0 <= q < w.nprocs && 0 <= m <= |w.held[q]|
    ensures ListBag(w, t, c, w.held[q][..m])
         == if t then Bag(HeldAt(w, q, m), c)
            else Bag(HeldA(w, q, m), c) + (if Sym(w) then Bag(HeldAt(w, q, m), c) else multiset{})
  {
    hide Bag, ColumnA, ColumnAt, HeldA, HeldAt, ListBag;
    if m == 0 {
      NothingHeld(w, q);
      NothingListed(w, t, c);
      BagNone(c);
    } else {
      OwnBag(w, t, q, c, m - 1);
      HeldNext(w, q, m - 1);
      var j := w.held[q][m - 1];
      BagJoin(HeldA(w, q, m - 1), ColumnA(w.p, j, w.p.First(j + 1)), c);
      BagJoin(HeldAt(w, q, m - 1), ColumnAt(w.p, j, w.p.First(j + 1)), c);
      ListNext(w, t, c, w.held[q], m - 1);
    }
  }

  lemma ListNext(w: Spread, t: bool, c: int, l: seq<int>, m: int)
    requires 0 <= m < |l|
    ensures ListBag(w, t, c, l[..m + 1]) == ListBag(w, t, c, l[..m]) + WholeBag(w, t, c, l[m])
  {
    assert l[..m + 1][..m] == l[..m];
  }

  lemma NothingHeld(w: Spread, q: int)
    requires 0 <= q < w.nprocs
    ensures HeldA(w, q, 0) == [] && HeldAt(w, q, 0) == []
  {
  }

  /** The three kinds of buffers. */
  datatype Which = ForA | ForAt | ForAAt

  function Of(b: Bufs, which: Which): seq<Msg> {
    match which
    case ForA => b.a
    case ForAt => b.at
    case ForAAt => b.aat
  }

  /** All that process `h` sends to process `q`. */
  ghost function SentTo(w: Spread, h: int, q: int): Bufs {
    if 0 <= h < w.nprocs then AllMsgs(w, h, q, |w.held[h]|) else Bufs([], [], [])
  }

  /** Entries that process `q` receives from the first `m` processes it meets on
      the ring, in one kind of buffers. */
  ghost function FromRing(w: Spread, q: int, which: Which, kind: Kind, m: int): seq<Entry>
    requires 0 <= q < w.nprocs && 0 <= m <= w.nprocs - 1
  {
    if m == 0 then [] else
    var b := SentTo(w, Ring.RecvFrom(w.nprocs, q, m - 1), q);
    FromRing(w, q, which, kind, m - 1) + Run(w.p, Of(b, which), kind)
  }

  /** All that process `q` writes, in order. */
  ghost function WrittenBy(w: Spread, q: int): seq<Entry>
    requires 0 <= q < w.nprocs
  {
    var m := w.nprocs - 1;
    var a := FromRing(w, q, ForA, InPlace, m) + FromRing(w, q, ForAAt, PairKind(w), m) + HeldA(w, q, |w.held[q]|);
    if Sym(w) then a + FromRing(w, q, ForAt, Mirrored, m) + HeldAt(w, q, |w.held[q]|) else a
  }

  /** What the processes met on the ring make together. */
  ghost function RingBag(w: Spread, t: bool, q: int, c: int, m: int): multiset<Entry>
    requires 0 <= q < w.nprocs && 0 <= m <= w.nprocs - 1
  {
    if m == 0 then multiset{} else
    RingBag(w, t, q, c, m - 1) + ListBag(w, t, c, w.held[Ring.RecvFrom(w.nprocs, q, m - 1)])
  }

  /** What the buffers received from them put in column `c`. */
  ghost function Brought(w: Spread, t: bool, q: int, c: int, m: int): multiset<Entry>
    requires 0 <= q < w.nprocs && 0 <= m <= w.nprocs - 1
  {
    if t then Bag(FromRing(w, q, ForAt, Mirrored, m), c) + Bag(FromRing(w, q, ForAAt, Mirrored, m), c) else
    Bag(FromRing(w, q, ForA, InPlace, m), c) + Bag(FromRing(w, q, ForAAt, PairKind(w), m), c)
    + (if Sym(w) then Bag(FromRing(w, q, ForAt, Mirrored, m), c) else multiset{})
  }

  lemma {:induction false} FromRingBag(w: Spread, t: bool, q: int, node: int, c: int, m: int)
    requires 0 <= q < w.nprocs && 0 <= m <= w.nprocs - 1
    requires (t ==> !Sym(w)) && 0 <= node < w.p.spm.n && w.owner[node] == q && InNode(w.p.spm.dof, node, c)
    ensures RingBag(w, t, q, c, m) == Brought(w, t, q, c, m)
  {
    hide Bag, Run, ListBag, AllMsgs, InNode;
    if m == 0 {
      BagNone(c);
    } else {
      FromRingBag(w, t, q, node, c, m - 1);
      var h := Ring.RecvFrom(w.nprocs, q, m - 1);
      HeldSpread(w, t, h, q, node, c, |w.held[h]|);
      assert w.held[h][..|w.held[h]|] == w.held[h];
      var b := SentTo(w, h, q);
      BagJoin(FromRing(w, q, ForA, InPlace, m - 1), Run(w.p, b.a, InPlace), c);
      BagJoin(FromRing(w, q, ForAAt, PairKind(w), m - 1), Run(w.p, b.aat, PairKind(w)), c);
      BagJoin(FromRing(w, q, ForAt, Mirrored, m - 1), Run(w.p, b.at, Mirrored), c);
      BagJoin(FromRing(w, q, ForAAt, Mirrored, m - 1), Run(w.p, b.aat, Mirrored), c);
    }
  }

  /** What processes `lo` to `hi` make together. */
  ghost function RangeBag(w: Spread, t: bool, c: int, lo: int, hi: int): multiset<Entry>
    requires 0 <= lo <= hi <= w.nprocs
    decreases hi - lo
  {
    if lo == hi then multiset{} else RangeBag(w, t, c, lo, hi - 1) + ListBag(w, t, c, w.held[hi - 1])
  }

  lemma {:induction false} RangeFirst(w: Spread, t: bool, c: int, lo: int, hi: int)
    requires 0 <= lo < hi <= w.nprocs
    ensures RangeBag(w, t, c, lo, hi) == ListBag(w, t, c, w.held[lo]) + RangeBag(w, t, c, lo + 1, hi)
    decreases hi - lo
  {
    hide ListBag;
    if lo + 1 < hi {
      RangeFirst(w, t, c, lo, hi - 1);
    }
  }

  lemma {:induction false} RangeJoin(w: Spread, t: bool, c: int, lo: int, mid: int, hi: int)
    requires 0 <= lo <= mid <= hi <= w.nprocs
    ensures RangeBag(w, t, c, lo, hi) == RangeBag(w, t, c, lo, mid) + RangeBag(w, t, c, mid, hi)
    decreases hi - mid
  {
    hide ListBag;
    if mid < hi {
      RangeJoin(w, t, c, lo, mid, hi - 1);
    }
  }

  /** The ring meets the processes below `q` downwards, then those above it. */
  lemma {:induction false} RingIsRange(w: Spread, t: bool, q: int, c: int, m: int)
    requires 0 <= q < w.nprocs && 0 <= m <= w.nprocs - 1
    ensures RingBag(w, t, q, c, m)
         == if m <= q then RangeBag(w, t, c, q - m, q)
             else RangeBag(w, t, c, 0, q) + RangeBag(w, t, c, w.nprocs - (m - q), w.nprocs)
    decreases m
  {
    hide ListBag, RangeBag;
    if m == 0 {
      EmptyRange(w, t, c, q);
    } else {
      RingIsRange(w, t, q, c, m - 1);
      var h := Ring.RecvFrom(w.nprocs, q, m - 1);
      EmptyRange(w, t, c, w.nprocs);
      RangeFirst(w, t, c, h, if m <= q then q else w.nprocs);
    }
  }

  lemma EmptyRange(w: Spread, t: bool, c: int, x: int)
    requires 0 <= x <= w.nprocs
    ensures RangeBag(w, t, c, x, x) == multiset{}
  {
  }

  lemma {:induction false} AllHeldBag(w: Spread, t: bool, c: int, n: int)
    requires 0 <= n <= w.nprocs
    ensures ListBag(w, t, c, AllHeld(w, n)) == RangeBag(w, t, c, 0, n)
  {
    hide ListBag;
    if n == 0 {
      NothingListed(w, t, c);
    } else {
      AllHeldBag(w, t, c, n - 1);
      ListBagJoin(w, t, c, AllHeld(w, n - 1), w.held[n - 1]);
    }
  }

  lemma NothingListed(w: Spread, t: bool, c: int)
    ensures ListBag(w, t, c, []) == multiset{}
  {
  }

  lemma {:induction false} RangeOfColumns(w: Spread, t: bool, c: int, m: nat)
    requires m <= w.p.spm.n
    ensures ListBag(w, t, c, Range(m))
         == if t then Bag(AllAt(w.p, m), c)
            else Bag(AllA(w.p, m), c) + (if Sym(w) then Bag(AllAt(w.p, m), c) else multiset{})
  {
    hide Bag, ColumnA, ColumnAt;
    if m == 0 {
      BagNone(c);
    } else {
      RangeOfColumns(w, t, c, m - 1);
      assert w.p.ColumnOK(m - 1);
      assert Range(m)[..m - 1] == Range(m - 1);
      BagJoin(AllA(w.p, m - 1), ColumnA(w.p, m - 1, w.p.First(m)), c);
      BagJoin(AllAt(w.p, m - 1), ColumnAt(w.p, m - 1, w.p.First(m)), c);
    }
  }

  /** All that process `q` writes of the transpose of a general matrix, in order. */
  ghost function TransposedBy(w: Spread, q: int): seq<Entry>
    requires 0 <= q < w.nprocs
  {
    var m := w.nprocs - 1;
    HeldAt(w, q, |w.held[q]|) + FromRing(w, q, ForAt, Mirrored, m) + FromRing(w, q, ForAAt, Mirrored, m)
  }

  /** What the ring brings and what is held make together what all columns make. */
  lemma RingAndHeld(w: Spread, t: bool, q: int, node: int, c: int)
    requires (t ==> !Sym(w)) && Partition(w) && 0 <= q < w.nprocs
    requires 0 <= node < w.p.spm.n && w.owner[node] == q && InNode(w.p.spm.dof, node, c)
    ensures RingBag(w, t, q, c, w.nprocs - 1) + ListBag(w, t, c, w.held[q]) == ListBag(w, t, c, Range(w.p.spm.n))
  {
    hide Bag, ListBag, RingBag, RangeBag, AllHeld, Range, InNode;
    RingIsRange(w, t, q, c, w.nprocs - 1);
    EmptyRange(w, t, c, w.nprocs);
    RangeFirst(w, t, c, q, w.nprocs);
    RangeJoin(w, t, c, 0, q, w.nprocs);
    AllHeldBag(w, t, c, w.nprocs);
    ListBagPermuted(w, t, c, AllHeld(w, w.nprocs), Range(w.p.spm.n));
  }

  /** Whatever the distribution, what the owner of a column writes in it is what shared
      memory writes, in some order. */
  lemma SpreadIsWritten(w: Spread, node: int, c: int)
    requires Partition(w) && 0 <= node < w.p.spm.n && InNode(w.p.spm.dof, node, c)
    ensures Bag(WrittenBy(w, w.owner[node]), c) == Bag(Written(w.p, w.p.spm.n), c)
  {
    hide Bag, ListBag, AllA, AllAt, FromRing, HeldA, HeldAt, RingBag, Range, InNode;
    var q := w.owner[node];
    FromRingBag(w, false, q, node, c, w.nprocs - 1);
    OwnBag(w, false, q, c, |w.held[q]|);
    assert w.held[q][..|w.held[q]|] == w.held[q];
    RingAndHeld(w, false, q, node, c);
    RangeOfColumns(w, false, c, w.p.spm.n);
    WrittenBag(w, c);
    SpreadBag(w, q, c);
  }

  /** The same of the transpose of a general matrix. */
  lemma SpreadIsTransposed(w: Spread, node: int, c: int)
    requires !Sym(w) && Partition(w) && 0 <= node < w.p.spm.n && InNode(w.p.spm.dof, node, c)
    ensures Bag(TransposedBy(w, w.owner[node]), c) == Bag(AllAt(w.p, w.p.spm.n), c)
  {
    hide Bag, ListBag, AllA, AllAt, FromRing, HeldA, HeldAt, RingBag, Range, InNode;
    var q, m := w.owner[node], w.nprocs - 1;
    FromRingBag(w, true, q, node, c, m);
    OwnBag(w, true, q, c, |w.held[q]|);
    assert w.held[q][..|w.held[q]|] == w.held[q];
    RingAndHeld(w, true, q, node, c);
    RangeOfColumns(w, true, c, w.p.spm.n);
    var held, at := HeldAt(w, q, |w.held[q]|), FromRing(w, q, ForAt, Mirrored, m);
    BagJoin(held, at, c);
    BagJoin(held + at, FromRing(w, q, ForAAt, Mirrored, m), c);
  }

  lemma WrittenBag(w: Spread, c: int)
    ensures Bag(Written(w.p, w.p.spm.n), c)
         == Bag(AllA(w.p, w.p.spm.n), c) + (if Sym(w) then Bag(AllAt(w.p, w.p.spm.n), c) else multiset{})
  {
    hide Bag, AllA, AllAt;
    BagNone(c);
    BagJoin(AllA(w.p, w.p.spm.n), if Sym(w) then AllAt(w.p, w.p.spm.n) else [], c);
  }

  lemma SpreadBag(w: Spread, q: int, c: int)
    requires 0 <= q < w.nprocs
    ensures var m := w.nprocs - 1;
      Bag(WrittenBy(w, q), c)
      == (Bag(FromRing(w, q, ForA, InPlace, m), c) + Bag(FromRing(w, q, ForAAt, PairKind(w), m), c)
          + (if Sym(w) then Bag(FromRing(w, q, ForAt, Mirrored, m), c) else multiset{}))
       + (Bag(HeldA(w, q, |w.held[q]|), c) + (if Sym(w) then Bag(HeldAt(w, q, |w.held[q]|), c) else multiset{}))
  {
    hide Bag, FromRing, HeldA, HeldAt;
    var m := w.nprocs - 1;
    var x, y, z := FromRing(w, q, ForA, InPlace, m), FromRing(w, q, ForAAt, PairKind(w), m), HeldA(w, q, |w.held[q]|);
    BagJoin(x, y, c);
    BagJoin(x + y, z, c);
    if Sym(w) {
      BagJoin(x + y + z, FromRing(w, q, ForAt, Mirrored, m), c);
      BagJoin(x + y + z + FromRing(w, q, ForAt, Mirrored, m), HeldAt(w, q, |w.held[q]|), c);
    }
  }
}
