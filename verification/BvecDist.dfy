/** Redistribution of a right-hand side between the user's rows and the permuted rows of
    the solver. The values of one unknown, over its degrees of freedom and all columns,
    move together. */
module BvecDist {
  import opened Permute
  import opened Ring

  /** Values of one unknown. */
  type Chunk = seq<real>

  datatype Item = Item(idx: int, val: Chunk)

  /** Unknowns held by each process in the user's distribution, with holder and place of
      each, and the owner of each permuted unknown. */
  datatype Share = Share(permtab: seq<int>, peritab: seq<int>, nprocs: int, held: seq<seq<int>>,
                         holder: seq<int>, place: seq<int>, owner: seq<int>, lcol: seq<int>)

  ghost predicate PlaceOK(w: Share, i: int)
    requires 0 <= i < |w.holder| == |w.place| && w.nprocs == |w.held|
  {
    0 <= w.holder[i] < w.nprocs && 0 <= w.place[i] < |w.held[w.holder[i]]| && w.held[w.holder[i]][w.place[i]] == i
  }

  ghost predicate HeldOK(w: Share, q: int)
    requires 0 <= q < |w.held| && |w.holder| == |w.place|
  {
    forall x :: 0 <= x < |w.held[q]| ==>
      var i := w.held[q][x]; 0 <= i < |w.holder| && w.holder[i] == q && w.place[i] == x
  }

  /** Every unknown is held once; `lcol` numbers the permuted unknowns of each owner. */
  ghost predicate ShareOK(w: Share) {
    && Inverse(w.permtab, w.peritab) && w.nprocs > 0 && |w.held| == w.nprocs
    && |w.holder| == |w.place| == |w.owner| == |w.lcol| == |w.permtab|
    && (forall i :: 0 <= i < |w.holder| ==> PlaceOK(w, i))
    && (forall q :: 0 <= q < w.nprocs ==> HeldOK(w, q))
    && (forall i :: 0 <= i < |w.owner| ==> 0 <= w.owner[i] < w.nprocs)
    && (forall i :: 0 <= i < |w.owner| ==> w.lcol[i] == Rank(w.owner, w.owner[i], i))
  }

  type Shared = w: Share | ShareOK(w) witness Share([], [], 1, [[]], [], [], [], [])

  // ----- local numbers of the permuted unknowns -----

  /** Permuted unknowns below `n` owned by `q`, in increasing order. */
  ghost function Owned(owner: seq<int>, q: int, n: int): (r: seq<int>)
    requires 0 <= n <= |owner|
    ensures |r| <= n
  {
    if n == 0 then [] else Owned(owner, q, n - 1) + (if owner[n - 1] == q then [n - 1] else [])
  }

  /** Number of unknowns of `q` before the permuted unknown `igp`. */
  ghost function Rank(owner: seq<int>, q: int, igp: int): (r: int)
    requires 0 <= igp < |owner|
    ensures r >= 0
  {
    |Owned(owner, q, igp)|
  }

  lemma {:induction false} OwnedGrows(owner: seq<int>, q: int, m: int, n: int)
    requires 0 <= m <= n <= |owner|
    ensures Owned(owner, q, m) <= Owned(owner, q, n)
    decreases n
  {
    if m < n {
      OwnedGrows(owner, q, m, n - 1);
    }
  }

  lemma OwnedAtRank(owner: seq<int>, q: int, igp: int)
    requires 0 <= igp < |owner| && owner[igp] == q
    ensures Rank(owner, q, igp) < |Owned(owner, q, |owner|)| && Owned(owner, q, |owner|)[Rank(owner, q, igp)] == igp
  {
    OwnedGrows(owner, q, igp + 1, |owner|);
  }

  lemma {:induction false} RankOfOwned(owner: seq<int>, q: int, n: int, r: int)
    requires 0 <= n <= |owner| && 0 <= r < |Owned(owner, q, n)|
    ensures 0 <= Owned(owner, q, n)[r] < n && owner[Owned(owner, q, n)[r]] == q
    ensures Rank(owner, q, Owned(owner, q, n)[r]) == r
  {
    if r < |Owned(owner, q, n - 1)| {
      RankOfOwned(owner, q, n - 1, r);
    }
  }

  /** Different unknowns of one owner have different local numbers. */
  lemma RanksApart(owner: seq<int>, q: int, i: int, j: int)
    requires 0 <= i < |owner| && 0 <= j < |owner| && owner[i] == q == owner[j] && i != j
    ensures Rank(owner, q, i) != Rank(owner, q, j)
  {
    OwnedAtRank(owner, q, i);
    OwnedAtRank(owner, q, j);
  }

  /** Number of permuted unknowns owned by `q`. */
  ghost function OwnedNbr(w: Shared, q: int): int {
    |Owned(w.owner, q, |w.owner|)|
  }

  /** The owned permuted unknowns, in increasing order. */
  method ComputePloc2Pglob(owner: seq<int>, q: int, bcscn: int) returns (ploc2pglob: array<int>)
    requires bcscn == |Owned(owner, q, |owner|)|
    ensures fresh(ploc2pglob) && ploc2pglob[..] == Owned(owner, q, |owner|)
  {
    hide Owned;
    ploc2pglob := new int[bcscn];
    var klp := 0;
    OwnedNext(owner, q, 0);
    for kgp := 0 to |owner|
      invariant klp == |Owned(owner, q, kgp)| <= bcscn
      invariant forall x :: 0 <= x < klp ==> ploc2pglob[x] == Owned(owner, q, kgp)[x]
    {
      OwnedGrows(owner, q, kgp + 1, |owner|);
      OwnedNext(owner, q, kgp);
      if owner[kgp] == q {
        ploc2pglob[klp] := kgp;
        klp := klp + 1;
      }
    }
    assert klp == bcscn;
  }

  lemma OwnedNext(owner: seq<int>, q: int, n: int)
    requires 0 <= n <= |owner|
    ensures Owned(owner, q, 0) == []
    ensures n < |owner| ==> Owned(owner, q, n + 1) == Owned(owner, q, n) + (if owner[n] == q then [n] else [])
  {
  }

  /** Permuted local number of unknown `ig`, or minus one minus its owner. */
  function Glob2Ploc(w: Shared, q: int, ig: int): int
    requires 0 <= ig < |w.owner|
  {
    var igp := w.permtab[ig];
    if w.owner[igp] == q then w.lcol[igp] else -w.owner[igp] - 1
  }

  /** Local number of the unknown whose permuted number is `igp`, or minus one minus its holder. */
  function Pglob2Loc(w: Shared, q: int, igp: int): int
    requires 0 <= igp < |w.owner|
  {
    var ig := w.peritab[igp];
    assert PlaceOK(w, ig);
    if w.holder[ig] == q then w.place[ig] else -w.holder[ig] - 1
  }

  /** Owner of unknown `ig`, once permuted. */
  function OwnerOf(w: Shared, ig: int): (q: int)
    requires 0 <= ig < |w.owner|
    ensures 0 <= q < w.nprocs
  {
    w.owner[w.permtab[ig]]
  }

  lemma HeldAt(w: Shared, q: int, il: int)
    requires 0 <= q < w.nprocs && 0 <= il < |w.held[q]|
    ensures 0 <= w.held[q][il] < |w.owner| && w.holder[w.held[q][il]] == q && w.place[w.held[q][il]] == il
  {
    assert HeldOK(w, q);
  }

  /** An owned unknown has a place among those of its owner. */
  lemma PlocInRange(w: Shared, q: int, ig: int)
    requires 0 <= ig < |w.owner| && OwnerOf(w, ig) == q
    ensures 0 <= Glob2Ploc(w, q, ig) < OwnedNbr(w, q)
    ensures Owned(w.owner, q, |w.owner|)[Glob2Ploc(w, q, ig)] == w.permtab[ig]
  {
    OwnedAtRank(w.owner, q, w.permtab[ig]);
  }

  lemma PlocsApart(w: Shared, q: int, i: int, j: int)
    requires 0 <= i < |w.owner| && 0 <= j < |w.owner| && OwnerOf(w, i) == q == OwnerOf(w, j) && i != j
    ensures Glob2Ploc(w, q, i) != Glob2Ploc(w, q, j)
  {
    assert w.peritab[w.permtab[i]] == i && w.peritab[w.permtab[j]] == j;
    RanksApart(w.owner, q, w.permtab[i], w.permtab[j]);
  }

  // ----- forward: what is sent -----

  /** What `q` sends to `c` among the first `m` rows it holds. */
  ghost function SentF(w: Shared, q: int, c: int, b: seq<Chunk>, m: int): seq<Item>
    requires 0 <= q < w.nprocs && 0 <= m <= |w.held[q]| == |b|
  {
    if m == 0 then [] else
    HeldAt(w, q, m - 1);
    SentF(w, q, c, b, m - 1)
    + (if OwnerOf(w, w.held[q][m - 1]) == c != q then [Item(w.held[q][m - 1], b[m - 1])] else [])
  }

  /** How many rows that makes. */
  ghost function AmountF(w: Shared, q: int, c: int, m: int): (n: int)
    requires 0 <= q < w.nprocs && 0 <= m <= |w.held[q]|
    ensures n >= 0
  {
    if m == 0 then 0 else
    HeldAt(w, q, m - 1);
    AmountF(w, q, c, m - 1) + (if OwnerOf(w, w.held[q][m - 1]) == c != q then 1 else 0)
  }

  lemma {:induction false} SentFSize(w: Shared, q: int, c: int, b: seq<Chunk>, m: int)
    requires 0 <= q < w.nprocs && 0 <= m <= |w.held[q]| == |b|
    ensures |SentF(w, q, c, b, m)| == AmountF(w, q, c, m)
  {
    if m > 0 {
      SentFSize(w, q, c, b, m - 1);
    }
  }

  lemma {:induction false} SentFGrows(w: Shared, q: int, c: int, b: seq<Chunk>, m: int, n: int)
    requires 0 <= q < w.nprocs && 0 <= m <= n <= |w.held[q]| == |b|
    ensures SentF(w, q, c, b, m) <= SentF(w, q, c, b, n)
    decreases n
  {
    if m < n {
      SentFGrows(w, q, c, b, m, n - 1);
    }
  }

  /** Amounts to send, from the rows held. */
  method ComputeAmount(w: Shared, q: int) returns (nsends: array<int>)
    requires 0 <= q < w.nprocs
    ensures fresh(nsends) && nsends.Length == w.nprocs
    ensures forall c :: 0 <= c < w.nprocs ==> nsends[c] == AmountF(w, q, c, |w.held[q]|)
  {
    nsends := new int[w.nprocs](_ => 0);
    for il := 0 to |w.held[q]|
      invariant forall c :: 0 <= c < w.nprocs ==> nsends[c] == AmountF(w, q, c, il)
    {
      HeldAt(w, q, il);
      var ig := w.held[q][il];
      var ilpe := Glob2Ploc(w, q, ig);
      PlocSign(w, q, ig);
      if ilpe < 0 {
        var c := -(ilpe + 1);
        nsends[c] := nsends[c] + 1;
      }
    }
  }

  lemma PlocSign(w: Shared, q: int, ig: int)
    requires 0 <= ig < |w.owner|
    ensures Glob2Ploc(w, q, ig) < 0 <==> OwnerOf(w, ig) != q
    ensures OwnerOf(w, ig) != q ==> -(Glob2Ploc(w, q, ig) + 1) == OwnerOf(w, ig)
  {
    if OwnerOf(w, ig) == q {
      PlocInRange(w, q, ig);
    }
  }

  // ----- send buffers -----

  /** The first `n` places of the buffer hold the items. */
  ghost predicate Part(buf: seq<Item>, n: int, items: seq<Item>) {
    n == |items| <= |buf| && buf[..n] == items
  }

  /** One buffer a process, of the announced size. */
  method AllocateBuf(nsends: array<int>) returns (buf: array<seq<Item>>)
    requires forall c :: 0 <= c < nsends.Length ==> nsends[c] >= 0
    ensures fresh(buf) && buf.Length == nsends.Length && forall c :: 0 <= c < buf.Length ==> |buf[c]| == nsends[c]
  {
    buf := new seq<Item>[nsends.Length](_ => []);
    for c := 0 to nsends.Length
      invariant forall d :: 0 <= d < c ==> |buf[d]| == nsends[d]
    {
      buf[c] := seq(nsends[c], _ => Item(0, []));
    }
  }

  /** The next place of the buffer for `c` takes the item. */
  method PutItem(buf: array<seq<Item>>, cnt: array<int>, c: int, item: Item, ghost items: seq<Item>)
    requires 0 <= c < buf.Length == cnt.Length && Part(buf[c], cnt[c], items) && |items| < |buf[c]|
    modifies buf, cnt
    ensures Part(buf[c], cnt[c], items + [item]) && |buf[c]| == |old(buf[c])|
    ensures forall d :: 0 <= d < buf.Length && d != c ==> buf[d] == old(buf[d]) && cnt[d] == old(cnt[d])
  {
    buf[c] := buf[c][cnt[c] := item];
    cnt[c] := cnt[c] + 1;
  }

  // ----- forward: what is placed -----

  /** Value of unknown `ig` in the user's rows. */
  ghost function ValueOf(w: Shared, bs: seq<seq<Chunk>>, ig: int): Chunk
    requires RowsOK(w, bs) && 0 <= ig < |w.owner|
  {
    assert PlaceOK(w, ig);
    bs[w.holder[ig]][w.place[ig]]
  }

  ghost predicate RowsOK(w: Shared, bs: seq<seq<Chunk>>) {
    |bs| == w.nprocs && forall q :: 0 <= q < w.nprocs ==> |bs[q]| == |w.held[q]|
  }

  /** Unknown `ig` stands at its permuted place on process `q`. */
  ghost predicate PlacedF(w: Shared, q: int, bs: seq<seq<Chunk>>, pb: seq<Chunk>, ig: int)
    requires RowsOK(w, bs) && 0 <= ig < |w.owner| && OwnerOf(w, ig) == q && |pb| == OwnedNbr(w, q)
  {
    PlocInRange(w, q, ig);
    pb[Glob2Ploc(w, q, ig)] == ValueOf(w, bs, ig)
  }

  /** Placing one unknown disturbs no other. */
  lemma PlaceOneF(w: Shared, q: int, bs: seq<seq<Chunk>>, pb: seq<Chunk>, ig: int, i: int)
    requires RowsOK(w, bs) && 0 <= ig < |w.owner| && OwnerOf(w, ig) == q && |pb| == OwnedNbr(w, q)
    requires 0 <= i < |w.owner| && OwnerOf(w, i) == q && (i == ig || PlacedF(w, q, bs, pb, i))
    ensures 0 <= Glob2Ploc(w, q, ig) < |pb|
    ensures PlacedF(w, q, bs, pb[Glob2Ploc(w, q, ig) := ValueOf(w, bs, ig)], i)
  {
    PlocInRange(w, q, ig);
    PlocInRange(w, q, i);
    if i != ig {
      PlocsApart(w, q, i, ig);
    }
  }

  /** Rows of process `h` below `m` are placed. */
  ghost predicate PlacedFrom(w: Shared, q: int, bs: seq<seq<Chunk>>, pb: seq<Chunk>, h: int, m: int)
    requires RowsOK(w, bs) && |pb| == OwnedNbr(w, q)
  {
    forall ig :: 0 <= ig < |w.owner| && OwnerOf(w, ig) == q && w.holder[ig] == h && w.place[ig] < m ==>
        PlacedF(w, q, bs, pb, ig)
  }

  /** All rows of process `h` are placed. */
  ghost predicate PlacedHolder(w: Shared, q: int, bs: seq<seq<Chunk>>, pb: seq<Chunk>, h: int)
    requires RowsOK(w, bs) && |pb| == OwnedNbr(w, q)
  {
    forall ig :: 0 <= ig < |w.owner| && OwnerOf(w, ig) == q && w.holder[ig] == h ==> PlacedF(w, q, bs, pb, ig)
  }

  lemma PlacedNext(w: Shared, q: int, bs: seq<seq<Chunk>>, pb: seq<Chunk>, next: seq<Chunk>, h: int, m: int)
    requires RowsOK(w, bs) && |pb| == |next| == OwnedNbr(w, q) && 0 <= h < w.nprocs && 0 <= m < |w.held[h]|
    requires PlacedFrom(w, q, bs, pb, h, m)
    requires HeldOK(w, h) && 0 <= w.held[h][m] < |w.owner|
    requires if OwnerOf(w, w.held[h][m]) == q
      then 0 <= Glob2Ploc(w, q, w.held[h][m]) < |pb| && next == pb[Glob2Ploc(w, q, w.held[h][m]) := bs[h][m]]
          else next == pb
    ensures PlacedFrom(w, q, bs, next, h, m + 1)
    ensures forall g :: g != h && PlacedHolder(w, q, bs, pb, g) ==> PlacedHolder(w, q, bs, next, g)
  {
    hide PlacedF, Glob2Ploc, OwnerOf, Owned;
    var ig := w.held[h][m];
    HeldAt(w, h, m);
    assert ValueOf(w, bs, ig) == bs[h][m];
    forall i | 0 <= i < |w.owner| && OwnerOf(w, i) == q && w.holder[i] == h && w.place[i] < m + 1
      ensures PlacedF(w, q, bs, next, i)
    {
      if w.place[i] == m {
        SamePlace(w, i, ig);
      }
      if OwnerOf(w, ig) == q {
        PlaceOneF(w, q, bs, pb, ig, i);
      }
    }
    forall g | g != h && PlacedHolder(w, q, bs, pb, g)
      ensures PlacedHolder(w, q, bs, next, g)
    {
      forall i | 0 <= i < |w.owner| && OwnerOf(w, i) == q && w.holder[i] == g
        ensures PlacedF(w, q, bs, next, i)
      {
        if OwnerOf(w, ig) == q {
          PlaceOneF(w, q, bs, pb, ig, i);
        }
      }
    }
  }

  lemma SamePlace(w: Shared, i: int, j: int)
    requires 0 <= i < |w.owner| && 0 <= j < |w.owner| && w.holder[i] == w.holder[j] && w.place[i] == w.place[j]
    ensures i == j
  {
    assert PlaceOK(w, i) && PlaceOK(w, j);
  }

  lemma PlacedAll(w: Shared, q: int, bs: seq<seq<Chunk>>, pb: seq<Chunk>, h: int)
    requires RowsOK(w, bs) && |pb| == OwnedNbr(w, q) && 0 <= h < w.nprocs && PlacedFrom(w, q, bs, pb, h, |w.held[h]|)
    ensures PlacedHolder(w, q, bs, pb, h)
  {
    hide PlacedF, OwnerOf;
    forall ig | 0 <= ig < |w.owner| && OwnerOf(w, ig) == q && w.holder[ig] == h
      ensures PlacedF(w, q, bs, pb, ig)
    {
      assert PlaceOK(w, ig);
    }
  }

  /** Buffers of the amounts announced by `q`, filled up to row `m`. */
  ghost predicate FilledF(w: Shared, q: int, b: seq<Chunk>, buf: seq<seq<Item>>, cnt: seq<int>, c: int, m: int)
    requires 0 <= q < w.nprocs && 0 <= m <= |w.held[q]| == |b| && 0 <= c < |buf| == |cnt|
  {
    Part(buf[c], cnt[c], SentF(w, q, c, b, m)) && |buf[c]| == AmountF(w, q, c, |w.held[q]|)
  }

  ghost predicate AllFilledF(w: Shared, q: int, b: seq<Chunk>, buf: seq<seq<Item>>, cnt: seq<int>, m: int)
    requires 0 <= q < w.nprocs && 0 <= m <= |w.held[q]| == |b|
  {
    |buf| == |cnt| == w.nprocs && forall c :: 0 <= c < w.nprocs ==> FilledF(w, q, b, buf, cnt, c, m)
  }

  /** One row: placed here or stored for its owner. */
  method ForwardRow(w: Shared, q: int, b: array<Chunk>, pb: array<Chunk>, buf: array<seq<Item>>, cnt: array<int>,
          il: int,
                    ghost bs: seq<seq<Chunk>>)
    requires 0 <= q < w.nprocs && 0 <= il < |w.held[q]| == b.Length && RowsOK(w, bs) && bs[q] == b[..] && b != pb
    requires pb.Length == OwnedNbr(w, q) && buf.Length == cnt.Length == w.nprocs
    requires AllFilledF(w, q, b[..], buf[..], cnt[..], il)
    requires PlacedFrom(w, q, bs, pb[..], q, il)
    modifies pb, buf, cnt
    ensures AllFilledF(w, q, b[..], buf[..], cnt[..], il + 1)
    ensures PlacedFrom(w, q, bs, pb[..], q, il + 1)
  {
    hide PlacedFrom, Glob2Ploc, AmountF, SentF, Part, Owned;
    HeldAt(w, q, il);
    assert HeldOK(w, q);
    var ig := w.held[q][il];
    var ilpe := Glob2Ploc(w, q, ig);
    PlocSign(w, q, ig);
    ghost var was, buf0, cnt0 := pb[..], buf[..], cnt[..];
    forall c | 0 <= c < w.nprocs
      ensures FilledF(w, q, b[..], buf0, cnt0, c, il)
      ensures SentF(w, q, c, b[..], il + 1)
           == if OwnerOf(w, ig) == c != q then SentF(w, q, c, b[..], il) + [Item(ig, b[il])]
               else SentF(w, q, c, b[..], il)
      ensures OwnerOf(w, ig) == c != q ==> |SentF(w, q, c, b[..], il)| < AmountF(w, q, c, |w.held[q]|)
    {
      SentFNext(w, q, c, b[..], il);
    }
    if ilpe < 0 {
      var c := -(ilpe + 1);
      assert FilledF(w, q, b[..], buf[..], cnt[..], c, il);
      PutItem(buf, cnt, c, Item(ig, b[il]), SentF(w, q, c, b[..], il));
    } else {
      PlocInRange(w, q, ig);
      pb[ilpe] := b[il];
    }
    PlacedNext(w, q, bs, was, pb[..], q, il);
    var m := il + 1;
    forall c | 0 <= c < w.nprocs
      ensures FilledF(w, q, b[..], buf[..], cnt[..], c, m)
    {
      assert FilledF(w, q, b[..], buf0, cnt0, c, il);
    }
  }

  lemma SentFNext(w: Shared, q: int, c: int, b: seq<Chunk>, il: int)
    requires 0 <= q < w.nprocs && 0 <= il < |w.held[q]| == |b|
    ensures 0 <= w.held[q][il] < |w.owner|
    ensures SentF(w, q, c, b, il + 1)
         == if OwnerOf(w, w.held[q][il]) == c != q then SentF(w, q, c, b, il) + [Item(w.held[q][il], b[il])]
             else SentF(w, q, c, b, il)
    ensures OwnerOf(w, w.held[q][il]) == c != q ==> |SentF(w, q, c, b, il)| < AmountF(w, q, c, |w.held[q]|)
  {
    HeldAt(w, q, il);
    SentFGrows(w, q, c, b, il + 1, |w.held[q]|);
    SentFSize(w, q, c, b, |w.held[q]|);
  }

  /** Place the rows owned here, and fill the announced buffers with the others. */
  method FillForward(w: Shared, q: int, b: array<Chunk>, pb: array<Chunk>, nsends: array<int>,
          ghost bs: seq<seq<Chunk>>)
      returns (buf: array<seq<Item>>)
    requires 0 <= q < w.nprocs && |w.held[q]| == b.Length && RowsOK(w, bs) && bs[q] == b[..] && b != pb
    requires pb.Length == OwnedNbr(w, q) && nsends.Length == w.nprocs
    requires forall c :: 0 <= c < w.nprocs ==> nsends[c] == AmountF(w, q, c, |w.held[q]|)
    modifies pb
    ensures fresh(buf) && buf.Length == w.nprocs
    ensures forall c :: 0 <= c < w.nprocs ==> buf[c] == SentF(w, q, c, b[..], |w.held[q]|)
    ensures PlacedHolder(w, q, bs, pb[..], q)
  {
    hide PlacedF, SentF, AmountF, Owned, OwnerOf;
    buf := AllocateBuf(nsends);
    var cnt := new int[w.nprocs](_ => 0);
    NoneSentF(w, q, b[..]);
    NonePlaced(w, q, bs, pb[..], q);
    for il := 0 to b.Length
      invariant fresh(buf) && fresh(cnt) && buf.Length == cnt.Length == w.nprocs
      invariant AllFilledF(w, q, b[..], buf[..], cnt[..], il)
      invariant PlacedFrom(w, q, bs, pb[..], q, il)
    {
      ForwardRow(w, q, b, pb, buf, cnt, il, bs);
    }
    PlacedAll(w, q, bs, pb[..], q);
    forall c | 0 <= c < w.nprocs
      ensures buf[c] == SentF(w, q, c, b[..], |w.held[q]|)
    {
      assert FilledF(w, q, b[..], buf[..], cnt[..], c, |w.held[q]|);
      SentFSize(w, q, c, b[..], |w.held[q]|);
    }
  }

  lemma NoneSentF(w: Shared, q: int, b: seq<Chunk>)
    requires 0 <= q < w.nprocs && |b| == |w.held[q]|
    ensures forall c :: SentF(w, q, c, b, 0) == []
  {
  }

  lemma NonePlaced(w: Shared, q: int, bs: seq<seq<Chunk>>, pb: seq<Chunk>, h: int)
    requires RowsOK(w, bs) && |pb| == OwnedNbr(w, q)
    ensures PlacedFrom(w, q, bs, pb, h, 0)
  {
    hide PlacedF, OwnerOf;
    forall i | 0 <= i < |w.owner|
      ensures w.place[i] >= 0
    {
      assert PlaceOK(w, i);
    }
  }

  // ----- forward: what is received -----

  /** The next row of `h` that `q` owns: the rows in between send nothing to it. */
  lemma NextOwnedRow(w: Shared, q: int, bs: seq<seq<Chunk>>, pb: seq<Chunk>, h: int, m: int) returns (next: int)
    requires RowsOK(w, bs) && |pb| == OwnedNbr(w, q) && 0 <= h < w.nprocs && 0 <= m <= |w.held[h]| && h != q
    requires PlacedFrom(w, q, bs, pb, h, m)
    ensures m <= next <= |w.held[h]| && PlacedFrom(w, q, bs, pb, h, next)
    ensures SentF(w, h, q, bs[h], next) == SentF(w, h, q, bs[h], m)
    ensures next < |w.held[h]| ==> 0 <= w.held[h][next] < |w.owner| && OwnerOf(w, w.held[h][next]) == q
    decreases |w.held[h]| - m
  {
    hide PlacedFrom, Owned, SentF;
    next := m;
    if m < |w.held[h]| {
      HeldAt(w, h, m);
      if OwnerOf(w, w.held[h][m]) != q {
        assert HeldOK(w, h);
        SentFNext(w, h, q, bs[h], m);
        PlacedNext(w, q, bs, pb, pb, h, m);
        next := NextOwnedRow(w, q, bs, pb, h, m + 1);
      }
    }
  }

  /** Place what process `h` sent. */
  method HandleRecvForward(w: Shared, q: int, pb: array<Chunk>, items: seq<Item>, ghost h: int,
          ghost bs: seq<seq<Chunk>>)
    requires RowsOK(w, bs) && pb.Length == OwnedNbr(w, q) && 0 <= h < w.nprocs && h != q
    requires items == SentF(w, h, q, bs[h], |w.held[h]|)
    modifies pb
    ensures PlacedHolder(w, q, bs, pb[..], h)
    ensures forall g :: g != h && old(PlacedHolder(w, q, bs, pb[..], g)) ==> PlacedHolder(w, q, bs, pb[..], g)
  {
    hide PlacedFrom, Glob2Ploc, Owned, SentF;
    ghost var m := 0;
    assert SentF(w, h, q, bs[h], 0) == [] by { NoneSentF(w, h, bs[h]); }
    NonePlaced(w, q, bs, pb[..], h);
    for idx := 0 to |items|
      invariant 0 <= m <= |w.held[h]| && items[..idx] == SentF(w, h, q, bs[h], m)
      invariant PlacedFrom(w, q, bs, pb[..], h, m)
      invariant forall g :: g != h && old(PlacedHolder(w, q, bs, pb[..], g)) ==> PlacedHolder(w, q, bs, pb[..], g)
    {
      m := NextOwnedRow(w, q, bs, pb[..], h, m);
      NextItem(w, q, bs[h], h, m, items, idx);
      assert HeldOK(w, h);
      var ilpe := Glob2Ploc(w, q, items[idx].idx);
      PlocInRange(w, q, items[idx].idx);
      assert ilpe >= 0;
      ghost var was := pb[..];
      pb[ilpe] := items[idx].val;
      PlacedNext(w, q, bs, was, pb[..], h, m);
      m := m + 1;
    }
    m := NextOwnedRow(w, q, bs, pb[..], h, m);
    AllItems(w, q, bs[h], h, m, items);
    PlacedAll(w, q, bs, pb[..], h);
  }

  lemma NextItem(w: Shared, q: int, b: seq<Chunk>, h: int, m: int, items: seq<Item>, idx: int)
    requires 0 <= h < w.nprocs && h != q && 0 <= m <= |w.held[h]| == |b| && items == SentF(w, h, q, b, |w.held[h]|)
    requires 0 <= idx < |items| && items[..idx] == SentF(w, h, q, b, m)
    requires m < |w.held[h]| ==> 0 <= w.held[h][m] < |w.owner| && OwnerOf(w, w.held[h][m]) == q
    ensures m < |w.held[h]| && items[idx] == Item(w.held[h][m], b[m]) && items[..idx + 1] == SentF(w, h, q, b, m + 1)
  {
    hide SentF;
    if m < |w.held[h]| {
      SentFNext(w, h, q, b, m);
      SentFGrows(w, h, q, b, m + 1, |w.held[h]|);
    }
  }

  lemma AllItems(w: Shared, q: int, b: seq<Chunk>, h: int, m: int, items: seq<Item>)
    requires 0 <= h < w.nprocs && h != q && 0 <= m <= |w.held[h]| == |b| && items == SentF(w, h, q, b, |w.held[h]|)
    requires items == SentF(w, h, q, b, m)
    requires m < |w.held[h]| ==> 0 <= w.held[h][m] < |w.owner| && OwnerOf(w, w.held[h][m]) == q
    ensures m == |w.held[h]|
  {
    hide SentF;
    if m < |w.held[h]| {
      SentFNext(w, h, q, b, m);
      SentFGrows(w, h, q, b, m + 1, |w.held[h]|);
    }
  }

  /** Every unknown owned by `q` stands at its permuted place. */
  ghost predicate AllPlaced(w: Shared, q: int, bs: seq<seq<Chunk>>, pb: seq<Chunk>)
    requires RowsOK(w, bs) && |pb| == OwnedNbr(w, q)
  {
    forall ig :: 0 <= ig < |w.owner| && OwnerOf(w, ig) == q ==> PlacedF(w, q, bs, pb, ig)
  }

  lemma FromAll(w: Shared, q: int, bs: seq<seq<Chunk>>, pb: seq<Chunk>)
    requires RowsOK(w, bs) && |pb| == OwnedNbr(w, q)
    requires forall h :: 0 <= h < w.nprocs ==> PlacedHolder(w, q, bs, pb, h)
    ensures AllPlaced(w, q, bs, pb)
  {
    hide PlacedF, OwnerOf;
    forall ig | 0 <= ig < |w.owner| && OwnerOf(w, ig) == q
      ensures PlacedF(w, q, bs, pb, ig)
    {
      assert PlaceOK(w, ig);
      assert PlacedHolder(w, q, bs, pb, w.holder[ig]);
    }
  }

  /** Receive from every other process, one place further back on the ring each time. */
  method ReceiveForward(w: Shared, q: int, pb: array<Chunk>, recv: seq<seq<Item>>, ghost bs: seq<seq<Chunk>>)
    requires RowsOK(w, bs) && 0 <= q < w.nprocs == |recv| && pb.Length == OwnedNbr(w, q)
    requires forall h :: 0 <= h < w.nprocs && h != q ==> recv[h] == SentF(w, h, q, bs[h], |w.held[h]|)
    requires PlacedHolder(w, q, bs, pb[..], q)
    modifies pb
    ensures AllPlaced(w, q, bs, pb[..])
  {
    hide PlacedHolder, SentF, Owned;
    ModStep(w.nprocs, q);
    var crecv := (q - 1 + w.nprocs) % w.nprocs;
    for k := 0 to w.nprocs - 1
      invariant 0 <= crecv < w.nprocs && (k < w.nprocs - 1 ==> crecv == RecvFrom(w.nprocs, q, k))
      invariant PlacedHolder(w, q, bs, pb[..], q)
      invariant forall h :: 0 <= h < w.nprocs && h != q && Step(w.nprocs, q, h) < k ==>
        PlacedHolder(w, q, bs, pb[..], h)
    {
      HandleRecvForward(w, q, pb, recv[crecv], crecv, bs);
      ModStep(w.nprocs, crecv);
      crecv := (crecv - 1 + w.nprocs) % w.nprocs;
    }
    FromAll(w, q, bs, pb[..]);
  }

  /** Process `q`: place what is owned here, send the rest, place what is received. */
  method Vec2Bvec(w: Shared, q: int, b: array<Chunk>, pb: array<Chunk>, recv: seq<seq<Item>>, ghost bs: seq<seq<Chunk>>)
      returns (sent: array<seq<Item>>)
    requires 0 <= q < w.nprocs == |recv| && |w.held[q]| == b.Length && RowsOK(w, bs) && bs[q] == b[..] && b != pb
    requires pb.Length == OwnedNbr(w, q)
    requires forall h :: 0 <= h < w.nprocs && h != q ==> recv[h] == SentF(w, h, q, bs[h], |w.held[h]|)
    modifies pb
    ensures fresh(sent) && sent.Length == w.nprocs
    ensures forall c :: 0 <= c < w.nprocs ==> sent[c] == SentF(w, q, c, bs[q], |w.held[q]|)
    ensures AllPlaced(w, q, bs, pb[..])
  {
    hide PlacedHolder, SentF, AmountF, Owned, AllPlaced;
    var nsends := ComputeAmount(w, q);
    sent := FillForward(w, q, b, pb, nsends, bs);
    ReceiveForward(w, q, pb, recv, bs);
  }
}
