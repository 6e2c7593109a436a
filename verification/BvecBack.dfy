/** The way back of a right-hand side, from the permuted rows to the user's, with the
    amounts of the way there exchanged; and the round trip. */
module BvecBack {
  import opened Permute
  import opened Ring
  import opened BvecDist

  ghost predicate PermutedOK(w: Shared, pbs: seq<seq<Chunk>>) {
    |pbs| == w.nprocs && forall q :: 0 <= q < w.nprocs ==> |pbs[q]| == OwnedNbr(w, q)
  }

  /** Unknown at permuted place `m` of process `h`. */
  ghost function UnknownAt(w: Shared, h: int, m: int): (ig: int)
    requires 0 <= m < OwnedNbr(w, h)
    ensures 0 <= ig < |w.owner| && OwnerOf(w, ig) == h && Glob2Ploc(w, h, ig) == m
  {
    RankOfOwned(w.owner, h, |w.owner|, m);
    w.peritab[Owned(w.owner, h, |w.owner|)[m]]
  }

  lemma UnknownIs(w: Shared, h: int, ig: int)
    requires 0 <= ig < |w.owner| && OwnerOf(w, ig) == h
    ensures 0 <= Glob2Ploc(w, h, ig) < OwnedNbr(w, h) && UnknownAt(w, h, Glob2Ploc(w, h, ig)) == ig
  {
    PlocInRange(w, h, ig);
    var u := UnknownAt(w, h, Glob2Ploc(w, h, ig));
    if u != ig {
      PlocsApart(w, h, u, ig);
    }
  }

  // ----- what is sent -----

  /** What `h` sends back to `c` among its first `m` permuted rows. */
  ghost function SentB(w: Shared, h: int, c: int, pb: seq<Chunk>, m: int): seq<Item>
    requires 0 <= m <= OwnedNbr(w, h) == |pb|
  {
    if m == 0 then [] else
    var ig := UnknownAt(w, h, m - 1);
    SentB(w, h, c, pb, m - 1) + (if w.holder[ig] == c != h then [Item(w.permtab[ig], pb[m - 1])] else [])
  }

  ghost function AmountB(w: Shared, h: int, c: int, m: int): (n: int)
    requires 0 <= m <= OwnedNbr(w, h)
    ensures n >= 0
  {
    if m == 0 then 0 else AmountB(w, h, c, m - 1) + (if w.holder[UnknownAt(w, h, m - 1)] == c != h then 1 else 0)
  }

  lemma {:induction false} SentBSize(w: Shared, h: int, c: int, pb: seq<Chunk>, m: int)
    requires 0 <= m <= OwnedNbr(w, h) == |pb|
    ensures |SentB(w, h, c, pb, m)| == AmountB(w, h, c, m)
  {
    hide UnknownAt, Owned;
    if m > 0 {
      SentBSize(w, h, c, pb, m - 1);
    }
  }

  lemma SentBStep(w: Shared, h: int, c: int, pb: seq<Chunk>, m: int)
    requires 0 <= m < OwnedNbr(w, h) == |pb|
    ensures SentB(w, h, c, pb, m) <= SentB(w, h, c, pb, m + 1)
  {
    hide UnknownAt, Owned;
  }

  lemma {:induction false} SentBGrows(w: Shared, h: int, c: int, pb: seq<Chunk>, m: int, n: int)
    requires 0 <= m <= n <= OwnedNbr(w, h) == |pb|
    ensures SentB(w, h, c, pb, m) <= SentB(w, h, c, pb, n)
    decreases n
  {
    hide UnknownAt, Owned;
    if m < n {
      SentBGrows(w, h, c, pb, m, n - 1);
      SentBStep(w, h, c, pb, n - 1);
    }
  }

  lemma SentBNext(w: Shared, h: int, c: int, pb: seq<Chunk>, m: int)
    requires 0 <= m < OwnedNbr(w, h) == |pb|
    ensures SentB(w, h, c, pb, 0) == []
    ensures var ig := UnknownAt(w, h, m);
      SentB(w, h, c, pb, m + 1)
      == if w.holder[ig] == c != h then SentB(w, h, c, pb, m) + [Item(w.permtab[ig], pb[m])] else SentB(w, h, c, pb, m)
    ensures w.holder[UnknownAt(w, h, m)] == c != h ==> |SentB(w, h, c, pb, m)| < AmountB(w, h, c, OwnedNbr(w, h))
  {
    hide UnknownAt;
    SentBGrows(w, h, c, pb, m + 1, OwnedNbr(w, h));
    SentBSize(w, h, c, pb, OwnedNbr(w, h));
  }

  // ----- the amounts are those of the way there, exchanged -----

  /** Unknowns below `n` held by `q` before its row `m` and owned by `d`. */
  ghost function HeldBelow(w: Shared, q: int, d: int, n: int, m: int): int
    requires 0 <= n <= |w.owner|
  {
    if n == 0 then 0 else
    HeldBelow(w, q, d, n - 1, m)
    + (if w.holder[n - 1] == q && w.place[n - 1] < m && OwnerOf(w, n - 1) == d then 1 else 0)
  }

  /** Unknowns below `n` held by `q` and owned by `d` before its permuted row `m`. */
  ghost function OwnedBelow(w: Shared, q: int, d: int, n: int, m: int): int
    requires 0 <= n <= |w.owner|
  {
    if n == 0 then 0 else
    OwnedBelow(w, q, d, n - 1, m)
    + (if w.holder[n - 1] == q && OwnerOf(w, n - 1) == d && Glob2Ploc(w, d, n - 1) < m then 1 else 0)
  }

  lemma {:induction false} HeldBelowNext(w: Shared, q: int, d: int, n: int, m: int)
    requires 0 <= n <= |w.owner| && 0 <= q < w.nprocs && 0 <= m < |w.held[q]|
    ensures 0 <= w.held[q][m] < |w.owner|
    ensures HeldBelow(w, q, d, n, m + 1)
         == HeldBelow(w, q, d, n, m) + (if w.held[q][m] < n && OwnerOf(w, w.held[q][m]) == d then 1 else 0)
  {
    hide OwnerOf;
    HeldAt(w, q, m);
    if n > 0 {
      HeldBelowNext(w, q, d, n - 1, m);
      if w.holder[n - 1] == q && w.place[n - 1] == m {
        SamePlace(w, n - 1, w.held[q][m]);
      }
    }
  }

  lemma {:induction false} HeldBelowNone(w: Shared, q: int, d: int, n: int)
    requires 0 <= n <= |w.owner|
    ensures HeldBelow(w, q, d, n, 0) == 0
  {
    hide OwnerOf;
    if n > 0 {
      HeldBelowNone(w, q, d, n - 1);
      assert PlaceOK(w, n - 1);
    }
  }

  lemma {:induction false} AmountFIsHeld(w: Shared, q: int, d: int, m: int)
    requires 0 <= q < w.nprocs && 0 <= m <= |w.held[q]| && d != q
    ensures AmountF(w, q, d, m) == HeldBelow(w, q, d, |w.owner|, m)
  {
    hide OwnerOf, HeldBelow;
    if m == 0 {
      HeldBelowNone(w, q, d, |w.owner|);
    } else {
      AmountFIsHeld(w, q, d, m - 1);
      HeldAt(w, q, m - 1);
      HeldBelowNext(w, q, d, |w.owner|, m - 1);
    }
  }

  lemma {:induction false} OwnedBelowNext(w: Shared, q: int, d: int, n: int, m: int)
    requires 0 <= n <= |w.owner| && 0 <= m < OwnedNbr(w, d)
    ensures OwnedBelow(w, q, d, n, m + 1)
         == OwnedBelow(w, q, d, n, m) + (if UnknownAt(w, d, m) < n && w.holder[UnknownAt(w, d, m)] == q then 1 else 0)
  {
    hide OwnerOf, Glob2Ploc, UnknownAt, Owned;
    if n > 0 {
      OwnedBelowNext(w, q, d, n - 1, m);
      if OwnerOf(w, n - 1) == d && Glob2Ploc(w, d, n - 1) == m {
        UnknownIs(w, d, n - 1);
      }
    }
  }

  lemma {:induction false} OwnedBelowNone(w: Shared, q: int, d: int, n: int)
    requires 0 <= n <= |w.owner|
    ensures OwnedBelow(w, q, d, n, 0) == 0
  {
    hide Owned, OwnerOf, Glob2Ploc;
    if n > 0 {
      OwnedBelowNone(w, q, d, n - 1);
      if OwnerOf(w, n - 1) == d {
        PlocInRange(w, d, n - 1);
      }
    }
  }

  lemma {:induction false} AmountBIsOwned(w: Shared, q: int, d: int, m: int)
    requires 0 <= m <= OwnedNbr(w, d) && d != q
    ensures AmountB(w, d, q, m) == OwnedBelow(w, q, d, |w.owner|, m)
  {
    hide OwnerOf, Glob2Ploc, UnknownAt, Owned, OwnedBelow;
    if m == 0 {
      OwnedBelowNone(w, q, d, |w.owner|);
    } else {
      AmountBIsOwned(w, q, d, m - 1);
      OwnedBelowNext(w, q, d, |w.owner|, m - 1);
    }
  }

  lemma {:induction false} BelowAll(w: Shared, q: int, d: int, n: int)
    requires 0 <= n <= |w.owner| && 0 <= q < w.nprocs
    ensures HeldBelow(w, q, d, n, |w.held[q]|) == OwnedBelow(w, q, d, n, OwnedNbr(w, d))
  {
    hide Owned;
    if n > 0 {
      BelowAll(w, q, d, n - 1);
      assert PlaceOK(w, n - 1);
      if OwnerOf(w, n - 1) == d {
        PlocInRange(w, d, n - 1);
      }
    }
  }

  /** What `d` sends back to `q` is as much as what it received from it. */
  lemma AmountsSwap(w: Shared, q: int, d: int)
    requires 0 <= q < w.nprocs && d != q
    ensures AmountB(w, d, q, OwnedNbr(w, d)) == AmountF(w, q, d, |w.held[q]|)
  {
    hide AmountB, AmountF, HeldBelow, OwnedBelow, Owned;
    AmountFIsHeld(w, q, d, |w.held[q]|);
    AmountBIsOwned(w, q, d, OwnedNbr(w, d));
    BelowAll(w, q, d, |w.owner|);
  }

  /** Exchange the amounts sent and received. */
  method SwitchAmount(w: Shared, q: int, nsends: array<int>, nrecvs: array<int>)
    requires 0 <= q < w.nprocs && nsends.Length == nrecvs.Length == w.nprocs && nsends != nrecvs
    requires forall c :: 0 <= c < w.nprocs && c != q ==>
      nsends[c] == AmountF(w, q, c, |w.held[q]|) && nrecvs[c] == AmountF(w, c, q, |w.held[c]|)
    modifies nsends, nrecvs
    ensures forall c :: 0 <= c < w.nprocs && c != q ==>
      nsends[c] == AmountB(w, q, c, OwnedNbr(w, q)) && nrecvs[c] == AmountB(w, c, q, OwnedNbr(w, c))
    ensures nsends[q] == old(nsends[q])
  {
    hide AmountF, AmountB, Owned;
    for c := 0 to w.nprocs
      invariant nsends[q] == old(nsends[q])
      invariant forall d :: 0 <= d < w.nprocs && d != q ==>
        && nsends[d] == (if d < c then old(nrecvs[d]) else old(nsends[d]))
        && nrecvs[d] == (if d < c then old(nsends[d]) else old(nrecvs[d]))
    {
      if c != q {
        nsends[c], nrecvs[c] := nrecvs[c], nsends[c];
      }
    }
    forall c | 0 <= c < w.nprocs && c != q
      ensures nsends[c] == AmountB(w, q, c, OwnedNbr(w, q)) && nrecvs[c] == AmountB(w, c, q, OwnedNbr(w, c))
    {
      AmountsSwap(w, c, q);
      AmountsSwap(w, q, c);
    }
  }

  // ----- what is placed -----

  /** Value of unknown `ig` in the permuted rows. */
  ghost function BackOf(w: Shared, pbs: seq<seq<Chunk>>, ig: int): Chunk
    requires PermutedOK(w, pbs) && 0 <= ig < |w.owner|
  {
    PlocInRange(w, OwnerOf(w, ig), ig);
    pbs[OwnerOf(w, ig)][Glob2Ploc(w, OwnerOf(w, ig), ig)]
  }

  ghost predicate PlacedB(w: Shared, q: int, pbs: seq<seq<Chunk>>, b: seq<Chunk>, ig: int)
    requires PermutedOK(w, pbs) && 0 <= q < w.nprocs && 0 <= ig < |w.owner| && w.holder[ig] == q && |b| == |w.held[q]|
  {
    assert PlaceOK(w, ig);
    b[w.place[ig]] == BackOf(w, pbs, ig)
  }

  /** The rows held by `q` that owner `h` has before its permuted row `m` are placed. */
  ghost predicate PlacedUpTo(w: Shared, q: int, pbs: seq<seq<Chunk>>, b: seq<Chunk>, h: int, m: int)
    requires PermutedOK(w, pbs) && 0 <= q < w.nprocs && |b| == |w.held[q]|
  {
    forall ig :: 0 <= ig < |w.owner| && w.holder[ig] == q && OwnerOf(w, ig) == h && Glob2Ploc(w, h, ig) < m ==>
      PlacedB(w, q, pbs, b, ig)
  }

  ghost predicate PlacedOwner(w: Shared, q: int, pbs: seq<seq<Chunk>>, b: seq<Chunk>, h: int)
    requires PermutedOK(w, pbs) && 0 <= q < w.nprocs && |b| == |w.held[q]|
  {
    forall ig :: 0 <= ig < |w.owner| && w.holder[ig] == q && OwnerOf(w, ig) == h ==> PlacedB(w, q, pbs, b, ig)
  }

  lemma PlaceOneB(w: Shared, q: int, pbs: seq<seq<Chunk>>, b: seq<Chunk>, ig: int, i: int)
    requires PermutedOK(w, pbs) && 0 <= q < w.nprocs && |b| == |w.held[q]|
    requires 0 <= ig < |w.owner| && w.holder[ig] == q && 0 <= i < |w.owner| && w.holder[i] == q
    requires i == ig || PlacedB(w, q, pbs, b, i)
    ensures 0 <= w.place[ig] < |b| && PlacedB(w, q, pbs, b[w.place[ig] := BackOf(w, pbs, ig)], i)
  {
    hide BackOf;
    assert PlaceOK(w, ig) && PlaceOK(w, i);
    if w.place[i] == w.place[ig] {
      SamePlace(w, i, ig);
    }
  }

  lemma PlacedNextB(w: Shared, q: int, pbs: seq<seq<Chunk>>, b: seq<Chunk>, next: seq<Chunk>, h: int, m: int)
    requires PermutedOK(w, pbs) && 0 <= q < w.nprocs && |b| == |next| == |w.held[q]| && 0 <= h < w.nprocs
    requires 0 <= m < OwnedNbr(w, h)
    requires PlacedUpTo(w, q, pbs, b, h, m)
    requires var ig := UnknownAt(w, h, m);
      if w.holder[ig] == q then 0 <= w.place[ig] < |b| && next == b[w.place[ig] := pbs[h][m]] else next == b
    ensures PlacedUpTo(w, q, pbs, next, h, m + 1)
    ensures forall g :: g != h && PlacedOwner(w, q, pbs, b, g) ==> PlacedOwner(w, q, pbs, next, g)
  {
    hide PlacedB, Glob2Ploc, OwnerOf, Owned, UnknownAt;
    var ig := UnknownAt(w, h, m);
    assert BackOf(w, pbs, ig) == pbs[h][m];
    forall i | 0 <= i < |w.owner| && w.holder[i] == q && OwnerOf(w, i) == h && Glob2Ploc(w, h, i) < m + 1
      ensures PlacedB(w, q, pbs, next, i)
    {
      if Glob2Ploc(w, h, i) == m {
        UnknownIs(w, h, i);
      }
      if w.holder[ig] == q {
        PlaceOneB(w, q, pbs, b, ig, i);
      }
    }
    forall g | g != h && PlacedOwner(w, q, pbs, b, g)
      ensures PlacedOwner(w, q, pbs, next, g)
    {
      forall i | 0 <= i < |w.owner| && w.holder[i] == q && OwnerOf(w, i) == g
        ensures PlacedB(w, q, pbs, next, i)
      {
        if w.holder[ig] == q {
          PlaceOneB(w, q, pbs, b, ig, i);
        }
      }
    }
  }

  lemma NoneUpTo(w: Shared, q: int, pbs: seq<seq<Chunk>>, b: seq<Chunk>, h: int)
    requires PermutedOK(w, pbs) && 0 <= q < w.nprocs && |b| == |w.held[q]|
    ensures PlacedUpTo(w, q, pbs, b, h, 0)
  {
    hide PlacedB, Owned, OwnerOf, Glob2Ploc;
    forall ig | 0 <= ig < |w.owner| && OwnerOf(w, ig) == h
      ensures Glob2Ploc(w, h, ig) >= 0
    {
      PlocInRange(w, h, ig);
    }
  }

  lemma UpToAll(w: Shared, q: int, pbs: seq<seq<Chunk>>, b: seq<Chunk>, h: int)
    requires PermutedOK(w, pbs) && 0 <= q < w.nprocs && |b| == |w.held[q]|
    requires PlacedUpTo(w, q, pbs, b, h, OwnedNbr(w, h))
    ensures PlacedOwner(w, q, pbs, b, h)
  {
    hide PlacedB, Owned, OwnerOf, Glob2Ploc;
    forall ig | 0 <= ig < |w.owner| && w.holder[ig] == q && OwnerOf(w, ig) == h
      ensures PlacedB(w, q, pbs, b, ig)
    {
      PlocInRange(w, h, ig);
    }
  }

  // ----- sending back -----

  ghost predicate FilledB(w: Shared, q: int, pb: seq<Chunk>, buf: seq<seq<Item>>, cnt: seq<int>, c: int, m: int)
    requires 0 <= m <= OwnedNbr(w, q) == |pb| && 0 <= c < |buf| == |cnt|
  {
    Part(buf[c], cnt[c], SentB(w, q, c, pb, m)) && (c != q ==> |buf[c]| == AmountB(w, q, c, OwnedNbr(w, q)))
  }

  ghost predicate AllFilledB(w: Shared, q: int, pb: seq<Chunk>, buf: seq<seq<Item>>, cnt: seq<int>, m: int)
    requires 0 <= m <= OwnedNbr(w, q) == |pb|
  {
    |buf| == |cnt| == w.nprocs && forall c :: 0 <= c < w.nprocs ==> FilledB(w, q, pb, buf, cnt, c, m)
  }

  lemma LocSign(w: Shared, q: int, ig: int)
    requires 0 <= ig < |w.owner|
    ensures 0 <= w.permtab[ig] < |w.owner| && w.peritab[w.permtab[ig]] == ig
    ensures 0 <= w.holder[ig] < w.nprocs && 0 <= w.place[ig] < |w.held[w.holder[ig]]|
    ensures Pglob2Loc(w, q, w.permtab[ig]) == if w.holder[ig] == q then w.place[ig] else -w.holder[ig] - 1
  {
    assert PlaceOK(w, ig);
  }

  lemma PglobOf(w: Shared, q: int, m: int)
    requires 0 <= m < OwnedNbr(w, q)
    ensures Owned(w.owner, q, |w.owner|)[m] == w.permtab[UnknownAt(w, q, m)]
  {
    RankOfOwned(w.owner, q, |w.owner|, m);
  }

  /** One permuted row: placed here or stored for its holder. */
  method BackwardRow(w: Shared, q: int, pb: array<Chunk>, b: array<Chunk>, buf: array<seq<Item>>, cnt: array<int>,
          ilp: int, igp: int,
                     ghost pbs: seq<seq<Chunk>>)
    requires 0 <= q < w.nprocs && PermutedOK(w, pbs) && pbs[q] == pb[..] && 0 <= ilp < OwnedNbr(w, q) && b != pb
    requires b.Length == |w.held[q]| && buf.Length == cnt.Length == w.nprocs
    requires igp == Owned(w.owner, q, |w.owner|)[ilp]
    requires AllFilledB(w, q, pb[..], buf[..], cnt[..], ilp) && PlacedUpTo(w, q, pbs, b[..], q, ilp)
    modifies b, buf, cnt
    ensures AllFilledB(w, q, pb[..], buf[..], cnt[..], ilp + 1) && PlacedUpTo(w, q, pbs, b[..], q, ilp + 1)
  {
    hide PlacedUpTo, PlacedOwner, AmountB, SentB, Part, Owned, UnknownAt, Pglob2Loc, Glob2Ploc;
    ghost var ig := UnknownAt(w, q, ilp);
    PglobOf(w, q, ilp);
    LocSign(w, q, ig);
    var ile := Pglob2Loc(w, q, igp);
    ghost var was, buf0, cnt0 := b[..], buf[..], cnt[..];
    forall c | 0 <= c < w.nprocs
      ensures FilledB(w, q, pb[..], buf0, cnt0, c, ilp)
      ensures SentB(w, q, c, pb[..], ilp + 1)
           == if w.holder[ig] == c != q then SentB(w, q, c, pb[..], ilp) + [Item(igp, pb[ilp])]
               else SentB(w, q, c, pb[..], ilp)
      ensures w.holder[ig] == c != q ==> |SentB(w, q, c, pb[..], ilp)| < AmountB(w, q, c, OwnedNbr(w, q))
    {
      SentBNext(w, q, c, pb[..], ilp);
    }
    if ile < 0 {
      var c := -(ile + 1);
      assert FilledB(w, q, pb[..], buf[..], cnt[..], c, ilp);
      PutItem(buf, cnt, c, Item(igp, pb[ilp]), SentB(w, q, c, pb[..], ilp));
    } else {
      b[ile] := pb[ilp];
    }
    PlacedNextB(w, q, pbs, was, b[..], q, ilp);
    var m := ilp + 1;
    forall c | 0 <= c < w.nprocs
      ensures FilledB(w, q, pb[..], buf[..], cnt[..], c, m)
    {
      assert FilledB(w, q, pb[..], buf0, cnt0, c, ilp);
    }
  }

  lemma NoneSentB(w: Shared, q: int, pb: seq<Chunk>)
    requires |pb| == OwnedNbr(w, q)
    ensures forall c :: SentB(w, q, c, pb, 0) == []
  {
  }

  /** Place the rows held here, and fill the buffers announced by the switched amounts. */
  method FillBackward(w: Shared, q: int, pb: array<Chunk>, b: array<Chunk>, nsends: array<int>,
          ghost pbs: seq<seq<Chunk>>)
      returns (buf: array<seq<Item>>)
    requires 0 <= q < w.nprocs && PermutedOK(w, pbs) && pbs[q] == pb[..] && b != pb
    requires b.Length == |w.held[q]| && nsends.Length == w.nprocs && nsends[q] >= 0
    requires forall c :: 0 <= c < w.nprocs && c != q ==> nsends[c] == AmountB(w, q, c, OwnedNbr(w, q))
    modifies b
    ensures fresh(buf) && buf.Length == w.nprocs
    ensures forall c :: 0 <= c < w.nprocs && c != q ==> buf[c] == SentB(w, q, c, pb[..], OwnedNbr(w, q))
    ensures PlacedOwner(w, q, pbs, b[..], q)
  {
    hide PlacedUpTo, PlacedOwner, AmountB, SentB, Owned;
    var ploc2pglob := ComputePloc2Pglob(w.owner, q, pb.Length);
    buf := AllocateBuf(nsends);
    var cnt := new int[w.nprocs](_ => 0);
    NoneSentB(w, q, pb[..]);
    NoneUpTo(w, q, pbs, b[..], q);
    for ilp := 0 to pb.Length
      invariant fresh(buf) && fresh(cnt) && buf.Length == cnt.Length == w.nprocs
      invariant ploc2pglob[..] == Owned(w.owner, q, |w.owner|)
      invariant AllFilledB(w, q, pb[..], buf[..], cnt[..], ilp)
      invariant PlacedUpTo(w, q, pbs, b[..], q, ilp)
    {
      BackwardRow(w, q, pb, b, buf, cnt, ilp, ploc2pglob[ilp], pbs);
    }
    UpToAll(w, q, pbs, b[..], q);
    forall c | 0 <= c < w.nprocs && c != q
      ensures buf[c] == SentB(w, q, c, pb[..], OwnedNbr(w, q))
    {
      assert FilledB(w, q, pb[..], buf[..], cnt[..], c, pb.Length);
      SentBSize(w, q, c, pb[..], OwnedNbr(w, q));
    }
  }

  // ----- receiving back -----

  /** The next permuted row of `h` that `q` holds. */
  lemma NextHeldRow(w: Shared, q: int, pbs: seq<seq<Chunk>>, b: seq<Chunk>, h: int, m: int) returns (next: int)
    requires PermutedOK(w, pbs) && 0 <= q < w.nprocs && |b| == |w.held[q]|
    requires 0 <= h < w.nprocs && 0 <= m <= OwnedNbr(w, h) && h != q && PlacedUpTo(w, q, pbs, b, h, m)
    ensures m <= next <= OwnedNbr(w, h) && PlacedUpTo(w, q, pbs, b, h, next)
    ensures SentB(w, h, q, pbs[h], next) == SentB(w, h, q, pbs[h], m)
    ensures next < OwnedNbr(w, h) ==> w.holder[UnknownAt(w, h, next)] == q
    decreases OwnedNbr(w, h) - m
  {
    hide PlacedUpTo, Owned, SentB, UnknownAt;
    next := m;
    if m < OwnedNbr(w, h) {
      if w.holder[UnknownAt(w, h, m)] != q {
        SentBNext(w, h, q, pbs[h], m);
        PlacedNextB(w, q, pbs, b, b, h, m);
        next := NextHeldRow(w, q, pbs, b, h, m + 1);
      }
    }
  }

  lemma NextItemB(w: Shared, q: int, pb: seq<Chunk>, h: int, m: int, items: seq<Item>, idx: int)
    requires 0 <= h < w.nprocs && h != q && 0 <= m <= OwnedNbr(w, h) == |pb|
    requires items == SentB(w, h, q, pb, OwnedNbr(w, h))
    requires 0 <= idx < |items| && items[..idx] == SentB(w, h, q, pb, m)
    requires m < OwnedNbr(w, h) ==> w.holder[UnknownAt(w, h, m)] == q
    ensures m < OwnedNbr(w, h) && items[idx] == Item(w.permtab[UnknownAt(w, h, m)], pb[m])
    ensures items[..idx + 1] == SentB(w, h, q, pb, m + 1)
  {
    hide SentB, UnknownAt, Owned;
    if m < OwnedNbr(w, h) {
      SentBNext(w, h, q, pb, m);
      SentBGrows(w, h, q, pb, m + 1, OwnedNbr(w, h));
    }
  }

  lemma AllItemsB(w: Shared, q: int, pb: seq<Chunk>, h: int, m: int, items: seq<Item>)
    requires 0 <= h < w.nprocs && h != q && 0 <= m <= OwnedNbr(w, h) == |pb|
    requires items == SentB(w, h, q, pb, OwnedNbr(w, h))
    requires items == SentB(w, h, q, pb, m)
    requires m < OwnedNbr(w, h) ==> w.holder[UnknownAt(w, h, m)] == q
    ensures m == OwnedNbr(w, h)
  {
    hide SentB, UnknownAt, Owned;
    if m < OwnedNbr(w, h) {
      SentBNext(w, h, q, pb, m);
      SentBGrows(w, h, q, pb, m + 1, OwnedNbr(w, h));
    }
  }

  /** Place what owner `h` sent back. */
  method HandleRecvBackward(w: Shared, q: int, b: array<Chunk>, items: seq<Item>, ghost h: int,
          ghost pbs: seq<seq<Chunk>>)
    requires PermutedOK(w, pbs) && 0 <= q < w.nprocs && b.Length == |w.held[q]| && 0 <= h < w.nprocs && h != q
    requires items == SentB(w, h, q, pbs[h], OwnedNbr(w, h))
    modifies b
    ensures PlacedOwner(w, q, pbs, b[..], h)
    ensures forall g :: g != h && old(PlacedOwner(w, q, pbs, b[..], g)) ==> PlacedOwner(w, q, pbs, b[..], g)
  {
    hide PlacedUpTo, PlacedOwner, Glob2Ploc, Owned, SentB, UnknownAt, Pglob2Loc;
    ghost var m := 0;
    NoneSentB(w, h, pbs[h]);
    NoneUpTo(w, q, pbs, b[..], h);
    for idx := 0 to |items|
      invariant 0 <= m <= OwnedNbr(w, h) && items[..idx] == SentB(w, h, q, pbs[h], m)
      invariant PlacedUpTo(w, q, pbs, b[..], h, m)
      invariant forall g :: g != h && old(PlacedOwner(w, q, pbs, b[..], g)) ==> PlacedOwner(w, q, pbs, b[..], g)
    {
      m := NextHeldRow(w, q, pbs, b[..], h, m);
      NextItemB(w, q, pbs[h], h, m, items, idx);
      LocSign(w, q, UnknownAt(w, h, m));
      var ile := Pglob2Loc(w, q, items[idx].idx);
      assert ile >= 0;
      ghost var was := b[..];
      b[ile] := items[idx].val;
      PlacedNextB(w, q, pbs, was, b[..], h, m);
      m := m + 1;
    }
    m := NextHeldRow(w, q, pbs, b[..], h, m);
    AllItemsB(w, q, pbs[h], h, m, items);
    UpToAll(w, q, pbs, b[..], h);
  }

  /** Every row held by `q` has its value back. */
  ghost predicate AllBack(w: Shared, q: int, pbs: seq<seq<Chunk>>, b: seq<Chunk>)
    requires PermutedOK(w, pbs) && 0 <= q < w.nprocs && |b| == |w.held[q]|
  {
    forall ig :: 0 <= ig < |w.owner| && w.holder[ig] == q ==> PlacedB(w, q, pbs, b, ig)
  }

  lemma BackFromAll(w: Shared, q: int, pbs: seq<seq<Chunk>>, b: seq<Chunk>)
    requires PermutedOK(w, pbs) && 0 <= q < w.nprocs && |b| == |w.held[q]|
    requires forall h :: 0 <= h < w.nprocs ==> PlacedOwner(w, q, pbs, b, h)
    ensures AllBack(w, q, pbs, b)
  {
    hide PlacedB, OwnerOf;
    forall ig | 0 <= ig < |w.owner| && w.holder[ig] == q
      ensures PlacedB(w, q, pbs, b, ig)
    {
      assert PlacedOwner(w, q, pbs, b, OwnerOf(w, ig));
    }
  }

  /** Receive from every other process, one place further back on the ring each time. */
  method ReceiveBackward(w: Shared, q: int, b: array<Chunk>, recv: seq<seq<Item>>, ghost pbs: seq<seq<Chunk>>)
    requires PermutedOK(w, pbs) && 0 <= q < w.nprocs == |recv| && b.Length == |w.held[q]|
    requires forall h :: 0 <= h < w.nprocs && h != q ==> recv[h] == SentB(w, h, q, pbs[h], OwnedNbr(w, h))
    requires PlacedOwner(w, q, pbs, b[..], q)
    modifies b
    ensures AllBack(w, q, pbs, b[..])
  {
    hide PlacedOwner, SentB, Owned, AllBack;
    ModStep(w.nprocs, q);
    var crecv := (q - 1 + w.nprocs) % w.nprocs;
    for k := 0 to w.nprocs - 1
      invariant 0 <= crecv < w.nprocs && (k < w.nprocs - 1 ==> crecv == RecvFrom(w.nprocs, q, k))
      invariant PlacedOwner(w, q, pbs, b[..], q)
      invariant forall h :: 0 <= h < w.nprocs && h != q && Step(w.nprocs, q, h) < k ==> PlacedOwner(w, q, pbs, b[..], h)
    {
      HandleRecvBackward(w, q, b, recv[crecv], crecv, pbs);
      ModStep(w.nprocs, crecv);
      crecv := (crecv - 1 + w.nprocs) % w.nprocs;
    }
    BackFromAll(w, q, pbs, b[..]);
  }

  /** Process `q`: switch the amounts, place what is held here, send the rest, place what
      is received. */
  method Bvec2Vec(w: Shared, q: int, pb: array<Chunk>, b: array<Chunk>, nsends: array<int>, nrecvs: array<int>,
                  recv: seq<seq<Item>>, ghost pbs: seq<seq<Chunk>>)
      returns (sent: array<seq<Item>>)
    requires 0 <= q < w.nprocs == |recv| && PermutedOK(w, pbs) && pbs[q] == pb[..] && b != pb && b.Length == |w.held[q]|
    requires nsends.Length == nrecvs.Length == w.nprocs && nsends != nrecvs && nsends[q] >= 0
    requires forall c :: 0 <= c < w.nprocs && c != q ==>
      nsends[c] == AmountF(w, q, c, |w.held[q]|) && nrecvs[c] == AmountF(w, c, q, |w.held[c]|)
    requires forall h :: 0 <= h < w.nprocs && h != q ==> recv[h] == SentB(w, h, q, pbs[h], OwnedNbr(w, h))
    modifies b, nsends, nrecvs
    ensures fresh(sent) && sent.Length == w.nprocs
    ensures forall c :: 0 <= c < w.nprocs && c != q ==> sent[c] == SentB(w, q, c, pbs[q], OwnedNbr(w, q))
    ensures AllBack(w, q, pbs, b[..])
  {
    hide PlacedOwner, SentB, AmountF, AmountB, Owned, AllBack;
    SwitchAmount(w, q, nsends, nrecvs);
    sent := FillBackward(w, q, pb, b, nsends, pbs);
    ReceiveBackward(w, q, b, recv, pbs);
  }

  // ----- the round trip -----

  /** Whatever the two distributions, once every process has sent its rows to their owners
      and got them back, the rows held by `q` are those it started with. */
  lemma RoundTrip(w: Shared, q: int, bs: seq<seq<Chunk>>, pbs: seq<seq<Chunk>>, b: seq<Chunk>)
    requires RowsOK(w, bs) && PermutedOK(w, pbs) && 0 <= q < w.nprocs && |b| == |w.held[q]|
    requires forall h :: 0 <= h < w.nprocs ==> AllPlaced(w, h, bs, pbs[h])
    requires AllBack(w, q, pbs, b)
    ensures b == bs[q]
  {
    hide Glob2Ploc, Owned, OwnerOf;
    forall il | 0 <= il < |b|
      ensures b[il] == bs[q][il]
    {
      HeldAt(w, q, il);
      var ig := w.held[q][il];
      assert PlacedB(w, q, pbs, b, ig);
      assert AllPlaced(w, OwnerOf(w, ig), bs, pbs[OwnerOf(w, ig)]);
      assert PlacedF(w, OwnerOf(w, ig), bs, pbs[OwnerOf(w, ig)], ig);
    }
  }
}
