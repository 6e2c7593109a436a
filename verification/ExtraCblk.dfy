/** Merging the split table into the symbol matrix: one pass numbers the pieces,
    copies the column blocks and counts the blocks; a second one emits them. */
module ExtraCblkMerge {
  import opened Symbol
  import opened SplitSpec
  import opened SplitTheorems
  import opened SplitMeaning
  import opened SplitCount

  // ----- first pass -----

  /** Number of pieces of the facing column block that block `b` meets. */
  method CountParts(w: Split, b: int) returns (sptcbnbh: int)
    requires 0 <= b < |w.s.bloktab|
    ensures sptcbnbh == PartNbr(w, b)
  {
    assert w.s.BlokPlaced(b);
    var fcblknum := w.s.bloktab[b].fcblknm;
    var sptfcbnb := w.x.sptcbnb[fcblknum];
    assert SplitOK(w.s, w.x, fcblknum);
    if sptfcbnb > 1 {
      ghost var p := Pieces(w, fcblknum);
      var sptcblk := w.x.sptcblk[fcblknum];
      var frownum, lrownum := w.s.bloktab[b].frownum, w.s.bloktab[b].lrownum;
      sptcbnbh := 0;
      var k := 0;
      while k < sptfcbnb
        invariant 0 <= k <= sptfcbnb == |p|
        invariant sptcbnbh + CutNbr(p, frownum, lrownum, k) == PartNbr(w, b)
      {
        var newfcblk := w.x.cblktab[sptcblk + k];
        assert newfcblk == p[k];
        if frownum > newfcblk.lcolnum {
          k := k + 1;
          continue;
        }
        if lrownum < newfcblk.fcolnum {
          break;
        }
        sptcbnbh := sptcbnbh + 1;
        frownum := newfcblk.lcolnum + 1;
        k := k + 1;
      }
    } else {
      sptcbnbh := 1;
      UnsplitPart(w, b);
    }
  }

  method CountExtra(w: Split, i: int) returns (addblok: int)
    requires 0 <= i < w.s.CblkNbr()
    ensures addblok == ExtraBloks(w, i)
  {
    hide PartNbr;
    var sptcbnbw := w.x.sptcbnb[i];
    addblok := ((sptcbnbw + 1) * sptcbnbw) / 2 - 1;
    ghost var diag := addblok;
    var j := w.s.First(i) + 1;
    while j < w.s.End(i)
      invariant w.s.First(i) < j <= w.s.End(i)
      invariant addblok == diag + ExtraOff(w, sptcbnbw, w.s.First(i) + 1, j)
    {
      var sptcbnbh := CountParts(w, j);
      addblok := addblok + (sptcbnbw * sptcbnbh - 1);
      j := j + 1;
    }
  }

  ghost predicate StartsWith<T>(a: seq<T>, p: seq<T>) {
    |p| <= |a| && forall k :: 0 <= k < |p| ==> a[k] == p[k]
  }

  /** Copy `src` into `a` from index `off` on, after the elements `pre`. */
  method CopyAt<T>(a: array<T>, off: int, src: seq<T>, ghost pre: seq<T>)
    requires off == |pre| && off + |src| <= a.Length && StartsWith(a[..], pre)
    modifies a
    ensures StartsWith(a[..], pre + src)
  {
    var k := 0;
    while k < |src|
      invariant 0 <= k <= |src|
      invariant forall m :: 0 <= m < off + k ==> a[m] == (pre + src)[m]
    {
      a[off + k] := src[k];
      k := k + 1;
    }
  }

  lemma UnsplitPieces(w: Split, i: int)
    requires 0 <= i < w.s.CblkNbr() && w.x.sptcbnb[i] == 1
    ensures NewNum(w.x, i + 1) == NewNum(w.x, i) + 1
    ensures AllPieces(w, i + 1) == AllPieces(w, i) + [w.s.cblktab[i]]
  {
    assert Pieces(w, i) == [w.s.cblktab[i]];
  }

  /** Column blocks `a` to `b` are kept: their pieces are themselves. */
  lemma {:induction false} UnsplitRun(w: Split, a: int, b: int)
    requires 0 <= a <= b <= w.s.CblkNbr() && forall i :: a <= i < b ==> w.x.sptcbnb[i] == 1
    ensures NewNum(w.x, b) == NewNum(w.x, a) + (b - a)
    ensures AllPieces(w, b) == AllPieces(w, a) + w.s.cblktab[a..b]
    decreases b - a
  {
    hide AllPieces, NewNum;
    if a < b {
      UnsplitRun(w, a, b - 1);
      UnsplitPieces(w, b - 1);
      assert w.s.cblktab[a..b] == w.s.cblktab[a..b - 1] + [w.s.cblktab[b - 1]];
    } else {
      assert w.s.cblktab[a..b] == [];
    }
  }

  /** The entries of two split column blocks are apart in the table. */
  lemma EntriesApart(w: Split, i: int, f: int)
    requires 0 <= i < w.s.CblkNbr() && 0 <= f < w.s.CblkNbr() && i != f && w.x.sptcbnb[i] > 1 && w.x.sptcbnb[f] > 1
    ensures !(w.x.sptcblk[i] <= w.x.sptcblk[f] < w.x.sptcblk[i] + w.x.sptcbnb[i])
  {
    assert SplitOK(w.s, w.x, i) && SplitOK(w.s, w.x, f);
    if w.x.sptcblk[i] <= w.x.sptcblk[f] < w.x.sptcblk[i] + w.x.sptcbnb[i] {
      var p, r := Pieces(w, i), Pieces(w, f);
      PiecesTile(w, i);
      PiecesTile(w, f);
      var k := w.x.sptcblk[f] - w.x.sptcblk[i];
      assert p[k] == w.x.cblktab[w.x.sptcblk[f]] == r[0];
      TileBounds(p, w.s.cblktab[i].fcolnum, w.s.cblktab[i].lcolnum, k);
      TileBounds(r, w.s.cblktab[f].fcolnum, w.s.cblktab[f].lcolnum, 0);
      CblkOrder(w.s, if i < f then i else f, if i < f then f else i);
    }
  }

  /** Old column blocks below `i` are numbered, and so are the split ones among
      the entries of the table. */
  ghost predicate Numbered(w: Split, i: int, newnum: seq<int>, extranewnum: seq<int>) {
    && 0 <= i <= w.s.CblkNbr() && |newnum| == w.s.CblkNbr() + 1 && |extranewnum| == |w.x.cblktab|
    && (forall k :: 0 <= k <= i ==> newnum[k] == NewNum(w.x, k))
    && (forall k :: i < k < |newnum| ==> newnum[k] == w.x.sptcbnb[k - 1])
    && (forall f :: 0 <= f < i && w.x.sptcbnb[f] > 1 ==> EntryNumbered(w, f, extranewnum))
  }

  ghost predicate EntryNumbered(w: Split, f: int, extranewnum: seq<int>)
    requires 0 <= f < w.s.CblkNbr() && |extranewnum| == |w.x.cblktab|
  {
    0 <= w.x.sptcblk[f] < |extranewnum| && extranewnum[w.x.sptcblk[f]] == NewNum(w.x, f)
  }

  /** Column blocks copied so far: all pieces up to the last split one. */
  ghost predicate Copied(w: Split, last: int, i: int, newcblk: seq<Cblk>) {
    && -1 <= last < i <= w.s.CblkNbr() && |newcblk| == NewNum(w.x, w.s.CblkNbr()) + 1
    && StartsWith(newcblk, AllPieces(w, last + 1))
    && (forall k :: last < k < i ==> w.x.sptcbnb[k] == 1)
  }

  /** Copy the column blocks kept since the last split one. */
  method CopyKept(w: Split, i: int, last: int, newnum: array<int>, newcblk: array<Cblk>)
    requires Copied(w, last, i, newcblk[..])
    requires newnum.Length == w.s.CblkNbr() + 1 && newnum[last + 1] == NewNum(w.x, last + 1)
    modifies newcblk
    ensures StartsWith(newcblk[..], AllPieces(w, i))
  {
    hide AllPieces;
    NewNumOrder(w, i, w.s.CblkNbr());
    UnsplitRun(w, last + 1, i);
    var nbcblk2copy := i - last - 1;
    if nbcblk2copy > 0 {
      CopyAt(newcblk, newnum[last + 1], w.s.cblktab[last + 1..i], AllPieces(w, last + 1));
    }
  }

  /** Copy the column blocks kept since the last split one, then the pieces of `i`. */
  method CopyPieces(w: Split, i: int, last: int, newnum: array<int>, newcblk: array<Cblk>)
    requires 0 <= i < w.s.CblkNbr() && w.x.sptcbnb[i] > 1 && Copied(w, last, i, newcblk[..])
    requires newnum.Length == w.s.CblkNbr() + 1 && forall k :: 0 <= k <= i ==> newnum[k] == NewNum(w.x, k)
    modifies newcblk
    ensures Copied(w, i, i + 1, newcblk[..])
  {
    CopyKept(w, i, last, newnum, newcblk);
    assert SplitOK(w.s, w.x, i);
    NewNumOrder(w, i + 1, w.s.CblkNbr());
    var sptcblk, sptcbnbw := w.x.sptcblk[i], w.x.sptcbnb[i];
    CopyAt(newcblk, newnum[i], w.x.cblktab[sptcblk..sptcblk + sptcbnbw], AllPieces(w, i));
  }

  /** The new numbers of the pieces of `i`, kept by entry of the table. */
  method NumberPieces(w: Split, i: int, newcblknum: int, extranewnum: array<int>)
    requires 0 <= i < w.s.CblkNbr() && w.x.sptcbnb[i] > 1 && newcblknum == NewNum(w.x, i)
    requires extranewnum.Length == |w.x.cblktab|
    requires forall f :: 0 <= f < i && w.x.sptcbnb[f] > 1 ==> EntryNumbered(w, f, extranewnum[..])
    modifies extranewnum
    ensures forall f :: 0 <= f < i + 1 && w.x.sptcbnb[f] > 1 ==> EntryNumbered(w, f, extranewnum[..])
  {
    assert SplitOK(w.s, w.x, i);
    var sptcblk, sptcbnbw := w.x.sptcblk[i], w.x.sptcbnb[i];
    var j := 0;
    while j < sptcbnbw
      invariant 0 <= j <= sptcbnbw
      invariant forall m :: 0 <= m < extranewnum.Length ==>
                  extranewnum[m] == if sptcblk <= m < sptcblk + j then newcblknum + (m - sptcblk)
                      else old(extranewnum[m])
    {
      extranewnum[sptcblk + j] := newcblknum + j;
      j := j + 1;
    }
    forall f | 0 <= f < i + 1 && w.x.sptcbnb[f] > 1
      ensures EntryNumbered(w, f, extranewnum[..])
    {
      assert SplitOK(w.s, w.x, f);
      if f < i {
        assert EntryNumbered(w, f, old(extranewnum[..]));
        EntriesApart(w, i, f);
      }
    }
  }

  lemma NumberedParts(w: Split, i: int, newnum: seq<int>, extra: seq<int>)
    requires Numbered(w, i, newnum, extra)
    ensures 0 <= i <= w.s.CblkNbr() < |newnum| && |extra| == |w.x.cblktab|
    ensures forall k :: 0 <= k <= i ==> newnum[k] == NewNum(w.x, k)
    ensures forall f :: 0 <= f < i && w.x.sptcbnb[f] > 1 ==> EntryNumbered(w, f, extra)
  {
  }

  /** A column block that is not split waits to be copied with the following ones. */
  lemma CopiedNext(w: Split, last: int, i: int, newcblk: seq<Cblk>)
    requires 0 <= i < w.s.CblkNbr() && Copied(w, last, i, newcblk) && w.x.sptcbnb[i] == 1
    ensures Copied(w, last, i + 1, newcblk)
  {
  }

  lemma NumberedNext(w: Split, i: int, newnum: seq<int>, newnum': seq<int>, extra: seq<int>, extra': seq<int>)
    requires 0 <= i < w.s.CblkNbr() && Numbered(w, i, newnum, extra) && |extra'| == |extra|
    requires newnum' == newnum[i + 1 := newnum[i + 1] + newnum[i]]
    requires forall f :: 0 <= f < i + 1 && w.x.sptcbnb[f] > 1 ==> EntryNumbered(w, f, extra')
    ensures Numbered(w, i + 1, newnum', extra')
  {
  }

  lemma CountNext(w: Split, i: int, count: int, extra: int)
    requires 0 <= i < w.s.CblkNbr() && count == TotalExtra(w, i) && extra == ExtraBloks(w, i)
    ensures count + extra == TotalExtra(w, i + 1)
  {
  }

  /** Number column block `i`, and copy its pieces if it is split. */
  method NumberOne(w: Split, i: int, last: int, newnum: array<int>, extranewnum: array<int>, newcblk: array<Cblk>)
      returns (last': int)
    requires newnum.Length == w.s.CblkNbr() + 1 && extranewnum.Length == |w.x.cblktab| && newnum != extranewnum
    requires i < w.s.CblkNbr() && Numbered(w, i, newnum[..], extranewnum[..]) && Copied(w, last, i, newcblk[..])
    modifies newnum, extranewnum, newcblk
    ensures Numbered(w, i + 1, newnum[..], extranewnum[..]) && Copied(w, last', i + 1, newcblk[..])
  {
    hide Numbered, Copied, NewNum, EntryNumbered;
    NumberedParts(w, i, newnum[..], extranewnum[..]);
    assert SplitOK(w.s, w.x, i);
    last' := last;
    if w.x.sptcbnb[i] > 1 {
      CopyPieces(w, i, last, newnum, newcblk);
      NumberPieces(w, i, newnum[i], extranewnum);
      last' := i;
    } else {
      CopiedNext(w, last, i, newcblk[..]);
    }
    NumberedNext(w, i, newnum[..], newnum[..][i + 1 := newnum[i + 1] + newnum[i]], old(extranewnum[..]),
                 extranewnum[..]);
    newnum[i + 1] := newnum[i + 1] + newnum[i];
  }

  /** First pass over the column blocks. */
  method NumberAll(w: Split, newnum: array<int>, extranewnum: array<int>, newcblk: array<Cblk>)
      returns (addblok: int, last: int)
    requires newnum.Length == w.s.CblkNbr() + 1 && extranewnum.Length == |w.x.cblktab| && newnum != extranewnum
    requires Numbered(w, 0, newnum[..], extranewnum[..]) && Copied(w, -1, 0, newcblk[..])
    modifies newnum, extranewnum, newcblk
    ensures Numbered(w, w.s.CblkNbr(), newnum[..], extranewnum[..])
    ensures Copied(w, last, w.s.CblkNbr(), newcblk[..])
    ensures addblok == TotalExtra(w, w.s.CblkNbr())
  {
    hide Numbered, Copied, ExtraBloks;
    addblok := 0;
    last := -1;
    var i := 0;
    while i < w.s.CblkNbr()
      invariant 0 <= i <= w.s.CblkNbr()
      invariant Numbered(w, i, newnum[..], extranewnum[..])
      invariant Copied(w, last, i, newcblk[..])
      invariant addblok == TotalExtra(w, i)
    {
      var extra := CountExtra(w, i);
      CountNext(w, i, addblok, extra);
      addblok := addblok + extra;
      last := NumberOne(w, i, last, newnum, extranewnum, newcblk);
      i := i + 1;
    }
  }

  /** First pass: number and copy the pieces, count the extra blocks. */
  method NumberAndCount(w: Split, newnum: array<int>, extranewnum: array<int>, newcblk: array<Cblk>)
      returns (addblok: int)
    requires newnum.Length == w.s.CblkNbr() + 1 && extranewnum.Length == |w.x.cblktab| && newnum != extranewnum
    requires NewNum(w.x, w.s.CblkNbr()) >= 0 && newcblk.Length == NewNum(w.x, w.s.CblkNbr()) + 1
    requires Numbered(w, 0, newnum[..], extranewnum[..])
    modifies newnum, extranewnum, newcblk
    ensures Numbered(w, w.s.CblkNbr(), newnum[..], extranewnum[..])
    ensures StartsWith(newcblk[..], AllPieces(w, w.s.CblkNbr()))
    ensures addblok == TotalExtra(w, w.s.CblkNbr())
  {
    hide TotalExtra;
    var last;
    addblok, last := NumberAll(w, newnum, extranewnum, newcblk);
    CopyKept(w, w.s.CblkNbr(), last, newnum, newcblk);
  }

  // ----- second pass -----

  lemma StartsWithNext<T>(a: seq<T>, p: seq<T>, v: T)
    requires StartsWith(a, p) && |p| < |a|
    ensures StartsWith(a[|p| := v], p + [v])
  {
  }

  /** Emit block `b` of the old symbol for new column block `q`: one block for each
      piece it faces. */
  method EmitCut(w: Split, q: int, b: int, newnum: array<int>, extranewnum: array<int>,
                 newblok: array<Blok>, cur: int, ghost done: seq<Blok>) returns (cur': int)
    requires 0 <= b < |w.s.bloktab| && Numbered(w, w.s.CblkNbr(), newnum[..], extranewnum[..])
    requires cur == |done| && StartsWith(newblok[..], done) && cur + |CutBlok(w, q, b)| <= newblok.Length
    modifies newblok
    ensures cur' == |done + CutBlok(w, q, b)| && StartsWith(newblok[..], done + CutBlok(w, q, b))
  {
    assert w.s.BlokPlaced(b);
    var fcblknum := w.s.bloktab[b].fcblknm;
    var frownum, lrownum := w.s.bloktab[b].frownum, w.s.bloktab[b].lrownum;
    var sptfcblk, sptfcbnb := w.x.sptcblk[fcblknum], w.x.sptcbnb[fcblknum];
    assert SplitOK(w.s, w.x, fcblknum);
    if sptfcbnb > 1 {
      assert EntryNumbered(w, fcblknum, extranewnum[..]);
      cur' := EmitPieces(w.x.cblktab, sptfcblk, sptfcbnb, extranewnum[sptfcblk], q, frownum, lrownum, newblok, cur,
                         done);
    } else {
      UnsplitPart(w, b);
      StartsWithNext(newblok[..], done, Blok(frownum, lrownum, q, newnum[fcblknum]));
      newblok[cur] := Blok(frownum, lrownum, q, newnum[fcblknum]);
      cur' := cur + 1;
    }
  }

  method EmitPieces(cblktab: seq<Cblk>, sptcblk: int, sptcbnb: int, newfcblknum: int, q: int, first: int, lrownum: int,
                    newblok: array<Blok>, cur: int, ghost done: seq<Blok>) returns (cur': int)
    requires 0 <= sptcblk && 0 <= sptcbnb && sptcblk + sptcbnb <= |cblktab|
    requires cur == |done| && StartsWith(newblok[..], done)
    requires cur + |Cut(cblktab[sptcblk..sptcblk + sptcbnb], newfcblknum, q, first, lrownum, 0)| <= newblok.Length
    modifies newblok
    ensures var all := done + Cut(cblktab[sptcblk..sptcblk + sptcbnb], newfcblknum, q, first, lrownum, 0);
            cur' == |all| && StartsWith(newblok[..], all)
  {
    ghost var p := cblktab[sptcblk..sptcblk + sptcbnb];
    ghost var all := done + Cut(p, newfcblknum, q, first, lrownum, 0);
    ghost var now := done;
    var frownum := first;
    cur' := cur;
    var l := 0;
    while l < sptcbnb
      invariant 0 <= l <= sptcbnb && cur' == |now| && StartsWith(newblok[..], now)
      invariant now + Cut(p, newfcblknum, q, frownum, lrownum, l) == all
    {
      var newfcblk := cblktab[sptcblk + l];
      assert newfcblk == p[l];
      if frownum > newfcblk.lcolnum {
        l := l + 1;
        continue;
      }
      if lrownum < newfcblk.fcolnum {
        break;
      }
      var blok := Blok(frownum, Min(lrownum, newfcblk.lcolnum), q, newfcblknum + l);
      assert now + Cut(p, newfcblknum, q, frownum, lrownum, l)
          == (now + [blok]) + Cut(p, newfcblknum, q, newfcblk.lcolnum + 1, lrownum, l + 1);
      StartsWithNext(newblok[..], now, blok);
      newblok[cur'] := blok;
      now := now + [blok];
      cur' := cur' + 1;
      frownum := newfcblk.lcolnum + 1;
      l := l + 1;
    }
  }

  ghost predicate SameCols(a: seq<Cblk>, pieces: seq<Cblk>) {
    |pieces| <= |a|
    && forall k :: 0 <= k < |pieces| ==> a[k].fcolnum == pieces[k].fcolnum && a[k].lcolnum == pieces[k].lcolnum
  }

  /** Emit the diagonal blocks of the column block `q`: itself and the `left - 1`
      pieces after it. */
  method EmitDiag(newcblk: array<Cblk>, q: int, left: int, newblok: array<Blok>, cur: int,
                  ghost pieces: seq<Cblk>, ghost p: seq<Cblk>, ghost done: seq<Blok>) returns (cur': int)
    requires 1 <= left <= |p| && Embedded(p, pieces, q - (|p| - left)) && SameCols(newcblk[..], pieces)
    requires cur == |done| && StartsWith(newblok[..], done) && cur + left <= newblok.Length
    modifies newblok
    ensures var all := done + DiagPart(p, q, |p| - left);
            cur' == |all| && StartsWith(newblok[..], all)
  {
    ghost var d := DiagPart(p, q, |p| - left);
    cur' := cur;
    var k := 0;
    while k < left
      invariant 0 <= k <= left && cur' == cur + k
      invariant StartsWith(newblok[..], done + d[..k])
    {
      EmbeddedAt(p, pieces, q - (|p| - left), |p| - left + k);
      assert newcblk[..][q + k].fcolnum == pieces[q + k].fcolnum && newcblk[..][q + k].lcolnum == pieces[q + k].lcolnum;
      StartsWithNext(newblok[..], done + d[..k], d[k]);
      newblok[cur'] := Blok(newcblk[q + k].fcolnum, newcblk[q + k].lcolnum, q, q + k);
      assert done + d[..k] + [d[k]] == done + d[..k + 1];
      cur' := cur' + 1;
      k := k + 1;
    }
    assert d[..left] == d;
  }

  /** Emit the parts of the off-diagonal blocks of column block `i` for new column block `q`. */
  method EmitOff(w: Split, i: int, q: int, newnum: array<int>, extranewnum: array<int>,
                 newblok: array<Blok>, cur: int, ghost done: seq<Blok>) returns (cur': int)
    requires 0 <= i < w.s.CblkNbr() && Numbered(w, w.s.CblkNbr(), newnum[..], extranewnum[..])
    requires cur == |done| && StartsWith(newblok[..], done)
    requires cur + |OffPart(w, q, w.s.First(i) + 1, w.s.End(i))| <= newblok.Length
    modifies newblok
    ensures var all := done + OffPart(w, q, w.s.First(i) + 1, w.s.End(i));
            cur' == |all| && StartsWith(newblok[..], all)
  {
    hide CutBlok;
    ghost var b := w.s.First(i) + 1;
    cur' := cur;
    assert done + OffPart(w, q, b, b) == done;
    var k := w.s.First(i) + 1;
    while k < w.s.End(i)
      invariant b <= k <= w.s.End(i)
      invariant cur' == |done + OffPart(w, q, b, k)| && StartsWith(newblok[..], done + OffPart(w, q, b, k))
    {
      OffGrows(w, q, b, k + 1, w.s.End(i));
      cur' := EmitCut(w, q, k, newnum, extranewnum, newblok, cur', done + OffPart(w, q, b, k));
      assert done + OffPart(w, q, b, k) + CutBlok(w, q, k) == done + OffPart(w, q, b, k + 1);
      k := k + 1;
    }
  }

  lemma {:induction false} OffGrows(w: Split, q: int, b: int, k: int, e: int)
    requires 0 <= b <= k <= e <= |w.s.bloktab|
    ensures |OffPart(w, q, b, k)| <= |OffPart(w, q, b, e)|
    decreases e - k
  {
    hide CutBlok;
    if k < e {
      OffGrows(w, q, b, k, e - 1);
    }
  }

  /** Emit all the blocks of piece `j` of column block `i`. */
  method EmitColumn(w: Split, i: int, j: int, q: int, newnum: array<int>, extranewnum: array<int>, newcblk: array<Cblk>,
                    newblok: array<Blok>, cur: int, ghost done: seq<Blok>) returns (cur': int)
    requires 0 <= i < w.s.CblkNbr() && 0 <= j < w.x.sptcbnb[i] && q == NewNum(w.x, i) + j
    requires Numbered(w, w.s.CblkNbr(), newnum[..], extranewnum[..])
    requires SameCols(newcblk[..], AllPieces(w, w.s.CblkNbr()))
    requires cur == |done| && StartsWith(newblok[..], done) && cur + |Column(w, i, j)| <= newblok.Length
    modifies newblok
    ensures cur' == |done + Column(w, i, j)| && StartsWith(newblok[..], done + Column(w, i, j))
  {
    hide OffPart, DiagPart, Pieces, AllPieces, Embedded, Numbered;
    PiecesEmbedded(w, w.s.CblkNbr(), i);
    ghost var d := DiagPart(Pieces(w, i), q, j);
    cur' := EmitDiag(newcblk, q, w.x.sptcbnb[i] - j, newblok, cur, AllPieces(w, w.s.CblkNbr()), Pieces(w, i), done);
    cur' := EmitOff(w, i, q, newnum, extranewnum, newblok, cur', done + d);
    assert done + d + OffPart(w, q, w.s.First(i) + 1, w.s.End(i)) == done + Column(w, i, j);
  }

  /** The first `q` column blocks have their first block set, and all keep their columns. */
  ghost predicate Placed(newcblk: seq<Cblk>, pieces: seq<Cblk>, cols: seq<seq<Blok>>, q: int) {
    && 0 <= q <= |pieces| == |cols| && SameCols(newcblk, pieces)
    && forall k :: 0 <= k < q ==> newcblk[k] == AssembledCblk(pieces, cols, k)
  }

  /** Columns emitted so far are the first ones of the merged symbol. */
  ghost predicate Emitted(w: Split, n: int, newblok: seq<Blok>, cur: int)
    requires 0 <= n
  {
    var cols := AllColumns(w, w.s.CblkNbr());
    && n <= |cols| && |newblok| == |Flat(cols)|
    && cur == |Flat(cols[..n])| && StartsWith(newblok, Flat(cols[..n]))
  }

  /** Emit the column blocks replacing column block `i`. */
  method EmitPiecesOf(w: Split, i: int, first: int, newnum: array<int>, extranewnum: array<int>, newcblk: array<Cblk>,
                      newblok: array<Blok>, cur: int) returns (cur': int)
    requires 0 <= i < w.s.CblkNbr() && first == NewNum(w.x, i) >= 0
    requires Numbered(w, w.s.CblkNbr(), newnum[..], extranewnum[..])
    requires Placed(newcblk[..], AllPieces(w, w.s.CblkNbr()), AllColumns(w, w.s.CblkNbr()), first)
    requires Emitted(w, first, newblok[..], cur)
    modifies newcblk, newblok
    ensures NewNum(w.x, i + 1) >= 0
    ensures Placed(newcblk[..], AllPieces(w, w.s.CblkNbr()), AllColumns(w, w.s.CblkNbr()), NewNum(w.x, i + 1))
    ensures Emitted(w, NewNum(w.x, i + 1), newblok[..], cur')
  {
    hide Column, AllColumns, AllPieces, Numbered;
    ghost var cols := AllColumns(w, w.s.CblkNbr());
    cur' := cur;
    NewNumOrder(w, i + 1, w.s.CblkNbr());
    assert SplitOK(w.s, w.x, i);
    var j := 0;
    while j < w.x.sptcbnb[i]
      invariant 0 <= j <= w.x.sptcbnb[i]
      invariant Placed(newcblk[..], AllPieces(w, w.s.CblkNbr()), cols, first + j)
      invariant Emitted(w, first + j, newblok[..], cur')
    {
      var q := first + j;
      AtNewColumn(w, w.s.CblkNbr(), i, j);
      FlatAt(cols, q);
      PlacedNext(newcblk[..], AllPieces(w, w.s.CblkNbr()), cols, q, cur');
      newcblk[q] := newcblk[q].(bloknum := cur');
      cur' := EmitColumn(w, i, j, q, newnum, extranewnum, newcblk, newblok, cur', Flat(cols[..q]));
      assert cols[..q + 1][..q] == cols[..q];
      j := j + 1;
    }
  }

  lemma PlacedNext(newcblk: seq<Cblk>, pieces: seq<Cblk>, cols: seq<seq<Blok>>, q: int, cur: int)
    requires Placed(newcblk, pieces, cols, q) && q < |pieces| && cur == |Flat(cols[..q])|
    ensures Placed(newcblk[q := newcblk[q].(bloknum := cur)], pieces, cols, q + 1)
  {
  }

  /** Second pass: emit the blocks of every column block, then close the table. */
  method EmitAll(w: Split, newnum: array<int>, extranewnum: array<int>, newcblk: array<Cblk>, newblok: array<Blok>)
    requires w.s.CblkNbr() > 0 && Numbered(w, w.s.CblkNbr(), newnum[..], extranewnum[..])
    requires newcblk.Length == |AllPieces(w, w.s.CblkNbr())| + 1 && SameCols(newcblk[..], AllPieces(w, w.s.CblkNbr()))
    requires newblok.Length == |Flat(AllColumns(w, w.s.CblkNbr()))|
    modifies newcblk, newblok
    ensures newblok[..] == Merged(w).bloktab && newcblk[..] == Merged(w).cblktab
  {
    hide AllColumns, AllPieces, Numbered;
    ghost var pieces, cols := AllPieces(w, w.s.CblkNbr()), AllColumns(w, w.s.CblkNbr());
    var curbloknum := 0;
    var i, first := 0, 0;
    while i < w.s.CblkNbr()
      invariant 0 <= i <= w.s.CblkNbr() && first == NewNum(w.x, i) >= 0
      invariant Placed(newcblk[..], pieces, cols, first)
      invariant Emitted(w, first, newblok[..], curbloknum)
    {
      curbloknum := EmitPiecesOf(w, i, first, newnum, extranewnum, newcblk, newblok, curbloknum);
      first := first + w.x.sptcbnb[i];
      i := i + 1;
    }
    NewNumOrder(w, 0, w.s.CblkNbr());
    assert cols[..first] == cols;
    assert Placed(newcblk[..], pieces, cols, first);
    var last := newcblk[first - 1].lcolnum;
    newcblk[first] := Cblk(last + 1, last + 1, curbloknum);
  }

  /** Replace the split column blocks by their pieces: the result is the merged
      symbol, and the number of blocks allocated is the number counted. */
  method ExtraCblkMerge(w: Split) returns (newsymb: SymbolMatrix)
    ensures w.x.addcblk == 0 ==> newsymb == w.s
    ensures w.x.addcblk != 0 ==>
      newsymb == Merged(w) && |newsymb.bloktab| == |w.s.bloktab| + TotalExtra(w, w.s.CblkNbr())
  {
    if w.x.addcblk == 0 {
      return w.s;
    }
    NewNumOrder(w, 0, w.s.CblkNbr());
    var cblknbr := w.s.CblkNbr() + w.x.addcblk;
    var newcblk := new Cblk[cblknbr + 1](_ => Cblk(0, 0, 0));
    var newnum := new int[w.s.CblkNbr() + 1](
      k requires 0 <= k < |w.x.sptcbnb| + 1 => if k == 0 then 0 else w.x.sptcbnb[k - 1]);
    var extranewnum := new int[|w.x.cblktab|](_ => -1);
    var addblok := NumberAndCount(w, newnum, extranewnum, newcblk);
    PredictedIsEmitted(w, w.s.CblkNbr());
    var newblok := new Blok[|w.s.bloktab| + addblok](_ => Blok(0, 0, 0, 0));
    EmitAll(w, newnum, extranewnum, newcblk, newblok);
    newsymb := SymbolMatrix(newcblk[..], newblok[..]);
  }
}
