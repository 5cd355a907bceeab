/** Records laid end to end in the transmit buffer, and what the batching loop does to them. */
module TxChain {
  import opened Modular
  import opened TxRing

  /** The bytes stand in the buffer at `pos`. */
  predicate At(buf: seq<Byte>, pos: nat, bytes: seq<Byte>) {
    && pos + |bytes| <= |buf|
    && forall i :: pos <= i < pos + |bytes| ==> buf[i] == bytes[i - pos]
  }

  predicate Same(buf: seq<Byte>, buf': seq<Byte>, lo: int, hi: int) {
    && |buf| == |buf'|
    && forall i :: lo <= i < hi && 0 <= i < |buf| ==> buf'[i] == buf[i]
  }

  function Total(fs: seq<TxFrame>): nat {
    if fs == [] then 0 else RecLen(fs[0]) + Total(fs[1..])
  }

  predicate AllFit(fs: seq<TxFrame>) {
    forall i :: 0 <= i < |fs| ==> Fits(fs[i])
  }

  /** Records of `fs` from `pos` on: flags `mid`, and `fin` on the last one. */
  predicate Chain(buf: seq<Byte>, pos: nat, fs: seq<TxFrame>, mid: Byte, fin: Byte)
    decreases |fs|
  {
    fs != [] ==>
      && At(buf, pos, Record(fs[0], if |fs| == 1 then fin else mid))
      && Chain(buf, pos + RecLen(fs[0]), fs[1..], mid, fin)
  }

  /** The bytes a transfer of `fs` puts on the bus, without the trailing padding: USBDMANextVLD is
      set on every record but the last. */
  function Wire(fs: seq<TxFrame>): (w: seq<Byte>)
    ensures |w| == Total(fs)
  {
    if fs == [] then []
    else Record(fs[0], if |fs| == 1 then EDCA else EDCA_NEXT) + Wire(fs[1..])
  }

  lemma {:induction false} TotalSplit(fs: seq<TxFrame>, n: nat)
    requires n <= |fs|
    ensures Total(fs) == Total(fs[..n]) + Total(fs[n..])
    decreases n
  {
    hide RecLen, Record;
    if n == 0 {
      assert fs[..0] == [] && fs[0..] == fs;
    } else {
      TotalSplit(fs[1..], n - 1);
      assert fs[..n][1..] == fs[1..][..n - 1] && fs[1..][n - 1..] == fs[n..];
    }
  }

  lemma {:induction false} TotalSnoc(fs: seq<TxFrame>, f: TxFrame)
    ensures Total(fs + [f]) == Total(fs) + RecLen(f)
  {
    TotalSplit(fs + [f], |fs|);
    assert (fs + [f])[..|fs|] == fs && (fs + [f])[|fs|..] == [f];
    assert Total([f]) == RecLen(f) + Total([f][1..]);
  }

  lemma {:induction false} ChainFrame(buf: seq<Byte>, buf': seq<Byte>, pos: nat, fs: seq<TxFrame>, mid: Byte, fin: Byte)
    requires Chain(buf, pos, fs, mid, fin) && Same(buf, buf', pos, pos + Total(fs))
    ensures Chain(buf', pos, fs, mid, fin)
    decreases |fs|
  {
    if fs != [] {
      assert At(buf', pos, Record(fs[0], if |fs| == 1 then fin else mid));
      ChainFrame(buf, buf', pos + RecLen(fs[0]), fs[1..], mid, fin);
    }
  }

  lemma {:induction false} ChainSnoc(buf: seq<Byte>, pos: nat, fs: seq<TxFrame>, f: TxFrame, mid: Byte, fin: Byte)
    requires Chain(buf, pos, fs, mid, mid) && At(buf, pos + Total(fs), Record(f, fin))
    ensures Chain(buf, pos, fs + [f], mid, fin)
    decreases |fs|
  {
    hide RecLen, Record;
    if fs == [] {
      assert fs + [f] == [f] && [f][1..] == [];
    } else {
      assert (fs + [f])[0] == fs[0] && (fs + [f])[1..] == fs[1..] + [f];
      ChainSnoc(buf, pos + RecLen(fs[0]), fs[1..], f, mid, fin);
    }
  }

  lemma {:induction false} ChainDrop(buf: seq<Byte>, pos: nat, fs: seq<TxFrame>, n: nat, mid: Byte, fin: Byte)
    requires Chain(buf, pos, fs, mid, fin) && n <= |fs|
    ensures Chain(buf, pos + Total(fs[..n]), fs[n..], mid, fin)
    decreases n
  {
    hide RecLen, Record;
    if n == 0 {
      assert fs[..0] == [] && fs[0..] == fs;
    } else {
      ChainDrop(buf, pos + RecLen(fs[0]), fs[1..], n - 1, mid, fin);
      assert fs[..n][1..] == fs[1..][..n - 1] && fs[1..][n - 1..] == fs[n..];
    }
  }

  lemma {:induction false} ChainIsWire(buf: seq<Byte>, pos: nat, fs: seq<TxFrame>)
    requires Chain(buf, pos, fs, EDCA_NEXT, EDCA)
    ensures At(buf, pos, Wire(fs)) || fs == []
    decreases |fs|
  {
    hide RecLen, Record;
    if |fs| > 1 {
      ChainIsWire(buf, pos + RecLen(fs[0]), fs[1..]);
    } else if |fs| == 1 {
      assert Wire(fs) == Record(fs[0], EDCA) + [];
    }
  }

  lemma RecordFlags(f: TxFrame, a: Byte, b: Byte)
    ensures Record(f, a)[3] == a
    ensures Record(f, a)[3 := b] == Record(f, b)
  {
  }

  /** Rewriting the flags byte of a record in place. */
  lemma AtSetFlags(buf: seq<Byte>, pos: nat, f: TxFrame, a: Byte, b: Byte)
    requires At(buf, pos, Record(f, a))
    ensures buf[pos + 3] == a
    ensures At(buf[pos + 3 := b], pos, Record(f, b))
  {
    RecordFlags(f, a, b);
    var r, r' := Record(f, a), Record(f, b);
    assert r' == r[3 := b];
    assert buf[pos + 3] == r[3];
  }

  lemma RecordLen(buf: seq<Byte>, pos: nat, f: TxFrame, flags: Byte)
    requires Fits(f) && At(buf, pos, Record(f, flags))
    ensures pos + 8 <= |buf| && LenAt(buf, pos) == PktLen(f) > 8
  {
    var r := Record(f, flags);
    assert r[0] == PktLen(f) % 256 && r[1] == (PktLen(f) / 256) % 256;
    assert buf[pos] == r[0] && buf[pos + 1] == r[1];
  }

  /** Flags a taken record gets before the loop's final fix-up. */
  function OpenFlags(end: nat, wrapped: bool, cw: nat): Byte {
    if end == cw || (wrapped && cw == 8) then EDCA else EDCA_NEXT
  }

  lemma TakenFlagsOf(more: bool, atStart: bool)
    ensures TakenFlags(EDCA, more, atStart) == if more then EDCA_NEXT else EDCA
    ensures TakenFlags(EDCA_LAST, more, atStart) == if more && !atStart then EDCA_NEXT else EDCA
    ensures IsLastRound(EDCA_LAST) && !IsLastRound(EDCA)
  {
    assert WithEdca(4) == 4 && WithEdca(12) == 12;
    assert SetNext(4) == 68 && SetNext(12) == 76 && ClearNext(76) == 12;
    assert IsLastRound(12) && !IsLastRound(4) && IsLastRound(76);
  }

  /** Where the loop leaves a chain of records: it takes the first n of them, unmarked except for
      the flags, and stops at a record boundary. */
  predicate Took(buf: seq<Byte>, pos: nat, size: nat, lastInfo: int, cw: nat, b: Batch, fs: seq<TxFrame>, n: nat,
    fin: Byte) {
    && n <= |fs| && !b.bad
    && b.end == pos + Total(fs[..n]) && b.size == size + Total(fs[..n])
    && b.lastInfo == (if n == 0 then lastInfo else pos + Total(fs[..n - 1]))
    && b.wrapped == (fin == EDCA_LAST && n > 0 && n == |fs|)
    && |b.buf| == |buf|
    && Same(buf, b.buf, 0, pos) && Same(buf, b.buf, b.end, |buf|)
    && Chain(b.buf, pos, fs[..n], EDCA_NEXT, OpenFlags(b.end, b.wrapped, cw))
  }

  lemma RecLenOf(f: TxFrame)
    ensures RecLen(f) == PktLen(f) + 4
  {
  }

  lemma OpenFlagsOf(next: nat, cw: nat)
    ensures OpenFlags(next, false, cw) == if next != cw then EDCA_NEXT else EDCA
    ensures OpenFlags(next, true, cw) == if next != cw && cw != 8 then EDCA_NEXT else EDCA
  {
  }

  /** First record of a chain: the loop takes it unless a size limit is reached. */
  lemma TakeOne(buf: seq<Byte>, pos: nat, size: nat, lastInfo: int, cw: nat, mps: nat, f: TxFrame, flags: Byte)
    requires At(buf, pos, Record(f, flags)) && Fits(f) && pos != cw
    requires flags == EDCA || flags == EDCA_LAST
    requires !LimitReached(size, CckAt(buf, pos), mps)
    ensures var next := pos + RecLen(f);
      var y := if flags == EDCA_LAST then OpenFlags(next, true, cw) else OpenFlags(next, false, cw);
      var buf' := buf[pos + 3 := y];
      && At(buf', pos, Record(f, y)) && Same(buf, buf', 0, pos) && Same(buf, buf', next, |buf|)
      && TakeBatch(buf, pos, size, lastInfo, cw, mps) ==
         if flags == EDCA_LAST then Batch(buf', next, size + RecLen(f), pos, true, false)
         else TakeBatch(buf', next, size + RecLen(f), pos, cw, mps)
  {
    hide RecLen, PktLen, Record, Fits, TakenFlags, IsLastRound, LimitReached, CckAt, LenAt, OpenFlags;
    RecLenOf(f);
    var next := pos + RecLen(f);
    OpenFlagsOf(next, cw);
    var y := if flags == EDCA_LAST then OpenFlags(next, true, cw) else OpenFlags(next, false, cw);
    RecordLen(buf, pos, f, flags);
    AtSetFlags(buf, pos, f, flags, y);
    TakenFlagsOf(next != cw, cw == 8);
  }

  /** One record in front of a stretch already described. */
  lemma TookCons(buf: seq<Byte>, buf': seq<Byte>, pos: nat, size: nat, lastInfo: int, cw: nat, b: Batch,
      fs: seq<TxFrame>, m: nat, fin: Byte)
    requires fs != [] && (m == 0 && |fs| == 1 ==> fin == EDCA)
    requires var next := pos + RecLen(fs[0]);
      && At(buf', pos, Record(fs[0], OpenFlags(next, false, cw)))
      && Same(buf, buf', 0, pos) && Same(buf, buf', next, |buf|)
      && Took(buf', next, size + RecLen(fs[0]), pos, cw, b, fs[1..], m, fin)
      && (m > 0 ==> next != cw)
    ensures Took(buf, pos, size, lastInfo, cw, b, fs, m + 1, fin)
  {
    var next, gs := pos + RecLen(fs[0]), fs[..m + 1];
    assert gs[0] == fs[0] && gs[1..] == fs[1..][..m];
    assert m > 0 ==> fs[..m][0] == fs[0] && fs[..m][1..] == fs[1..][..m - 1];
    assert fs[..0] == [] && fs[1..][..0] == [];
    hide Record, RecLen, OpenFlags;
    assert At(b.buf, pos, Record(fs[0], OpenFlags(next, false, cw)));
    assert m == 0 ==> b.end == next && !b.wrapped;
  }

  lemma TookLast(buf: seq<Byte>, buf': seq<Byte>, pos: nat, size: nat, lastInfo: int, cw: nat, f: TxFrame)
    requires var next := pos + RecLen(f);
      && At(buf', pos, Record(f, OpenFlags(next, true, cw)))
      && Same(buf, buf', 0, pos) && Same(buf, buf', next, |buf|)
    ensures Took(buf, pos, size, lastInfo, cw, Batch(buf', pos + RecLen(f), size + RecLen(f), pos, true, false), [f],
            1, EDCA_LAST)
  {
    assert [f][..1] == [f] && [f][..0] == [] && [f][1..] == [];
    assert Total([f]) == RecLen(f) + Total([f][1..]);
  }

  lemma TookNone(buf: seq<Byte>, pos: nat, size: nat, lastInfo: int, cw: nat, mps: nat, fs: seq<TxFrame>, fin: Byte)
    requires pos + 8 <= |buf| && (LimitReached(size, CckAt(buf, pos), mps) || pos == cw)
    ensures Took(buf, pos, size, lastInfo, cw, TakeBatch(buf, pos, size, lastInfo, cw, mps), fs, 0, fin)
  {
    assert fs[..0] == [];
  }

  /** The loop takes the first record of a chain of several, or of a chain that does not wrap. */
  lemma TakeFirst(buf: seq<Byte>, pos: nat, size: nat, lastInfo: int, cw: nat, mps: nat, fs: seq<TxFrame>, fin: Byte)
      returns (buf': seq<Byte>)
    requires fs != [] && Chain(buf, pos, fs, EDCA, fin) && Fits(fs[0]) && pos != cw
    requires |fs| == 1 ==> fin == EDCA
    requires !LimitReached(size, CckAt(buf, pos), mps)
    ensures var next := pos + RecLen(fs[0]);
      && At(buf', pos, Record(fs[0], OpenFlags(next, false, cw)))
      && Same(buf, buf', 0, pos) && Same(buf, buf', next, |buf|)
      && Chain(buf', next, fs[1..], EDCA, fin)
      && TakeBatch(buf, pos, size, lastInfo, cw, mps) == TakeBatch(buf', next, size + RecLen(fs[0]), pos, cw, mps)
  {
    hide TakeBatch, LimitReached, CckAt, Fits, Record, OpenFlags;
    var next := pos + RecLen(fs[0]);
    TakeOne(buf, pos, size, lastInfo, cw, mps, fs[0], EDCA);
    buf' := buf[pos + 3 := OpenFlags(next, false, cw)];
    ChainFrame(buf, buf', next, fs[1..], EDCA, fin);
  }

  lemma TakeOnly(buf: seq<Byte>, pos: nat, size: nat, lastInfo: int, cw: nat, mps: nat, f: TxFrame)
    requires At(buf, pos, Record(f, EDCA_LAST)) && Fits(f) && pos != cw
    requires !LimitReached(size, CckAt(buf, pos), mps)
    ensures Took(buf, pos, size, lastInfo, cw, TakeBatch(buf, pos, size, lastInfo, cw, mps), [f], 1, EDCA_LAST)
  {
    hide TakeBatch, LimitReached, CckAt, Fits, Record, Took;
    TakeOne(buf, pos, size, lastInfo, cw, mps, f, EDCA_LAST);
    TookLast(buf, buf[pos + 3 := OpenFlags(pos + RecLen(f), true, cw)], pos, size, lastInfo, cw, f);
  }

  /** PHYMODE of the frame's TXWI is MODE_CCK. */
  predicate Cck(f: TxFrame)
    requires |f.header| >= 16
  {
    f.header[3] / 64 == 0
  }

  lemma CckOf(buf: seq<Byte>, pos: nat, f: TxFrame, flags: Byte)
    requires At(buf, pos, Record(f, flags)) && Fits(f)
    ensures pos + 8 <= |buf| && CckAt(buf, pos) == Cck(f)
  {
    assert buf[pos + 7] == Record(f, flags)[7] == f.header[3];
  }

  /** With `size` bytes taken, the loop takes the first n of the frames: each below the limit, and the
      next one not. */
  predicate Stops(fs: seq<TxFrame>, n: nat, size: nat, mps: nat)
    requires AllFit(fs)
    decreases |fs|
  {
    if fs == [] then n == 0
    else if n == 0 then LimitReached(size, Cck(fs[0]), mps)
    else !LimitReached(size, Cck(fs[0]), mps) && Stops(fs[1..], n - 1, size + RecLen(fs[0]), mps)
  }

  lemma StopsIs(buf: seq<Byte>, pos: nat, fs: seq<TxFrame>, size: nat, mps: nat, fin: Byte)
    requires Chain(buf, pos, fs, EDCA, fin) && AllFit(fs)
    ensures fs == [] ==> Stops(fs, 0, size, mps)
    ensures fs != [] ==> pos + 8 <= |buf|
    ensures fs != [] && LimitReached(size, CckAt(buf, pos), mps) ==> Stops(fs, 0, size, mps)
    ensures fs != [] ==> CckAt(buf, pos) == Cck(fs[0])
    ensures |fs| == 1 && !LimitReached(size, CckAt(buf, pos), mps) ==> Stops(fs, 1, size, mps)
  {
    hide LimitReached, CckAt, Cck, Record, RecLen, Fits;
    if fs != [] {
      CckOf(buf, pos, fs[0], if |fs| == 1 then fin else EDCA);
    }
  }

  lemma StopsNext(fs: seq<TxFrame>, m: nat, size: nat, mps: nat)
    requires AllFit(fs) && fs != [] && !LimitReached(size, Cck(fs[0]), mps)
    requires Stops(fs[1..], m, size + RecLen(fs[0]), mps)
    ensures Stops(fs, m + 1, size, mps)
  {
  }

  lemma NothingTakenYet(cck: bool, mps: nat)
    ensures !LimitReached(0, cck, mps)
  {
  }

  /** The batching loop takes a non-empty prefix of the records, stops at a record boundary, leaves
      everything outside that prefix alone, and reports a wrap exactly when it took the record
      marked as the last before the wrap. */
  lemma {:induction false} TakeBatchTakes(buf: seq<Byte>, pos: nat, size: nat, lastInfo: int, cw: nat, mps: nat,
      fs: seq<TxFrame>, fin: Byte) returns (n: nat)
    requires Chain(buf, pos, fs, EDCA, fin) && AllFit(fs) && pos + Total(fs) + 8 <= |buf|
    requires (fin == EDCA && cw == pos + Total(fs)) || (fin == EDCA_LAST && cw < pos && fs != [])
    ensures Took(buf, pos, size, lastInfo, cw, TakeBatch(buf, pos, size, lastInfo, cw, mps), fs, n, fin)
    ensures n <= |fs| && (size == 0 && fs != [] ==> n > 0) && Stops(fs, n, size, mps)
    decreases |fs|
  {
    hide TakeBatch, Record, RecLen, OpenFlags, LimitReached, CckAt, Cck, Took, Fits, At, Stops;
    NothingTakenYet(CckAt(buf, pos), mps);
    StopsIs(buf, pos, fs, size, mps, fin);
    if LimitReached(size, CckAt(buf, pos), mps) || fs == [] {
      n := 0;
      TookNone(buf, pos, size, lastInfo, cw, mps, fs, fin);
    } else if |fs| == 1 && fin == EDCA_LAST {
      n := 1;
      TakeOnly(buf, pos, size, lastInfo, cw, mps, fs[0]);
      assert fs == [fs[0]];
    } else {
      var buf' := TakeFirst(buf, pos, size, lastInfo, cw, mps, fs, fin);
      var m := TakeBatchTakes(buf', pos + RecLen(fs[0]), size + RecLen(fs[0]), pos, cw, mps, fs[1..], fin);
      n := m + 1;
      StopsNext(fs, m, size, mps);
      TookCons(buf, buf', pos, size, lastInfo, cw, TakeBatch(buf, pos, size, lastInfo, cw, mps), fs, m, fin);
    }
  }
}
