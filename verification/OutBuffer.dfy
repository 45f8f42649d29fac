/**
 The decompressor's output buffer.  It begins with three times the length of the input and is
 enlarged at block starts and before copies, but not before literals; a store past its end is lost,
 and what is lost reads as 0 once the buffer reaches there.  This module says, for any blocks, how
 long the buffer gets and whether anything is lost.
 */
module OutBuffer {
  import opened Bits
  import opened BitStream
  import opened Canonical
  import opened RunLength
  import opened Lz77
  import opened Format

  /** The room made at a block start and before a copy. */
  const ROOM: nat := 131072

  /** The length after room for n bytes has been asked for. */
  function Enlarged(length: nat, n: nat): (r: nat)
    ensures r >= n && r >= length
  {
    if n > length then (if 2 * length > n then 2 * length else n) else length
  }

  /** The length of the buffer, the position of the next byte, and whether every byte that fell
      outside was a 0. */
  datatype Extent = Extent(length: nat, at: nat, clean: bool)

  function Asked(m: Extent, room: nat): Extent {
    m.(length := Enlarged(m.length, m.at + room))
  }

  function AfterSymbol(m: Extent, s: Symbol): Extent {
    match s
    case Lit(b) => Extent(m.length, m.at + 1, m.clean && (m.at < m.length || b == 0))
    case Copy(len, _) => var m2 := Asked(m, ROOM); m2.(at := m2.at + len)
  }

  function AfterSymbols(m: Extent, syms: seq<Symbol>): Extent {
    if syms == [] then m else AfterSymbol(AfterSymbols(m, syms[..|syms| - 1]), syms[|syms| - 1])
  }

  function AfterBlock(m: Extent, b: Block): Extent {
    match b
    case Stored(data) => var m2 := Asked(m, |data|); m2.(at := m2.at + |data|)
    case _ => AfterSymbols(Asked(m, ROOM), b.syms)
  }

  function AfterBlocks(m: Extent, bs: seq<Block>): Extent {
    if bs == [] then m else AfterBlock(AfterBlocks(m, bs[..|bs| - 1]), bs[|bs| - 1])
  }

  /** Where decompressing n bytes that hold these blocks ends. */
  function Final(n: nat, bs: seq<Block>): Extent {
    AfterBlocks(Extent(3 * n, 0, true), bs)
  }

  /** Nothing is lost: no literal but 0 falls outside, and the buffer reaches the last byte. */
  predicate Kept(n: nat, bs: seq<Block>) {
    Final(n, bs).clean && Final(n, bs).at <= Final(n, bs).length
  }

  // -------- the buffer and its extent --------------------------------------------------

  /** Every byte of out can be read from the buffer, where what is outside reads as 0. */
  ghost predicate Agrees(r: seq<byte>, out: seq<byte>) {
    forall p: nat :: p < |out| ==> ByteAt(r, p) == out[p]
  }

  /** The buffer has the extent m, and stands for out exactly if nothing but zeros was lost. */
  ghost predicate Tracks(r: seq<byte>, y: nat, out: seq<byte>, m: Extent) {
    m.length == |r| && m.at == y == |out| && (Agrees(r, out) <==> m.clean)
  }

  lemma EmptyTracks(r: seq<byte>)
    ensures Tracks(r, 0, [], Extent(|r|, 0, true))
  {
  }

  /** A literal, stored if it falls inside. */
  lemma LiteralTracks(r: seq<byte>, y: nat, out: seq<byte>, m: Extent, v: byte, r2: seq<byte>)
    requires Tracks(r, y, out, m) && r2 == if y < |r| then r[y := v] else r
    ensures Tracks(r2, y + 1, out + [v], AfterSymbol(m, Lit(v)))
  {
    var out2 := out + [v];
    if Agrees(r, out) && ByteAt(r2, y) == v {
      forall p: nat | p < |out2| ensures ByteAt(r2, p) == out2[p] { if p < y { assert ByteAt(r, p) == out[p]; } }
    }
    if Agrees(r2, out2) {
      assert ByteAt(r2, y) == out2[y];
      forall p: nat | p < |out| ensures ByteAt(r, p) == out[p] { assert ByteAt(r2, p) == out2[p]; }
    }
  }

  /** Room asked for: the new part of the buffer is 0. */
  lemma GrownTracks(r: seq<byte>, y: nat, out: seq<byte>, m: Extent, room: nat, r2: seq<byte>)
    requires Tracks(r, y, out, m) && |r2| == Enlarged(|r|, y + room) && r2[..|r|] == r
    requires forall p :: |r| <= p < |r2| ==> r2[p] == 0
    ensures Tracks(r2, y, out, Asked(m, room)) && y + room <= |r2|
  {
    forall p: nat ensures ByteAt(r2, p) == ByteAt(r, p) {
      if p < |r| { assert r2[..|r|][p] == r[p]; }
    }
  }

  /** Bytes written behind y, in room that is there. */
  lemma WrittenTracks(r: seq<byte>, y: nat, out: seq<byte>, m: Extent, r2: seq<byte>, n: nat, out2: seq<byte>)
    requires Tracks(r, y, out, m) && y + n <= |r| == |r2| && |out2| == y + n && out <= out2 && r[..y] <= r2[..y + n]
    requires r[..y] == out ==> r2[..y + n] == out2
    ensures Tracks(r2, y + n, out2, m.(at := m.at + n))
  {
    forall p: nat | p < y ensures r2[p] == r[p] && out2[p] == out[p] {
      assert r2[..y + n][p] == r[..y][p] && out2[..y][p] == out[p];
    }
    if Agrees(r, out) {
      assert r[..y] == out by { forall p | 0 <= p < y ensures r[p] == out[p] { assert ByteAt(r, p) == out[p]; } }
      forall p: nat | p < |out2| ensures ByteAt(r2, p) == out2[p] { assert r2[..y + n][p] == out2[p]; }
    }
    if Agrees(r2, out2) {
      forall p: nat | p < |out| ensures ByteAt(r, p) == out[p] { assert ByteAt(r2, p) == out2[p]; }
    }
  }

  lemma CopyTracks(r: seq<byte>, y: nat, out: seq<byte>, m: Extent, len: nat, dist: nat, r2: seq<byte>)
    requires Tracks(r, y, out, m) && y + len <= |r| == |r2| && 1 <= dist <= y && r2[..y + len] == CopyTo(r[..y], len, dist)
    ensures Tracks(r2, y + len, CopyTo(out, len, dist), m.(at := m.at + len))
  {
    hide Tracks, CopyTo;
    TracksLength(r, y, out, m);
    CopyLength(out, len, dist);
    CopyLength(r[..y], len, dist);
    WrittenTracks(r, y, out, m, r2, len, CopyTo(out, len, dist));
  }

  lemma TracksLength(r: seq<byte>, y: nat, out: seq<byte>, m: Extent)
    requires Tracks(r, y, out, m)
    ensures |out| == y == m.at && |r| == m.length
  {
  }

  lemma PutTracks(r: seq<byte>, y: nat, out: seq<byte>, m: Extent, d: seq<byte>, r2: seq<byte>)
    requires Tracks(r, y, out, m) && y + |d| <= |r| == |r2| && r2[..y + |d|] == r[..y] + d
    ensures Tracks(r2, y + |d|, out + d, m.(at := m.at + |d|))
  {
    hide Tracks;
    TracksLength(r, y, out, m);
    WrittenTracks(r, y, out, m, r2, |d|, out + d);
  }

  /** What is returned: the buffer up to y, or all of it. */
  function Cut(r: seq<byte>, y: nat): (out: seq<byte>)
    ensures |out| == if y <= |r| then y else |r|
  {
    r[..if y <= |r| then y else |r|]
  }

  /** It is what was meant exactly if nothing but zeros was lost and the buffer reaches the last
      byte. */
  lemma CutTracks(r: seq<byte>, y: nat, out: seq<byte>, m: Extent)
    requires Tracks(r, y, out, m)
    ensures Cut(r, y) == out <==> m.clean && m.at <= m.length
  {
    if y <= |r| {
      if Agrees(r, out) {
        forall p | 0 <= p < y ensures r[..y][p] == out[p] { assert ByteAt(r, p) == out[p]; }
      }
      if r[..y] == out {
        forall p: nat | p < |out| ensures ByteAt(r, p) == out[p] { assert r[..y][p] == out[p]; }
      }
    }
  }

  // -------- when nothing is lost -------------------------------------------------------

  /** How much of the room made last has been used. */
  function Unbroken(syms: seq<Symbol>): nat {
    if syms == [] then 0
    else if syms[|syms| - 1].Copy? then syms[|syms| - 1].len
    else Unbroken(syms[..|syms| - 1]) + 1
  }

  /** Every literal falls into the room made before it. */
  ghost predicate Roomy(syms: seq<Symbol>) {
    forall k :: 0 <= k < |syms| && syms[k].Lit? ==> Unbroken(syms[..k]) < ROOM
  }

  ghost predicate AllRoomy(bs: seq<Block>) {
    forall k :: 0 <= k < |bs| && !bs[k].Stored? ==> Roomy(bs[k].syms)
  }

  /** At most this many symbols never overrun the room, wherever the copies are. */
  lemma FewRoomy(syms: seq<Symbol>)
    requires |syms| <= 130815 && forall k :: 0 <= k < |syms| && syms[k].Copy? ==> syms[k].len <= 258
    ensures Roomy(syms)
  {
    forall k | 0 <= k < |syms| && syms[k].Lit? ensures Unbroken(syms[..k]) < ROOM { FewUnbroken(syms[..k]); }
  }

  lemma {:induction false} FewUnbroken(syms: seq<Symbol>)
    requires forall k :: 0 <= k < |syms| && syms[k].Copy? ==> syms[k].len <= 258
    ensures Unbroken(syms) <= 257 + |syms|
  {
    if syms != [] { FewUnbroken(syms[..|syms| - 1]); }
  }

  /** With room made first and every literal in it, symbols lose nothing. */
  lemma {:induction false} RoomySymbols(m: Extent, syms: seq<Symbol>)
    requires m.at + ROOM <= m.length && Roomy(syms)
    ensures var m2 := AfterSymbols(m, syms);
            m2.clean == m.clean && m2.at + ROOM <= m2.length + Unbroken(syms)
  {
    if syms != [] {
      var n := |syms| - 1;
      assert Roomy(syms[..n]) by {
        forall k | 0 <= k < n && syms[k].Lit? ensures Unbroken(syms[..n][..k]) < ROOM { assert syms[..n][..k] == syms[..k]; }
      }
      RoomySymbols(m, syms[..n]);
    }
  }

  /** Every block leaves the extent clean, and the buffer long enough. */
  lemma {:induction false} RoomyBlocks(m: Extent, bs: seq<Block>)
    requires BlocksOk(bs) && AllRoomy(bs) && m.clean && m.at <= m.length
    ensures AfterBlocks(m, bs).clean && AfterBlocks(m, bs).at <= AfterBlocks(m, bs).length
  {
    if bs != [] {
      var n := |bs| - 1;
      RoomyBlocks(m, bs[..n]);
      RoomyBlock(AfterBlocks(m, bs[..n]), bs[n]);
    }
  }

  lemma RoomyBlock(m: Extent, b: Block)
    requires BlockOk(b) && (!b.Stored? ==> Roomy(b.syms)) && m.clean && m.at <= m.length
    ensures AfterBlock(m, b).clean && AfterBlock(m, b).at <= AfterBlock(m, b).length
  {
    hide FixedLit, FixedDist, HeaderOk, Roomy;
    if !b.Stored? {
      RoomySymbols(Asked(m, ROOM), b.syms);
      CopiesShort(b);
      RoomySuffices(b.syms);
    }
  }

  lemma RoomySuffices(syms: seq<Symbol>)
    requires Roomy(syms) && forall k :: 0 <= k < |syms| && syms[k].Copy? ==> syms[k].len <= 258
    ensures Unbroken(syms) <= ROOM
  {
    if syms != [] && syms[|syms| - 1].Lit? { assert Unbroken(syms[..|syms| - 1]) < ROOM; }
  }

  lemma CopiesShort(b: Block)
    requires BlockOk(b) && !b.Stored?
    ensures forall k :: 0 <= k < |b.syms| && b.syms[k].Copy? ==> b.syms[k].len <= 258
  {
    hide FixedLit, FixedDist, HeaderOk;
    forall k | 0 <= k < |b.syms| && b.syms[k].Copy? ensures b.syms[k].len <= 258 {
      if b.Fixed? { assert Coded(FixedLit(), FixedDist(), b.syms[k]); } else { assert Coded(b.lit, b.dist, b.syms[k]); }
    }
  }

  /** So blocks whose literals stay in the room made for them are decompressed without loss. */
  lemma RoomyKept(n: nat, bs: seq<Block>)
    requires BlocksOk(bs) && AllRoomy(bs)
    ensures Kept(n, bs)
  {
    RoomyBlocks(Extent(3 * n, 0, true), bs);
  }

  // -------- when something is lost -----------------------------------------------------

  /** One-bit codes for the byte 0 and the end of the block. */
  function ZeroLit(): (lit: seq<nat>)
    ensures |lit| == 257 && forall k :: 0 <= k < 257 ==> lit[k] == if k == 0 || k == 256 then 1 else 0
  {
    [1] + Rep(0, 255) + [1]
  }

  /** Code lengths for the three run-length symbols needed: 1, 18 and 0. */
  function ZeroCl(): (cl: seq<nat>)
    ensures |cl| == 19
  {
    [2, 1] + Rep(0, 16) + [2]
  }

  /** A dynamic block of n bytes 0, all sent as literals. */
  function ZeroRun(n: nat): Block {
    Dynamic(ZeroLit(), [0], ZeroCl(), 18, [1, 32754, 32082, 1, 0], seq(n, _ => Lit(0)))
  }

  lemma {:induction false} ZeroKraft(lens: seq<nat>, n: nat, t: nat)
    ensures Kraft(lens + Rep(0, n), t) == Kraft(lens, t)
    decreases n
  {
    if n == 0 {
      assert lens + Rep(0, 0) == lens;
    } else {
      assert (lens + Rep(0, n))[..|lens| + n - 1] == lens + Rep(0, n - 1);
      ZeroKraft(lens, n - 1, t);
    }
  }

  lemma KraftMore(lens: seq<nat>, v: nat, t: nat)
    ensures Kraft(lens + [v], t) == Kraft(lens, t) + if 0 < v <= t then Pow2(t - v) else 0
  {
    assert (lens + [v])[..|lens|] == lens;
  }

  lemma ZeroPrefixCodes()
    ensures PrefixCode(ZeroLit(), 15) && PrefixCode([0], 15) && PrefixCode(ZeroCl(), 7)
  {
    hide Kraft, Pow2;
    KraftNone(15);
    KraftNone(7);
    KraftMore([], 1, 15);
    assert [] + [1] == [1];
    ZeroKraft([1], 255, 15);
    KraftMore([1] + Rep(0, 255), 1, 15);
    Halves(15);
    KraftMore([], 0, 15);
    assert [] + [0] == [0];
    KraftMore([], 2, 7);
    assert [] + [2] == [2] && [2] + [1] == [2, 1];
    KraftMore([2], 1, 7);
    ZeroKraft([2, 1], 16, 7);
    KraftMore([2, 1] + Rep(0, 16), 2, 7);
    Halves(7);
    Halves(6);
  }

  lemma KraftNone(t: nat)
    ensures Kraft([], t) == 0
  {
  }

  lemma Halves(k: nat)
    requires k > 0
    ensures Pow2(k) == 2 * Pow2(k - 1)
  {
  }

  lemma ExpandFive(a: nat, b: nat, c: nat, d: nat, e: nat)
    ensures Expand([], [a, b, c, d, e]) ==
            var x := Run([], a); var y := x + Run(x, b); var z := y + Run(y, c); var w := z + Run(z, d); w + Run(w, e)
  {
    hide Run;
    ExpandNext([], [], a);
    ExpandNext([], [a], b);
    ExpandNext([], [a, b], c);
    ExpandNext([], [a, b, c], d);
    ExpandNext([], [a, b, c, d], e);
    assert [] + [a] == [a] && [a] + [b] == [a, b] && [a, b] + [c] == [a, b, c] && [a, b, c] + [d] == [a, b, c, d];
    assert [a, b, c, d] + [e] == [a, b, c, d, e] && [] + Run([], a) == Run([], a);
  }

  /** The header's run-length symbols: 1, a run of 138 zeros, one of 117, 1, and the 0 of the only
      distance code. */
  lemma ZeroExpand()
    ensures Expand([], [1, 32754, 32082, 1, 0]) == ZeroLit() + [0]
    ensures forall x :: x in [1, 32754, 32082, 1, 0] ==> RunSymbolOk(x) && ZeroCl()[Sym(x)] > 0
  {
    hide Expand, Kraft;
    ExpandFive(1, 32754, 32082, 1, 0);
    assert Pow2(0) == 1 && Pow2(3) == 8 && Pow2(7) == 128;
  }

  lemma ZeroRunOk(n: nat)
    ensures BlockOk(ZeroRun(n)) && BlocksOk([ZeroRun(n)])
  {
    hide Kraft, Expand, PrefixCode;
    ZeroPrefixCodes();
    ZeroExpand();
    ZeroOrder();
    assert HeaderOk(ZeroRun(n));
    assert [ZeroRun(n)][..0] == [];
    ZeroReaches(BlocksOut([]), n);
  }

  lemma ZeroOrder()
    ensures forall i :: 18 <= i < 19 ==> ZeroCl()[ORDER[i]] == 0
  {
  }

  lemma {:induction false} ZeroReaches(out: seq<byte>, n: nat)
    ensures SymbolsOk(out, seq(n, _ => Lit(0)))
  {
    if n > 0 {
      assert seq(n, _ => Lit(0))[..n - 1] == seq(n - 1, _ => Lit(0));
      ZeroReaches(out, n - 1);
    }
  }

  lemma {:induction false} ZeroExtent(m: Extent, n: nat)
    ensures AfterSymbols(m, seq(n, _ => Lit(0))) == Extent(m.length, m.at + n, m.clean)
  {
    if n > 0 {
      assert seq(n, _ => Lit(0))[..n - 1] == seq(n - 1, _ => Lit(0));
      ZeroExtent(m, n - 1);
    }
  }

  lemma {:induction false} ZeroSize(lit: seq<nat>, dist: seq<nat>, n: nat)
    requires |lit| > 0 && lit[0] == 1
    ensures AllCoded(lit, dist, seq(n, _ => Lit(0))) && |SymsBits(lit, dist, seq(n, _ => Lit(0)))| == n
  {
    if n > 0 {
      assert seq(n, _ => Lit(0))[..n - 1] == seq(n - 1, _ => Lit(0));
      ZeroSize(lit, dist, n - 1);
    }
  }

  lemma {:induction false} RleSize(cl: seq<nat>, rle: seq<nat>)
    requires |cl| == 19 && LengthsUpTo(cl, 7) && forall k :: 0 <= k < |rle| ==> RunSymbolOk(rle[k]) && Sym(rle[k]) <= 18
    ensures |RleBits(cl, rle)| <= 14 * |rle|
  {
    hide CodeBits, ToBits;
    if rle != [] { RleSize(cl, rle[..|rle| - 1]); }
  }

  /** The bits of the whole block: at most 200 more than one for each byte. */
  lemma ZeroRunSize(n: nat)
    requires BlockOk(ZeroRun(n))
    ensures BlocksOk([ZeroRun(n)]) && n <= |BlocksBits([ZeroRun(n)], true)| <= n + 200
  {
    hide Kraft, Expand, RleBits, SymsBits, CodeBits, OrderBits, AllCoded;
    var b := ZeroRun(n);
    ZeroRunOk(n);
    ZeroSize(b.lit, b.dist, n);
    RleSize(b.cl, b.rle);
    OrderLength(b.cl, 18);
    assert [b][..0] == [];
    assert BlocksBits([b], true) == [] + BlockBits(b, true, 0);
    EndSize(b.lit);
  }

  lemma EndSize(lit: seq<nat>)
    requires |lit| == 257
    ensures |CodeBits(lit, END_OF_BLOCK)| == lit[256]
  {
  }

  /** A valid stream that is not decompressed to what it stands for: 131073 bytes 0 in one block, as
      literals of one bit each.  The buffer has 131072 bytes, and the last byte is lost. */
  lemma LongRunLost() returns (data: seq<byte>, b: Block)
    ensures IsStreamOf(data, [b]) && BlocksOut([b]) == seq(131073, _ => 0)
    ensures Final(|data|, [b]) == Extent(131072, 131073, true) && !Kept(|data|, [b])
  {
    hide BlocksBits, Holds, Clean, Kraft, ZeroLit, ZeroCl;
    b := ZeroRun(131073);
    ZeroRunOk(131073);
    ZeroRunSize(131073);
    var bits := BlocksBits([b], true);
    data := Packed(bits, ByteCount(|bits|));
    ZeroFinal(|data|, 131073);
    ZeroOut(131073);
  }

  lemma ZeroFinal(n: nat, k: nat)
    requires 6 * n <= ROOM
    ensures Final(n, [ZeroRun(k)]) == Extent(ROOM, k, true)
  {
    hide ZeroLit, ZeroCl;
    var b, m := ZeroRun(k), Extent(3 * n, 0, true);
    assert [b][..0] == [];
    assert AfterBlocks(m, [b]) == AfterBlock(m, b);
    assert Asked(m, ROOM) == Extent(ROOM, 0, true);
    ZeroExtent(Extent(ROOM, 0, true), k);
  }

  lemma ZeroOut(k: nat)
    ensures BlocksOut([ZeroRun(k)]) == seq(k, _ => 0)
  {
    hide ZeroLit, ZeroCl;
    assert [ZeroRun(k)][..0] == [];
    ZeroReplay(k);
  }

  lemma {:induction false} ZeroReplay(n: nat)
    ensures Replay([], seq(n, _ => Lit(0))) == seq(n, _ => 0)
  {
    if n > 0 {
      assert seq(n, _ => Lit(0))[..n - 1] == seq(n - 1, _ => Lit(0));
      ZeroReplay(n - 1);
    }
  }
}
