/**
 What a DEFLATE stream is (sections 3.2.3 to 3.2.7 of RFC 1951): blocks, the bits each is sent
 as, the bytes it stands for, and when a block may be sent at all.  Writer and reader are both
 proved against this module.
 */
module Format {
  import opened Bits
  import opened BitStream
  import opened Canonical
  import opened RunLength
  import opened Lz77

  /** A block.  In a dynamic one `cl` holds the lengths of the code-length code, of which `sent`
      are transmitted, and `rle` the run-length code of the two other lists of lengths. */
  datatype Block =
    | Stored(data: seq<byte>)
    | Fixed(syms: seq<Symbol>)
    | Dynamic(lit: seq<nat>, dist: seq<nat>, cl: seq<nat>, sent: nat, rle: seq<nat>, syms: seq<Symbol>)

  const END_OF_BLOCK: nat := 256

  /** The order in which the lengths of the code-length code are sent. */
  const ORDER: seq<nat> := [16, 17, 18, 0, 8, 7, 9, 6, 10, 5, 11, 4, 12, 3, 13, 2, 14, 1, 15]

  /** Where each symbol of the code-length code stands in ORDER. */
  const RANK: seq<nat> := [3, 17, 15, 13, 11, 9, 7, 5, 4, 6, 8, 10, 12, 14, 16, 18, 0, 1, 2]

  lemma OrderRank(i: nat)
    requires i < 19
    ensures ORDER[i] < 19 && RANK[ORDER[i]] == i && RANK[i] < 19 && ORDER[RANK[i]] == i
  {
  }

  // -------- the fixed codes ------------------------------------------------------------

  function FixedLit(): (r: seq<nat>)
    ensures |r| == 288
  {
    Rep(8, 144) + Rep(9, 112) + Rep(7, 24) + Rep(8, 8)
  }

  function FixedDist(): (r: seq<nat>)
    ensures |r| == 32
  {
    Rep(5, 32)
  }

  lemma {:induction false} KraftRep(lens: seq<nat>, v: nat, n: nat, t: nat)
    requires 0 < v <= t
    ensures Kraft(lens + Rep(v, n), t) == Kraft(lens, t) + n * Pow2(t - v)
    decreases n
  {
    if n == 0 {
      assert lens + Rep(v, 0) == lens;
    } else {
      KraftRep(lens, v, n - 1, t);
      KraftAppend(lens, v, n, t);
      OneMoreTime(n, Pow2(t - v));
    }
  }

  lemma KraftAppend(lens: seq<nat>, v: nat, n: nat, t: nat)
    requires 0 < v <= t && n > 0
    ensures Kraft(lens + Rep(v, n), t) == Kraft(lens + Rep(v, n - 1), t) + Pow2(t - v)
  {
    hide Pow2;
    var all := lens + Rep(v, n);
    assert all[..|all| - 1] == lens + Rep(v, n - 1) && all[|all| - 1] == v;
  }

  lemma OneMoreTime(n: nat, q: nat)
    requires n > 0
    ensures n * q == (n - 1) * q + q
  {
  }

  /** Both fixed codes use up their space exactly. */
  lemma FixedComplete()
    ensures Kraft(FixedLit(), 9) == Pow2(9) && Kraft(FixedDist(), 5) == Pow2(5)
    ensures LengthsUpTo(FixedLit(), 9) && LengthsUpTo(FixedDist(), 5)
    ensures forall a :: 0 <= a < 288 ==> FixedLit()[a] >= 7
  {
    FixedLitComplete();
    FixedDistComplete();
    hide Kraft, Pow2;
  }

  lemma SmallPowers()
    ensures Pow2(0) == 1 && Pow2(1) == 2 && Pow2(2) == 4 && Pow2(5) == 32 && Pow2(9) == 512
  {
    assert Pow2(5) == 32;
  }

  lemma FixedLitComplete()
    ensures Kraft(FixedLit(), 9) == Pow2(9)
  {
    hide Kraft, Pow2, Rep;
    SmallPowers();
    NoKraft(9);
    KraftRep([], 8, 144, 9);
    assert [] + Rep(8, 144) == Rep(8, 144);
    KraftRep(Rep(8, 144), 9, 112, 9);
    KraftRep(Rep(8, 144) + Rep(9, 112), 7, 24, 9);
    KraftRep(Rep(8, 144) + Rep(9, 112) + Rep(7, 24), 8, 8, 9);
  }

  lemma FixedDistComplete()
    ensures Kraft(FixedDist(), 5) == Pow2(5)
  {
    hide Kraft, Pow2, Rep;
    SmallPowers();
    NoKraft(5);
    KraftRep([], 5, 32, 5);
    assert [] + Rep(5, 32) == Rep(5, 32);
  }

  lemma NoKraft(t: nat)
    ensures Kraft([], t) == 0
  {
  }

  // -------- bits -----------------------------------------------------------------------

  function SymBits(lit: seq<nat>, dist: seq<nat>, s: Symbol): seq<bool>
    requires Coded(lit, dist, s)
  {
    match s
    case Lit(b) => CodeBits(lit, b)
    case Copy(n, d) =>
      CodeBits(lit, 257 + LenCode(n)) + ToBits(n - LenBase(LenCode(n)), LenExtra(LenCode(n)))
      + CodeBits(dist, DistCode(d)) + ToBits(d - DistBase(DistCode(d)), DistExtra(DistCode(d)))
  }

  /** The two codes can send the symbol. */
  ghost predicate Coded(lit: seq<nat>, dist: seq<nat>, s: Symbol) {
    match s
    case Lit(b) => b < |lit| && lit[b] > 0
    case Copy(n, d) =>
      && 3 <= n <= 258 && 1 <= d <= 32768
      && LenBase(LenCode(n)) <= n && DistBase(DistCode(d)) <= d
      && 257 + LenCode(n) < |lit| && lit[257 + LenCode(n)] > 0
      && DistCode(d) < |dist| && dist[DistCode(d)] > 0
  }

  ghost predicate AllCoded(lit: seq<nat>, dist: seq<nat>, syms: seq<Symbol>) {
    forall k :: 0 <= k < |syms| ==> Coded(lit, dist, syms[k])
  }

  ghost function SymsBits(lit: seq<nat>, dist: seq<nat>, syms: seq<Symbol>): seq<bool>
    requires AllCoded(lit, dist, syms)
  {
    if |syms| == 0 then [] else
      var n := |syms| - 1;
      SymsBits(lit, dist, syms[..n]) + SymBits(lit, dist, syms[n])
  }

  /** The lengths of the code-length code, three bits each, in ORDER. */
  function OrderBits(cl: seq<nat>, n: nat): seq<bool>
    requires |cl| == 19 && n <= 19
  {
    if n == 0 then [] else OrderBits(cl, n - 1) + ToBits(cl[ORDER[n - 1]], 3)
  }

  function RleBits(cl: seq<nat>, rle: seq<nat>): seq<bool>
    requires |cl| == 19 && forall k :: 0 <= k < |rle| ==> Sym(rle[k]) <= 18
  {
    if |rle| == 0 then [] else
      var n := |rle| - 1;
      RleBits(cl, rle[..n]) + CodeBits(cl, Sym(rle[n])) + ToBits(Field(rle[n]), Width(rle[n]))
  }

  /** Length, complement of the length, data. */
  function StoredBytes(data: seq<byte>): seq<byte>
    requires |data| <= 65535
  {
    [|data| % 256, |data| / 256, 255 - |data| % 256, 255 - |data| / 256] + data
  }

  function Zeros(n: nat): seq<bool> { seq(n, _ => false) }

  /** Bits from position p to the next byte boundary. */
  function Padding(p: nat): nat { 8 * ByteCount(p) - p }

  ghost function BodyBits(lit: seq<nat>, dist: seq<nat>, syms: seq<Symbol>): seq<bool>
    requires AllCoded(lit, dist, syms) && |lit| > END_OF_BLOCK
  {
    SymsBits(lit, dist, syms) + CodeBits(lit, END_OF_BLOCK)
  }

  ghost function HeaderBits(b: Block): seq<bool>
    requires b.Dynamic? && HeaderOk(b)
  {
    ToBits(|b.lit| - 257, 5) + ToBits(|b.dist| - 1, 5) + ToBits(b.sent - 4, 4) + OrderBits(b.cl, b.sent) + RleBits(b.cl, b.rle)
  }

  function BlockType(b: Block): nat {
    if b.Stored? then 0 else if b.Fixed? then 1 else 2
  }

  /** What follows the flag and the type of a block that begins at position p. */
  ghost function Contents(b: Block, p: nat): seq<bool>
    requires BlockOk(b)
  {
    match b
    case Stored(data) => Zeros(Padding(p + 3)) + ByteBits(StoredBytes(data))
    case Fixed(syms) => BodyBits(FixedLit(), FixedDist(), syms)
    case Dynamic(lit, dist, _, _, _, syms) => HeaderBits(b) + BodyBits(lit, dist, syms)
  }

  /** The bits of a block: last-block flag, type, contents. */
  ghost function BlockBits(b: Block, last: bool, p: nat): seq<bool>
    requires BlockOk(b)
  {
    [last] + ToBits(BlockType(b), 2) + Contents(b, p)
  }

  // -------- when a block may be sent ---------------------------------------------------

  /** A complete or incomplete prefix code of at most t bits. */
  ghost predicate PrefixCode(lens: seq<nat>, t: nat) {
    LengthsUpTo(lens, t) && Kraft(lens, t) <= Pow2(t)
  }

  ghost predicate HeaderOk(b: Block)
    requires b.Dynamic?
  {
    && 257 <= |b.lit| <= 288 && 1 <= |b.dist| <= 32 && PrefixCode(b.lit, 15) && PrefixCode(b.dist, 15)
    && |b.cl| == 19 && PrefixCode(b.cl, 7) && 4 <= b.sent <= 19
    && (forall i :: b.sent <= i < 19 ==> b.cl[ORDER[i]] == 0)
    && (forall k :: 0 <= k < |b.rle| ==> RunLength.RunSymbolOk(b.rle[k]) && b.cl[Sym(b.rle[k])] > 0)
    && Expand([], b.rle) == b.lit + b.dist
  }

  ghost predicate BlockOk(b: Block) {
    match b
    case Stored(data) => |data| <= 65535
    case Fixed(syms) => AllCoded(FixedLit(), FixedDist(), syms)
    case Dynamic(lit, dist, _, _, _, syms) =>
      HeaderOk(b) && AllCoded(lit, dist, syms) && lit[END_OF_BLOCK] > 0
  }

  // -------- what a block stands for ----------------------------------------------------

  /** The bytes after the block, given those before it. */
  function BlockOut(before: seq<byte>, b: Block): seq<byte> {
    match b
    case Stored(data) => before + data
    case Fixed(syms) => Replay(before, syms)
    case Dynamic(_, _, _, _, _, syms) => Replay(before, syms)
  }

  /** Its copies reach no farther back than the first byte. */
  ghost predicate BlockReaches(before: seq<byte>, b: Block) {
    b.Stored? || SymbolsOk(before, b.syms)
  }

  function BlocksOut(bs: seq<Block>): seq<byte> {
    if |bs| == 0 then [] else BlockOut(BlocksOut(bs[..|bs| - 1]), bs[|bs| - 1])
  }

  /** The blocks may be sent one after the other from position 0. */
  ghost predicate BlocksOk(bs: seq<Block>) {
    |bs| == 0 ||
    (BlocksOk(bs[..|bs| - 1]) && BlockOk(bs[|bs| - 1]) && BlockReaches(BlocksOut(bs[..|bs| - 1]), bs[|bs| - 1]))
  }

  /** Their bits; only the flag of the last one is as given. */
  ghost function BlocksBits(bs: seq<Block>, last: bool): seq<bool>
    requires BlocksOk(bs)
  {
    if |bs| == 0 then [] else
      var before := BlocksBits(bs[..|bs| - 1], false);
      before + BlockBits(bs[|bs| - 1], last, |before|)
  }

  /** A stream begins with the blocks, the last of them marked. */
  ghost predicate IsStreamOf(stream: seq<byte>, bs: seq<Block>) {
    && |bs| > 0 && BlocksOk(bs)
    && Holds(stream, 0, BlocksBits(bs, true))
    && |BlocksBits(bs, true)| <= 8 * |stream|
  }

  // -------- lemmas ---------------------------------------------------------------------

  /** The four parts of a copy. */
  lemma CopyParts(stream: seq<byte>, p: nat, lit: seq<nat>, dist: seq<nat>, s: Symbol)
    requires s.Copy? && Coded(lit, dist, s) && Holds(stream, p, SymBits(lit, dist, s))
    ensures var lc, dc := LenCode(s.len), DistCode(s.dist);
            var q := p + lit[257 + lc]; var r := q + LenExtra(lc);
            && Holds(stream, p, CodeBits(lit, 257 + lc)) && Holds(stream, q, ToBits(s.len - LenBase(lc), LenExtra(lc)))
            && Holds(stream, r, CodeBits(dist, dc))
            && Holds(stream, r + dist[dc], ToBits(s.dist - DistBase(dc), DistExtra(dc)))
            && r + dist[dc] + DistExtra(dc) == p + |SymBits(lit, dist, s)|
  {
    hide LenCode, DistCode, LenBase, DistBase, CodeBits, LenExtra, DistExtra;
    var lc, dc := LenCode(s.len), DistCode(s.dist);
    FourParts(stream, p, CodeBits(lit, 257 + lc), ToBits(s.len - LenBase(lc), LenExtra(lc)),
              CodeBits(dist, dc), ToBits(s.dist - DistBase(dc), DistExtra(dc)));
  }

  lemma FourParts(stream: seq<byte>, p: nat, a: seq<bool>, b: seq<bool>, c: seq<bool>, d: seq<bool>)
    requires Holds(stream, p, a + b + c + d)
    ensures Holds(stream, p, a) && Holds(stream, p + |a|, b)
    ensures Holds(stream, p + |a| + |b|, c) && Holds(stream, p + |a| + |b| + |c|, d)
  {
    HoldsSplit(stream, p, a + b + c, d);
    HoldsSplit(stream, p, a + b, c);
    HoldsSplit(stream, p, a, b);
  }

  lemma SymsNext(lit: seq<nat>, dist: seq<nat>, syms: seq<Symbol>, s: Symbol)
    requires AllCoded(lit, dist, syms) && Coded(lit, dist, s)
    ensures AllCoded(lit, dist, syms + [s])
    ensures SymsBits(lit, dist, syms + [s]) == SymsBits(lit, dist, syms) + SymBits(lit, dist, s)
  {
    assert (syms + [s])[..|syms|] == syms;
  }

  lemma SymsStep(lit: seq<nat>, dist: seq<nat>, syms: seq<Symbol>, i: nat)
    requires AllCoded(lit, dist, syms) && i < |syms|
    ensures SymsBits(lit, dist, syms[..i + 1]) == SymsBits(lit, dist, syms[..i]) + SymBits(lit, dist, syms[i])
  {
    assert syms[..i + 1] == syms[..i] + [syms[i]];
    SymsNext(lit, dist, syms[..i], syms[i]);
  }

  lemma {:induction false} SymsPrefixBits(lit: seq<nat>, dist: seq<nat>, syms: seq<Symbol>, i: nat)
    requires AllCoded(lit, dist, syms) && i <= |syms|
    ensures SymsBits(lit, dist, syms[..i]) <= SymsBits(lit, dist, syms)
    decreases |syms| - i
  {
    hide SymsBits, SymBits, AllCoded;
    if i < |syms| {
      SymsPrefixBits(lit, dist, syms, i + 1);
      SymsStep(lit, dist, syms, i);
    } else {
      assert syms[..i] == syms;
    }
  }

  /** The bits of the first i symbols, then symbol i, then whatever follows. */
  lemma SymsAt(stream: seq<byte>, p: nat, lit: seq<nat>, dist: seq<nat>, syms: seq<Symbol>, i: nat)
    requires AllCoded(lit, dist, syms) && i < |syms| && Holds(stream, p, SymsBits(lit, dist, syms))
    ensures Holds(stream, p + |SymsBits(lit, dist, syms[..i])|, SymBits(lit, dist, syms[i]))
    ensures |SymsBits(lit, dist, syms[..i])| + |SymBits(lit, dist, syms[i])| == |SymsBits(lit, dist, syms[..i + 1])|
    ensures |SymsBits(lit, dist, syms[..i + 1])| <= |SymsBits(lit, dist, syms)|
  {
    hide SymsBits, SymBits, Coded;
    SymsPrefixBits(lit, dist, syms, i + 1);
    SymsStep(lit, dist, syms, i);
    Placed(stream, p, SymsBits(lit, dist, syms), SymsBits(lit, dist, syms[..i]), SymBits(lit, dist, syms[i]));
  }

  lemma RleStep(cl: seq<nat>, rle: seq<nat>, i: nat)
    requires |cl| == 19 && i < |rle| && (forall k :: 0 <= k < |rle| ==> Sym(rle[k]) <= 18)
    ensures RleBits(cl, rle[..i + 1]) == RleBits(cl, rle[..i]) + CodeBits(cl, Sym(rle[i])) + ToBits(Field(rle[i]), Width(rle[i]))
  {
    assert rle[..i + 1][..i] == rle[..i];
  }

  lemma {:induction false} RlePrefixBits(cl: seq<nat>, rle: seq<nat>, i: nat)
    requires |cl| == 19 && i <= |rle| && (forall k :: 0 <= k < |rle| ==> Sym(rle[k]) <= 18)
    ensures RleBits(cl, rle[..i]) <= RleBits(cl, rle)
    decreases |rle| - i
  {
    if i < |rle| {
      RlePrefixBits(cl, rle, i + 1);
      RleStep(cl, rle, i);
    } else {
      assert rle[..i] == rle;
    }
  }

  lemma RleAt(stream: seq<byte>, p: nat, cl: seq<nat>, rle: seq<nat>, i: nat)
    requires |cl| == 19 && (forall k :: 0 <= k < |rle| ==> Sym(rle[k]) <= 18)
    requires i < |rle| && Holds(stream, p, RleBits(cl, rle))
    ensures Holds(stream, p + |RleBits(cl, rle[..i])|, CodeBits(cl, Sym(rle[i])))
    ensures Holds(stream, p + |RleBits(cl, rle[..i])| + cl[Sym(rle[i])], ToBits(Field(rle[i]), Width(rle[i])))
    ensures |RleBits(cl, rle[..i])| + cl[Sym(rle[i])] + Width(rle[i]) == |RleBits(cl, rle[..i + 1])|
    ensures |RleBits(cl, rle[..i + 1])| <= |RleBits(cl, rle)|
  {
    hide Holds, RleBits, CodeBits, Sym, Field, Width;
    var a, b, c := RleBits(cl, rle[..i]), CodeBits(cl, Sym(rle[i])), ToBits(Field(rle[i]), Width(rle[i]));
    RlePrefixBits(cl, rle, i + 1);
    RleStep(cl, rle, i);
    HoldsPrefix(stream, p, a + b + c, RleBits(cl, rle));
    HoldsSplit(stream, p, a + b, c);
    HoldsSplit(stream, p, a, b);
  }

  lemma {:induction false} OrderAt(stream: seq<byte>, p: nat, cl: seq<nat>, n: nat, i: nat)
    requires |cl| == 19 && i < n <= 19 && Holds(stream, p, OrderBits(cl, n))
    ensures |OrderBits(cl, n)| == 3 * n && Holds(stream, p + 3 * i, ToBits(cl[ORDER[i]], 3))
  {
    OrderLength(cl, n - 1);
    HoldsSplit(stream, p, OrderBits(cl, n - 1), ToBits(cl[ORDER[n - 1]], 3));
    if i < n - 1 { OrderAt(stream, p, cl, n - 1, i); }
  }

  lemma {:induction false} OrderLength(cl: seq<nat>, n: nat)
    requires |cl| == 19 && n <= 19
    ensures |OrderBits(cl, n)| == 3 * n
  {
    if n > 0 { OrderLength(cl, n - 1); }
  }

  lemma {:induction false} BlocksPrefix(bs: seq<Block>, i: nat)
    requires BlocksOk(bs) && i <= |bs|
    ensures BlocksOk(bs[..i])
    decreases |bs|
  {
    var n := |bs| - 1;
    if i <= n && |bs| > 0 {
      BlocksPrefix(bs[..n], i);
      assert bs[..n][..i] == bs[..i];
    } else {
      assert bs[..i] == bs;
    }
  }

  lemma BlocksStep(bs: seq<Block>, i: nat, last: bool)
    requires BlocksOk(bs) && i < |bs|
    ensures BlocksOk(bs[..i]) && BlocksOk(bs[..i + 1]) && BlockOk(bs[i]) && BlockReaches(BlocksOut(bs[..i]), bs[i])
    ensures BlocksBits(bs[..i + 1], last) == BlocksBits(bs[..i], false) + BlockBits(bs[i], last, |BlocksBits(bs[..i], false)|)
    ensures BlocksOut(bs[..i + 1]) == BlockOut(BlocksOut(bs[..i]), bs[i])
  {
    BlocksPrefix(bs, i + 1);
    BlocksPrefix(bs, i);
    assert bs[..i + 1][..i] == bs[..i] && bs[..i + 1][i] == bs[i];
  }

  /** The bits of the first i blocks, but the last of all, are the beginning of the stream. */
  lemma {:induction false} BlocksPrefixBits(bs: seq<Block>, i: nat, last: bool)
    requires BlocksOk(bs) && i <= |bs|
    ensures BlocksOk(bs[..i])
    ensures BlocksBits(bs[..i], last && i == |bs|) <= BlocksBits(bs, last)
    decreases |bs| - i
  {
    BlocksPrefix(bs, i);
    if i < |bs| {
      BlocksPrefixBits(bs, i + 1, last);
      BlocksStep(bs, i, last && i + 1 == |bs|);
    } else {
      assert bs[..i] == bs;
    }
  }

  /** Where the block after bs begins. */
  ghost function BlocksEnd(bs: seq<Block>): nat
    requires BlocksOk(bs)
  {
    |BlocksBits(bs, false)|
  }

  /** A stream of several blocks, seen block by block. */
  lemma BlocksAt(stream: seq<byte>, bs: seq<Block>, i: nat)
    requires BlocksOk(bs) && i < |bs| && Holds(stream, 0, BlocksBits(bs, true))
    ensures BlocksOk(bs[..i]) && BlockOk(bs[i])
    ensures Holds(stream, BlocksEnd(bs[..i]), BlockBits(bs[i], i == |bs| - 1, BlocksEnd(bs[..i])))
    ensures BlocksEnd(bs[..i]) + |BlockBits(bs[i], i == |bs| - 1, BlocksEnd(bs[..i]))| <= |BlocksBits(bs, true)|
  {
    hide BlocksBits, BlockBits, BlockOk, BlocksOk, BlocksOut;
    BlocksStep(bs, i, i == |bs| - 1);
    BlocksPrefixBits(bs, i + 1, true);
    Placed(stream, 0, BlocksBits(bs, true), BlocksBits(bs[..i], false), BlockBits(bs[i], i == |bs| - 1, BlocksEnd(bs[..i])));
  }

  lemma BlocksNext(bs: seq<Block>, b: Block, last: bool)
    requires BlocksOk(bs) && BlockOk(b) && BlockReaches(BlocksOut(bs), b)
    ensures BlocksOk(bs + [b]) && BlocksOut(bs + [b]) == BlockOut(BlocksOut(bs), b)
    ensures BlocksBits(bs + [b], last) == BlocksBits(bs, false) + BlockBits(b, last, |BlocksBits(bs, false)|)
  {
    assert (bs + [b])[..|bs|] == bs;
  }
}
