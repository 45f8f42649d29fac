/**
 Writing one block: its code lengths and their run-length code, the choice between the three
 types by exact cost, and the bits.
 */
module BlockWriter {
  import opened Bits
  import opened BitStream
  import opened Canonical
  import opened Lz77
  import opened Format
  import opened Counts
  import RunLength
  import Huffman

  /** Symbols one block may have: the size of the compressor's buffer. */
  const MAX_SYMBOLS: nat := 25000

  // -------- pieces ---------------------------------------------------------------------

  /** Send the code of symbol a. */
  method WriteCode(out: array<byte>, p: nat, tab: seq<nat>, lens: seq<nat>, a: nat)
    requires Encodes(tab, lens) && a < |lens| && 0 < lens[a] <= 15 && Clean(out[..], p)
    modifies out
    ensures Grew(old(out[..]), out[..], p, CodeBits(lens, a))
  {
    Write3(out, p, tab[a], lens[a]);
  }

  /** Codes that can be sent: tables for two lists of lengths of at most 15 bits. */
  ghost predicate Sendable(lt: seq<nat>, lit: seq<nat>, dt: seq<nat>, dist: seq<nat>) {
    Encodes(lt, lit) && Encodes(dt, dist) && LengthsUpTo(lit, 15) && LengthsUpTo(dist, 15)
  }

  /** Send a packed copy x. */
  method WriteCopy(out: array<byte>, p0: nat, x: nat, lt: seq<nat>, lit: seq<nat>, dt: seq<nat>, dist: seq<nat>, ghost s: Symbol)
    returns (p: nat)
    requires Sendable(lt, lit, dt, dist) && s.Copy? && Sane(s) && x == Pack(s) && Coded(lit, dist, s) && Clean(out[..], p0)
    modifies out
    ensures Grew(old(out[..]), out[..], p0, SymBits(lit, dist, s)) && p == p0 + |SymBits(lit, dist, s)|
  {
    hide LenCode, DistCode, LenBase, DistBase, LenExtra, DistExtra, CodeBits, Encodes, Clean, Pack, Holds;
    PackedFields(s);
    LenCodeOk(s.len);
    DistCodeOk(s.dist);
    ghost var s0 := out[..];
    var te := x / 262144 % 32;
    WriteCode(out, p0, lt, lit, te + 257);
    p := p0 + lit[te + 257];
    ghost var bits := CodeBits(lit, te + 257);
    p, bits := WriteExtra5(out, p0, p, te, x / 8388608 % 32, s0, bits);
    var re := x % 32;
    ghost var s2 := out[..];
    WriteCode(out, p, dt, dist, re);
    GrewTwice(s0, s2, out[..], p0, bits, CodeBits(dist, re));
    p := p + dist[re];
    bits := bits + CodeBits(dist, re);
    p, bits := WriteExtra13(out, p0, p, re, x / 32 % 8192, s0, bits);
  }

  /** Send the extra bits of a length, unless its code has none. */
  method WriteExtra5(out: array<byte>, ghost p0: nat, p: nat, code: nat, v: nat, ghost s0: seq<byte>, ghost bits: seq<bool>)
    returns (q: nat, ghost bits2: seq<bool>)
    requires code < 32 && v < Pow2(LenExtra(code)) && p == p0 + |bits| && Grew(s0, out[..], p0, bits)
    modifies out
    ensures bits2 == bits + ToBits(v, LenExtra(code)) && q == p0 + |bits2| && Grew(s0, out[..], p0, bits2)
  {
    hide Clean, Holds, StreamBit, Pow2;
    q, bits2 := p, bits;
    assert code <= 7 ==> bits + ToBits(v, LenExtra(code)) == bits;
    if code > 7 {
      ExtraTables(code);
      ghost var s1 := out[..];
      Write2(out, p, v, LenExtra(code));
      GrewTwice(s0, s1, out[..], p0, bits, ToBits(v, LenExtra(code)));
      q := p + LENGTH_EXTRA[code];
      bits2 := bits + ToBits(v, LenExtra(code));
    }
  }

  /** Send the extra bits of a distance, unless its code has none. */
  method WriteExtra13(out: array<byte>, ghost p0: nat, p: nat, code: nat, v: nat, ghost s0: seq<byte>, ghost bits: seq<bool>)
    returns (q: nat, ghost bits2: seq<bool>)
    requires code < 32 && v < Pow2(DistExtra(code)) && p == p0 + |bits| && Grew(s0, out[..], p0, bits)
    modifies out
    ensures bits2 == bits + ToBits(v, DistExtra(code)) && q == p0 + |bits2| && Grew(s0, out[..], p0, bits2)
  {
    hide Clean, Holds, StreamBit, Pow2;
    q, bits2 := p, bits;
    assert code <= 3 ==> bits + ToBits(v, DistExtra(code)) == bits;
    if code > 3 {
      ExtraTables(code);
      ghost var s1 := out[..];
      Write3(out, p, v, DistExtra(code));
      GrewTwice(s0, s1, out[..], p0, bits, ToBits(v, DistExtra(code)));
      q := p + DIST_EXTRA[code];
      bits2 := bits + ToBits(v, DistExtra(code));
    }
  }

  /** The symbol buffer holds these symbols, packed. */
  ghost predicate Buffered(j: seq<nat>, syms: seq<Symbol>) {
    && |syms| <= |j| && AllSane(syms)
    && forall k :: 0 <= k < |syms| ==> j[k] == Pack(syms[k])
  }

  /** Send the buffered symbols and the end mark. */
  method WriteBody(out: array<byte>, p0: nat, j: array<nat>, h: nat, lt: seq<nat>, lit: seq<nat>, dt: seq<nat>, dist: seq<nat>,
                   ghost syms: seq<Symbol>)
    returns (p: nat)
    requires Sendable(lt, lit, dt, dist) && AllCoded(lit, dist, syms) && END_OF_BLOCK < |lit| && lit[END_OF_BLOCK] > 0
    requires Buffered(j[..], syms) && h == |syms| && Clean(out[..], p0)
    modifies out
    ensures Grew(old(out[..]), out[..], p0, BodyBits(lit, dist, syms)) && p == p0 + |BodyBits(lit, dist, syms)|
  {
    hide LenCode, DistCode, LenBase, DistBase, CodeBits, Encodes, Clean, Holds, SymBits, Coded;
    ghost var s0 := out[..];
    p := p0;
    GrewNothing(s0, p0);
    assert syms[..0] == [];
    for n := 0 to h
      invariant j[..] == old(j[..])
      invariant Grew(s0, out[..], p0, SymsBits(lit, dist, syms[..n])) && p == p0 + |SymsBits(lit, dist, syms[..n])|
    {
      SymsStep(lit, dist, syms, n);
      ghost var s1, s := out[..], syms[n];
      var x := j[n];
      assert x == Pack(s) && Sane(s) && Coded(lit, dist, s);
      p := WriteSymbol(out, p, x, lt, lit, dt, dist, s);
      GrewTwice(s0, s1, out[..], p0, SymsBits(lit, dist, syms[..n]), SymBits(lit, dist, s));
    }
    assert syms[..h] == syms;
    ghost var s2 := out[..];
    WriteCode(out, p, lt, lit, END_OF_BLOCK);
    GrewTwice(s0, s2, out[..], p0, SymsBits(lit, dist, syms), CodeBits(lit, END_OF_BLOCK));
    p := p + lit[END_OF_BLOCK];
  }

  method WriteSymbol(out: array<byte>, p0: nat, x: nat, lt: seq<nat>, lit: seq<nat>, dt: seq<nat>, dist: seq<nat>, ghost s: Symbol)
    returns (p: nat)
    requires Sendable(lt, lit, dt, dist) && Sane(s) && x == Pack(s) && Coded(lit, dist, s) && Clean(out[..], p0)
    modifies out
    ensures Grew(old(out[..]), out[..], p0, SymBits(lit, dist, s)) && p == p0 + |SymBits(lit, dist, s)|
  {
    hide LenCode, DistCode, LenBase, DistBase, CodeBits, Encodes, Clean, Holds;
    if s.Copy? { PackedFields(s); }
    if x > 255 {
      p := WriteCopy(out, p0, x, lt, lit, dt, dist, s);
    } else {
      WriteCode(out, p0, lt, lit, x);
      p := p0 + lit[x];
    }
  }

  // -------- stored blocks --------------------------------------------------------------

  method PutByte(out: array<byte>, i: nat, v: byte)
    modifies out
    ensures forall k :: 0 <= k < out.Length ==> out[k] == if k == i then v else old(out[k])
  {
    if i < out.Length { out[i] := v; }
  }

  /** Send the rest of a stored block after its flag: type 0, padding, length, complement, data. */
  method WriteStored(out: array<byte>, p: nat, data: seq<byte>) returns (q: nat)
    requires |data| <= 65535 && Clean(out[..], p)
    modifies out
    ensures Grew(old(out[..]), out[..], p, ToBits(0, 2) + Zeros(Padding(p + 2)) + ByteBits(StoredBytes(data)))
    ensures q == p + |ToBits(0, 2) + Zeros(Padding(p + 2)) + ByteBits(StoredBytes(data))|
  {
    ghost var s0 := out[..];
    var r := |data|;
    var i := ByteCount(p + 2);
    PutByte(out, i, r % 256);
    PutByte(out, i + 1, r / 256);
    PutByte(out, i + 2, 255 - r % 256);
    PutByte(out, i + 3, 255 - r / 256);
    for a := 0 to r
      invariant forall k :: 0 <= k < out.Length ==>
        out[k] == if i <= k < i + 4 + a then StoredBytes(data)[k - i] else s0[k]
    {
      PutByte(out, i + a + 4, data[a]);
    }
    q := 8 * (i + 4 + r);
    StoredGrew(s0, out[..], p, data);
  }

  lemma StoredGrew(s0: seq<byte>, s1: seq<byte>, p: nat, data: seq<byte>)
    requires |data| <= 65535 && Clean(s0, p) && |s1| == |s0| && |StoredBytes(data)| == 4 + |data|
    requires forall k :: 0 <= k < |s1| ==>
      s1[k] == if ByteCount(p + 2) <= k < ByteCount(p + 2) + 4 + |data| then StoredBytes(data)[k - ByteCount(p + 2)] else s0[k]
    ensures Grew(s0, s1, p, ToBits(0, 2) + Zeros(Padding(p + 2)) + ByteBits(StoredBytes(data)))
  {
    hide StreamBit, StoredBytes, ByteBits;
    var i, bytes := ByteCount(p + 2), StoredBytes(data);
    var z := ToBits(0, 2) + Zeros(Padding(p + 2));
    assert p + |z| == 8 * i;
    OutsideStays(s0, s1, i, bytes);
    forall n: nat | n < |z| && p + n < 8 * |s1| ensures StreamBit(s1, p + n) == z[n] {
      assert !StreamBit(s0, p + n);
      ZeroBit(n);
    }
    BytesHold(s1, i, bytes);
    HoldsJoin(s1, p, z, ByteBits(bytes));
  }

  lemma OutsideStays(s0: seq<byte>, s1: seq<byte>, i: nat, bytes: seq<byte>)
    requires |s1| == |s0| && forall k :: 0 <= k < |s1| ==> s1[k] == if i <= k < i + |bytes| then bytes[k - i] else s0[k]
    ensures forall n: nat :: n < 8 * |s0| && (n < 8 * i || n >= 8 * (i + |bytes|)) ==> StreamBit(s1, n) == StreamBit(s0, n)
  {
    forall n: nat | n < 8 * |s0| && (n < 8 * i || n >= 8 * (i + |bytes|)) ensures StreamBit(s1, n) == StreamBit(s0, n) {
      assert s1[n / 8] == s0[n / 8];
    }
  }

  // -------- planning a dynamic block ---------------------------------------------------

  /** What the writer works out before it chooses: the lengths of the two codes with their
      greatest, the run-length code of both lists (and how many lengths each stands for), the
      lengths of the code-length code with their greatest, and how many of these are sent. */
  datatype Plan = Plan(lit: seq<nat>, litMax: nat, dist: seq<nat>, distMax: nat,
                       rleLit: seq<nat>, nLit: nat, rleDist: seq<nat>, nDist: nat,
                       cl: seq<nat>, clMax: nat, sent: nat)

  function Padded(cl: seq<nat>): (r: seq<nat>)
    requires |cl| <= 19
    ensures |r| == 19
  {
    cl + seq(19 - |cl|, _ => 0)
  }

  /** The dynamic block that the plan describes. */
  function PlannedBlock(pl: Plan, syms: seq<Symbol>): Block
    requires |pl.cl| <= 19
  {
    Dynamic(pl.lit, RunLength.Trimmed(pl.dist), Padded(pl.cl), pl.sent, pl.rleLit + pl.rleDist, syms)
  }

  ghost predicate PlanOk(pl: Plan, syms: seq<Symbol>) {
    && |pl.cl| <= 19 && BlockOk(PlannedBlock(pl, syms))
    && pl.litMax <= 15 && LengthsUpTo(pl.lit, pl.litMax) && Kraft(pl.lit, pl.litMax) <= Pow2(pl.litMax)
    && pl.distMax <= 15 && LengthsUpTo(pl.dist, pl.distMax) && Kraft(pl.dist, pl.distMax) <= Pow2(pl.distMax)
    && pl.clMax <= 7 && LengthsUpTo(pl.cl, pl.clMax) && Kraft(pl.cl, pl.clMax) <= Pow2(pl.clMax)
    && |pl.lit| <= 288 && (RunLength.Trimmed(pl.dist) == pl.dist || pl.dist == [])
    && pl.nLit == |pl.lit| && pl.nDist == |RunLength.Trimmed(pl.dist)|
    && AllCoded(pl.lit, pl.dist, syms)
  }

  /** Count run-length symbols into an array of counters. */
  method CountRle(f: array<nat>, c: seq<nat>, ghost before: seq<nat>)
    requires f.Length == 19 && f[..] == RleCounts(before) && RleOk(c)
    modifies f
    ensures f[..] == RleCounts(before + c)
  {
    assert before + c[..0] == before;
    for n := 0 to |c|
      invariant f[..] == RleCounts(before + c[..n])
    {
      assert before + c[..n + 1] == (before + c[..n]) + [c[n]];
      RleCountsNext(before + c[..n], c[n]);
      var a := c[n] % 32;
      f[a] := f[a] + 1;
    }
    assert c[..|c|] == c;
  }

  /** How many lengths of the code-length code must be sent. */
  method CountSent(cl: seq<nat>) returns (w: nat)
    requires |cl| <= 19
    ensures 4 <= w <= 19 && forall i :: w <= i < 19 ==> Padded(cl)[ORDER[i]] == 0
    ensures LeastSent(cl, w)
  {
    w := 19;
    while w > 4 && (ORDER[w - 1] >= |cl| || cl[ORDER[w - 1]] == 0)
      invariant 4 <= w <= 19 && forall i :: w <= i < 19 ==> Padded(cl)[ORDER[i]] == 0
    {
      OrderRank(w - 1);
      w := w - 1;
    }
    if w > 4 { OrderRank(w - 1); }
  }

  /** Not one length is sent without need: at least four are, and the last of more is a real one. */
  ghost predicate LeastSent(cl: seq<nat>, w: nat)
    requires |cl| <= 19 && w <= 19
  {
    w <= 4 || (ORDER[w - 1] < |cl| && cl[ORDER[w - 1]] > 0)
  }

  /** Codes built from the counts can send every symbol counted, and the end mark. */
  lemma CodesCover(syms: seq<Symbol>, lf: seq<nat>, lit: seq<nat>, l: nat, dist: seq<nat>, d: nat)
    requires AllSane(syms) && lf == Bump(LitCounts(syms), END_OF_BLOCK)
    requires Huffman.CodesFor(lf, lit, l) && Huffman.CodesFor(DistCounts(syms), dist, d)
    ensures AllCoded(lit, dist, syms) && 257 <= |lit| <= 288 && lit[END_OF_BLOCK] > 0
  {
    hide LitCounts, DistCounts, LenCode, DistCode, LenBase, DistBase, Kraft, LengthsUpTo;
    assert lf[END_OF_BLOCK] > 0;
    forall k | 0 <= k < |syms| ensures Coded(lit, dist, syms[k]) {
      Counted(syms, k);
      assert lf[LitCode(syms[k])] > 0;
      if syms[k].Copy? {
        LenCodeOk(syms[k].len);
        DistCodeOk(syms[k].dist);
      }
    }
  }

  lemma TrimmedSelf(lens: seq<nat>)
    requires |lens| > 0 && lens[|lens| - 1] > 0
    ensures RunLength.Trimmed(lens) == lens
  {
  }

  /** What is sent for the distances is a prefix code even when there are none. */
  lemma TrimmedCode(dist: seq<nat>, d: nat)
    requires LengthsUpTo(dist, d) && Kraft(dist, d) <= Pow2(d) && d <= 15 && |dist| <= 32
    requires |dist| > 0 ==> dist[|dist| - 1] > 0
    ensures var t := RunLength.Trimmed(dist); 1 <= |t| <= 32 && PrefixCode(t, 15) && (t == dist || (dist == [] && t == [0]))
  {
    if |dist| > 0 {
      TrimmedSelf(dist);
      KraftWider(dist, d, 15);
    } else {
      KraftUnused([0], 15);
    }
  }

  lemma RleCovered(rle: seq<nat>, cl: seq<nat>, v: nat)
    requires RleOk(rle) && Huffman.CodesFor(RleCounts(rle), cl, v)
    ensures |cl| <= 19 && forall k :: 0 <= k < |rle| ==> Padded(cl)[RunLength.Sym(rle[k])] > 0
  {
    forall k | 0 <= k < |rle| ensures Padded(cl)[RunLength.Sym(rle[k])] > 0 { RleCounted(rle, k); }
  }

  lemma PaddedCode(cl: seq<nat>, v: nat)
    requires |cl| <= 19 && v <= 7 && LengthsUpTo(cl, v) && Kraft(cl, v) <= Pow2(v)
    ensures PrefixCode(Padded(cl), 7)
  {
    hide Kraft, Pow2;
    KraftWider(cl, v, 7);
    KraftPad(cl, 19 - |cl|, 7);
  }

  /** How often each run-length symbol occurs in two codings. */
  method CountBoth(rleLit: seq<nat>, rleDist: seq<nat>) returns (clf: array<nat>)
    requires RleOk(rleLit) && RleOk(rleDist)
    ensures fresh(clf) && clf[..] == RleCounts(rleLit + rleDist)
  {
    hide RleCounts, RleOk;
    clf := new nat[19](_ => 0);
    RleStart(clf[..]);
    CountRle(clf, rleLit, []);
    assert [] + rleLit == rleLit;
    CountRle(clf, rleDist, rleLit);
  }

  /** Code lengths for the counts, cut to 15 bits. */
  method PlanCodes(lf: array<nat>, df: array<nat>, ghost syms: seq<Symbol>) returns (lit: seq<nat>, litMax: nat, dist: seq<nat>, distMax: nat)
    requires AllSane(syms) && |syms| <= MAX_SYMBOLS
    requires lf[..] == Bump(LitCounts(syms), END_OF_BLOCK) && df[..] == DistCounts(syms)
    ensures Huffman.CodesFor(lf[..], lit, litMax) && Huffman.CodesFor(df[..], dist, distMax) && litMax <= 15 && distMax <= 15
    ensures AllCoded(lit, dist, syms) && 257 <= |lit| <= 288 && lit[END_OF_BLOCK] > 0 && |dist| <= 32
    ensures Huffman.Built(lf[..], lit, litMax, 15) && Huffman.Built(df[..], dist, distMax, 15)
  {
    hide LitCounts, DistCounts, Kraft, AllCoded, Huffman.Sum, Huffman.BestOrCut, Huffman.Fair, Huffman.TwoUsed;
    CountsSum(syms);
    SumBump(LitCounts(syms), END_OF_BLOCK);
    Pow2Fifteen();
    lit, litMax := Huffman.BuildLengths(lf[..], 15);
    dist, distMax := Huffman.BuildLengths(df[..], 15);
    CodesCover(syms, lf[..], lit, litMax, dist, distMax);
  }

  /** The lengths, their run-length codes, and the code for those. */
  method MakePlan(lf: array<nat>, df: array<nat>, ghost syms: seq<Symbol>) returns (pl: Plan, clf: array<nat>)
    requires AllSane(syms) && |syms| <= MAX_SYMBOLS
    requires lf[..] == Bump(LitCounts(syms), END_OF_BLOCK) && df[..] == DistCounts(syms)
    ensures PlanOk(pl, syms) && Frugal(pl, syms) && fresh(clf) && clf[..] == RleCounts(pl.rleLit + pl.rleDist)
  {
    hide *;
    var lit, litMax, dist, distMax := PlanCodes(lf, df, syms);
    CodesReady(lf[..], df[..], lit, litMax, dist, distMax);
    var rleLit, nLit := RunLength.RunLengths(lit, []);
    var rleDist, nDist := RunLength.RunLengths(dist, lit);
    RunsReady(lit, dist, rleLit, rleDist);
    clf := CountBoth(rleLit, rleDist);
    SumsReady(rleLit + rleDist);
    var cl, clMax := Huffman.BuildLengths(clf[..], 7);
    RleCovered(rleLit + rleDist, cl, clMax);
    var sent := CountSent(cl);
    pl := Plan(lit, litMax, dist, distMax, rleLit, nLit, rleDist, nDist, cl, clMax, sent);
    PlanMade(lf[..], df[..], pl, syms);
    PlanFrugal(lf[..], df[..], pl, syms);
  }

  /** The plan takes no more than it must: the codes are built for the counts of the symbols, that
      of the header for the counts of its run-length symbols, runs are sent by repeats, and no
      length of the code-length code is sent in vain. */
  ghost predicate Frugal(pl: Plan, syms: seq<Symbol>) {
    && AllSane(syms) && |pl.cl| <= 19 && pl.sent <= 19
    && Huffman.Built(Bump(LitCounts(syms), END_OF_BLOCK), pl.lit, pl.litMax, 15)
    && Huffman.Built(DistCounts(syms), pl.dist, pl.distMax, 15)
    && Huffman.Built(RleCounts(pl.rleLit + pl.rleDist), pl.cl, pl.clMax, 7)
    && |pl.rleLit| == RunLength.AllSymbols(pl.lit) && |pl.rleDist| == RunLength.AllSymbols(RunLength.Trimmed(pl.dist))
    && LeastSent(pl.cl, pl.sent)
  }

  lemma PlanFrugal(f: seq<nat>, g: seq<nat>, pl: Plan, syms: seq<Symbol>)
    requires AllSane(syms) && f == Bump(LitCounts(syms), END_OF_BLOCK) && g == DistCounts(syms) && |pl.cl| <= 19 && pl.sent <= 19
    requires Huffman.Built(f, pl.lit, pl.litMax, 15) && Huffman.Built(g, pl.dist, pl.distMax, 15)
    requires Huffman.CodesFor(RleCounts(pl.rleLit + pl.rleDist), pl.cl, pl.clMax) && pl.clMax <= 7
    requires Huffman.BestOrCut(RleCounts(pl.rleLit + pl.rleDist), pl.cl, 7) && Huffman.Fair(RleCounts(pl.rleLit + pl.rleDist), pl.cl)
    requires Huffman.TwoUsed(RleCounts(pl.rleLit + pl.rleDist)) ==> Kraft(pl.cl, pl.clMax) == Pow2(pl.clMax)
    requires |pl.rleLit| == RunLength.AllSymbols(pl.lit) && |pl.rleDist| == RunLength.AllSymbols(RunLength.Trimmed(pl.dist))
    requires LeastSent(pl.cl, pl.sent)
    ensures Frugal(pl, syms)
  {
    hide LitCounts, DistCounts, RleCounts, Kraft, Pow2, Huffman.BestOrCut, Huffman.Fair, Huffman.TwoUsed, Huffman.CodesFor, RunLength.AllSymbols, RunLength.Trimmed, LeastSent;
  }

  lemma CodesReady(f: seq<nat>, g: seq<nat>, lit: seq<nat>, litMax: nat, dist: seq<nat>, distMax: nat)
    requires Huffman.CodesFor(f, lit, litMax) && Huffman.CodesFor(g, dist, distMax) && litMax <= 15 && distMax <= 15 && lit != []
    ensures (forall k :: 0 <= k < |lit| ==> lit[k] <= 15) && (forall k :: 0 <= k < |dist| ==> dist[k] <= 15)
    ensures RunLength.Trimmed(lit) == lit && [] + lit == lit
  {
    hide Kraft;
    TrimmedSelf(lit);
  }

  /** The two codings of runs, read as one. */
  lemma RunsReady(lit: seq<nat>, dist: seq<nat>, rleLit: seq<nat>, rleDist: seq<nat>)
    requires RunLength.Sofar(rleLit, [], RunLength.Trimmed(lit)) && RunLength.Trimmed(lit) == lit
    requires RunLength.Sofar(rleDist, lit, RunLength.Trimmed(dist)) && |lit| <= 288 && |dist| <= 32
    ensures RleOk(rleLit) && RleOk(rleDist) && RleOk(rleLit + rleDist) && |rleLit + rleDist| <= 321
    ensures RunLength.Expand([], rleLit + rleDist) == lit + RunLength.Trimmed(dist)
  {
    hide RunLength.Expand, RunLength.RunSymbolOk;
    RunLength.ExpandJoin([], rleLit, rleDist);
    assert [] + lit == lit;
    TrimmedShort(dist);
  }

  lemma TrimmedShort(dist: seq<nat>)
    ensures |RunLength.Trimmed(dist)| <= |dist| + 1
  {
  }

  lemma SumsReady(rle: seq<nat>)
    requires RleOk(rle) && |rle| <= 321
    ensures |RleCounts(rle)| == 19 <= Pow2(7) && Huffman.Sum(RleCounts(rle)) <= Huffman.TOO_HEAVY
  {
    hide RleCounts, RleOk, Huffman.Sum;
    RleCountsSum(rle);
    assert Pow2(7) == 128;
  }

  lemma PlanMade(f: seq<nat>, g: seq<nat>, pl: Plan, syms: seq<Symbol>)
    requires Huffman.CodesFor(f, pl.lit, pl.litMax) && Huffman.CodesFor(g, pl.dist, pl.distMax) && pl.litMax <= 15 && pl.distMax <= 15
    requires AllCoded(pl.lit, pl.dist, syms) && 257 <= |pl.lit| <= 288 && pl.lit[END_OF_BLOCK] > 0 && |pl.dist| <= 32 && |syms| <= MAX_SYMBOLS
    requires RunLength.Trimmed(pl.lit) == pl.lit && pl.nLit == |pl.lit| && pl.nDist == |RunLength.Trimmed(pl.dist)|
    requires RleOk(pl.rleLit + pl.rleDist) && RunLength.Expand([], pl.rleLit + pl.rleDist) == pl.lit + RunLength.Trimmed(pl.dist)
    requires Huffman.CodesFor(RleCounts(pl.rleLit + pl.rleDist), pl.cl, pl.clMax) && pl.clMax <= 7 && |pl.cl| <= 19
    requires forall k :: 0 <= k < |pl.rleLit + pl.rleDist| ==> Padded(pl.cl)[RunLength.Sym((pl.rleLit + pl.rleDist)[k])] > 0
    requires 4 <= pl.sent <= 19 && forall i :: pl.sent <= i < 19 ==> Padded(pl.cl)[ORDER[i]] == 0
    ensures PlanOk(pl, syms)
  {
    hide Kraft, RleCounts, RunLength.Expand, RunLength.Run, RunLength.Trimmed, AllCoded, Padded, RunLength.RunSymbolOk, Pow2;
    TrimmedCode(pl.dist, pl.distMax);
    KraftWider(pl.lit, pl.litMax, 15);
    PaddedCode(pl.cl, pl.clMax);
    AllCodedTrimmed(pl.lit, pl.dist, syms);
  }

  lemma RleStart(f: seq<nat>)
    requires |f| == 19 && forall k :: 0 <= k < 19 ==> f[k] == 0
    ensures f == RleCounts([])
  {
  }

  lemma AllCodedTrimmed(lit: seq<nat>, dist: seq<nat>, syms: seq<Symbol>)
    requires AllCoded(lit, dist, syms)
    ensures dist == [] ==> AllCoded(lit, [0], syms)
  {
    if dist == [] {
      forall k | 0 <= k < |syms| ensures Coded(lit, [0], syms[k]) { assert Coded(lit, dist, syms[k]); }
    }
  }

  // -------- exact costs ----------------------------------------------------------------

  lemma {:induction false} DotPad(f: seq<nat>, t: seq<nat>, n: nat)
    ensures Dot(f, t + seq(n, _ => 0)) == Dot(f, t)
  {
    if n == 0 {
      assert t + seq(n, _ => 0) == t;
    } else {
      assert (t + seq(n, _ => 0))[..|t| + n - 1] == t + seq(n - 1, _ => 0);
      DotPad(f, t, n - 1);
    }
  }

  /** Counts with the end mark, lengths and extra bits give the size of the body. */
  lemma BodyCost(lit: seq<nat>, dist: seq<nat>, syms: seq<Symbol>)
    requires AllSane(syms) && AllCoded(lit, dist, syms) && END_OF_BLOCK < |lit|
    ensures |BodyBits(lit, dist, syms)| == Dot(Bump(LitCounts(syms), END_OF_BLOCK), lit) + Dot(DistCounts(syms), dist) + ExtraBits(syms)
  {
    hide LitCounts, DistCounts, Coded, SymsBits, CodeBits;
    BitsCounted(lit, dist, syms);
    DotBump(LitCounts(syms), lit, END_OF_BLOCK);
  }

  lemma HeaderCost(b: Block)
    requires b.Dynamic? && HeaderOk(b)
    ensures |HeaderBits(b)| == 14 + 3 * b.sent + |RleBits(b.cl, b.rle)|
  {
    hide RleBits, OrderBits;
    OrderLength(b.cl, b.sent);
  }

  /** The size of a dynamic block's contents, as the writer computes it. */
  ghost function PlanCost(pl: Plan, syms: seq<Symbol>): nat
    requires AllSane(syms)
  {
    var f := RleCounts(pl.rleLit + pl.rleDist);
    Dot(Bump(LitCounts(syms), END_OF_BLOCK), pl.lit) + Dot(DistCounts(syms), pl.dist) + ExtraBits(syms)
    + 14 + 3 * pl.sent + Dot(f, pl.cl) + 2 * f[16] + 3 * f[17] + 7 * f[18]
  }

  ghost function FixedCost(syms: seq<Symbol>): nat
    requires AllSane(syms)
  {
    Dot(Bump(LitCounts(syms), END_OF_BLOCK), FixedLit()) + Dot(DistCounts(syms), FixedDist()) + ExtraBits(syms)
  }

  lemma PlanCostExact(pl: Plan, syms: seq<Symbol>)
    requires AllSane(syms) && PlanOk(pl, syms)
    ensures |Contents(PlannedBlock(pl, syms), 0)| == PlanCost(pl, syms)
  {
    hide LitCounts, DistCounts, Coded, SymsBits, CodeBits, RleBits, Kraft, RunLength.Expand, RunLength.Run, LengthsUpTo, OrderBits, Dot, RleCounts, RunLength.Trimmed;
    var b, t := PlannedBlock(pl, syms), RunLength.Trimmed(pl.dist);
    BodyCost(pl.lit, t, syms);
    assert Dot(DistCounts(syms), t) == Dot(DistCounts(syms), pl.dist) by { DotTrimmed(DistCounts(syms), pl.dist); }
    HeaderCost(b);
    RleBitsCounted(b.cl, b.rle);
    DotPad(RleCounts(b.rle), pl.cl, 19 - |pl.cl|);
  }

  lemma {:induction false} DotTrimmed(f: seq<nat>, e: seq<nat>)
    ensures Dot(f, RunLength.Trimmed(e)) == Dot(f, e)
  {
    if |e| == 0 {
      assert Dot(f, []) == 0 && Dot(f, [0]) == 0;
    } else if |e| > 1 && e[|e| - 1] == 0 {
      DotTrimmed(f, e[..|e| - 1]);
    }
  }

  lemma FixedCostExact(syms: seq<Symbol>)
    requires AllSane(syms)
    ensures AllCoded(FixedLit(), FixedDist(), syms)
    ensures |BodyBits(FixedLit(), FixedDist(), syms)| == FixedCost(syms) <= 9 * |syms| + 22 * Copies(syms) + 7
  {
    hide LitCounts, DistCounts, Coded, SymsBits, FixedLit, FixedDist;
    FixedAllCoded(syms);
    BodyCost(FixedLit(), FixedDist(), syms);
    FixedBound(syms);
    EndMarkFixed();
  }

  lemma EndMarkFixed()
    ensures |FixedLit()| == 288 && FixedLit()[END_OF_BLOCK] == 7 && |CodeBits(FixedLit(), END_OF_BLOCK)| == 7
  {
  }

  // -------- the header -----------------------------------------------------------------

  /** Send run-length symbols after others; K is the encoding table of the code cl. */
  method WriteRle(out: array<byte>, p: nat, K: seq<nat>, cl: seq<nat>, c: seq<nat>,
                  ghost s0: seq<byte>, ghost p0: nat, ghost head: seq<bool>, ghost before: seq<nat>)
    returns (q: nat)
    requires |cl| <= 19 && LengthsUpTo(cl, 7) && Encodes(K, cl) && RleOk(c) && RleOk(before)
    requires forall k :: 0 <= k < |c| ==> Padded(cl)[RunLength.Sym(c[k])] > 0
    requires p == p0 + |head + RleBits(Padded(cl), before)| && Grew(s0, out[..], p0, head + RleBits(Padded(cl), before))
    modifies out
    ensures q == p0 + |head + RleBits(Padded(cl), before + c)| && Grew(s0, out[..], p0, head + RleBits(Padded(cl), before + c))
  {
    hide RleBits, Encodes, Grew, Padded;
    q := p;
    assert before + c[..0] == before;
    for n := 0 to |c|
      invariant q == p0 + |head + RleBits(Padded(cl), before + c[..n])|
      invariant Grew(s0, out[..], p0, head + RleBits(Padded(cl), before + c[..n]))
    {
      assert before + c[..n + 1] == (before + c[..n]) + [c[n]];
      q := WriteRleSymbol(out, q, K, cl, c[n], s0, p0, head, before + c[..n]);
    }
    assert c[..|c|] == c;
  }

  lemma RleBitsNext(cl: seq<nat>, rle: seq<nat>, x: nat)
    requires |cl| == 19 && RleOk(rle) && RunLength.RunSymbolOk(x)
    ensures RleBits(cl, rle + [x]) == RleBits(cl, rle) + CodeBits(cl, RunLength.Sym(x)) + ToBits(RunLength.Field(x), RunLength.Width(x))
  {
    assert (rle + [x])[..|rle|] == rle;
  }

  lemma Assoc(a: seq<bool>, b: seq<bool>, c: seq<bool>, d: seq<bool>)
    ensures a + b + c + d == a + (b + c + d)
  {
  }

  method WriteRleSymbol(out: array<byte>, p: nat, K: seq<nat>, cl: seq<nat>, x: nat,
                        ghost s0: seq<byte>, ghost p0: nat, ghost head: seq<bool>, ghost before: seq<nat>)
    returns (q: nat)
    requires |cl| <= 19 && LengthsUpTo(cl, 7) && Encodes(K, cl) && RleOk(before) && RunLength.RunSymbolOk(x)
    requires Padded(cl)[RunLength.Sym(x)] > 0
    requires p == p0 + |head + RleBits(Padded(cl), before)| && Grew(s0, out[..], p0, head + RleBits(Padded(cl), before))
    modifies out
    ensures q == p0 + |head + RleBits(Padded(cl), before + [x])| && Grew(s0, out[..], p0, head + RleBits(Padded(cl), before + [x]))
  {
    hide *;
    RleSyms(before);
    RleSymbol(cl, x);
    var te := x % 32;
    ghost var b0, b1, b2 := RleBits(Padded(cl), before), CodeBits(cl, te), ToBits(RunLength.Field(x), RunLength.Width(x));
    RleBitsNext(Padded(cl), before, x);
    CodePad(cl, 19 - |cl|, te);
    Assoc(head, b0, b1, b2);
    GrewClean(s0, out[..], p0, head + b0);
    ghost var s1 := out[..];
    WriteCodeShort(out, p, K, cl, te);
    GrewTwice(s0, s1, out[..], p0, head + b0, b1);
    q := p + cl[te];
    if te > 15 {
      ghost var s2 := out[..];
      GrewClean(s0, s2, p0, head + b0 + b1);
      Write2(out, q, x / 32 % 128, RunLength.Width(x));
      GrewTwice(s0, s2, out[..], p0, head + b0 + b1, b2);
      q := q + x / 4096;
    } else {
      assert head + b0 + b1 + b2 == head + b0 + b1;
    }
  }

  lemma RleSyms(rle: seq<nat>)
    requires RleOk(rle)
    ensures forall k :: 0 <= k < |rle| ==> RunLength.Sym(rle[k]) <= 18
  {
  }

  /** The parts of a run-length symbol, and its code. */
  lemma RleSymbol(cl: seq<nat>, x: nat)
    requires |cl| <= 19 && LengthsUpTo(cl, 7) && RunLength.RunSymbolOk(x) && Padded(cl)[RunLength.Sym(x)] > 0
    ensures var te := x % 32;
            && te == RunLength.Sym(x) < |cl| && 0 < cl[te] <= 7 && Padded(cl) == cl + seq(19 - |cl|, _ => 0)
            && RunLength.Field(x) == x / 32 % 128 < Pow2(RunLength.Width(x)) && RunLength.Width(x) == x / 4096 <= 9
            && (te <= 15 ==> |ToBits(RunLength.Field(x), RunLength.Width(x))| == 0)
            && |ToBits(RunLength.Field(x), RunLength.Width(x))| == RunLength.Width(x) && |CodeBits(cl, te)| == cl[te]
  {
    hide Pow2;
  }

  lemma GrewClean(s0: seq<byte>, s1: seq<byte>, p: nat, bits: seq<bool>)
    requires Grew(s0, s1, p, bits)
    ensures Clean(s1, p + |bits|)
  {
    hide Clean, Holds;
  }

  /** Send the code of symbol a with the two-byte writer. */
  method WriteCodeShort(out: array<byte>, p: nat, tab: seq<nat>, lens: seq<nat>, a: nat)
    requires Encodes(tab, lens) && a < |lens| && 0 < lens[a] <= 7 && Clean(out[..], p)
    modifies out
    ensures Grew(old(out[..]), out[..], p, CodeBits(lens, a))
  {
    Write2(out, p, tab[a], lens[a]);
  }

  /** Send the numbers of lengths and the lengths of the code-length code. */
  method WriteHeaderStart(out: array<byte>, p0: nat, pl: Plan, ghost b: Block) returns (p: nat)
    requires |pl.cl| <= 19 && LengthsUpTo(pl.cl, 7) && b.Dynamic? && HeaderOk(b) && b.cl == Padded(pl.cl) && b.sent == pl.sent
    requires pl.nLit == |b.lit| && pl.nDist == |b.dist| && Clean(out[..], p0)
    modifies out
    ensures p == p0 + 14 + 3 * b.sent
    ensures Grew(old(out[..]), out[..], p0, ToBits(|b.lit| - 257, 5) + ToBits(|b.dist| - 1, 5) + ToBits(b.sent - 4, 4) + OrderBits(b.cl, b.sent))
  {
    hide OrderBits, Kraft, RunLength.Expand, Clean, Holds, Pow2, RunLength.RunSymbolOk, Padded;
    PowersSmall();
    ghost var s0, h1, h2, h3 := out[..], ToBits(|b.lit| - 257, 5), ToBits(|b.dist| - 1, 5), ToBits(b.sent - 4, 4);
    GrewNothing(s0, p0);
    assert [] + h1 == h1;
    Append2(out, p0, pl.nLit - 257, 5, s0, p0, []);
    Append2(out, p0 + 5, pl.nDist - 1, 5, s0, p0, h1);
    Append2(out, p0 + 10, pl.sent - 4, 4, s0, p0, h1 + h2);
    p := p0 + 14;
    WriteOrder(out, p, pl.cl, pl.sent, s0, p0, h1 + h2 + h3);
    p := p + 3 * pl.sent;
  }

  /** Send a number behind what has been sent since p0. */
  method Append2(out: array<byte>, p: nat, v: nat, ghost n: nat, ghost s0: seq<byte>, ghost p0: nat, ghost head: seq<bool>)
    requires v < Pow2(n) && n <= 9 && p == p0 + |head| && Grew(s0, out[..], p0, head)
    modifies out
    ensures Grew(s0, out[..], p0, head + ToBits(v, n))
  {
    hide Clean, Holds, Pow2;
    ghost var s1 := out[..];
    Write2(out, p, v, n);
    GrewTwice(s0, s1, out[..], p0, head, ToBits(v, n));
  }

  lemma PowersSmall()
    ensures Pow2(1) == 2 && Pow2(2) == 4 && Pow2(3) == 8 && Pow2(4) == 16 && Pow2(5) == 32
  {
  }

  method WriteOrder(out: array<byte>, p: nat, cl: seq<nat>, w: nat, ghost s0: seq<byte>, ghost p0: nat, ghost head: seq<bool>)
    requires |cl| <= 19 && w <= 19 && LengthsUpTo(cl, 7) && p == p0 + |head| && Grew(s0, out[..], p0, head)
    modifies out
    ensures Grew(s0, out[..], p0, head + OrderBits(Padded(cl), w))
  {
    hide Grew, Pow2, Padded;
    PowersSmall();
    assert head + OrderBits(Padded(cl), 0) == head;
    for n := 0 to w
      invariant Grew(s0, out[..], p0, head + OrderBits(Padded(cl), n))
    {
      OrderRank(n);
      OrderLength(Padded(cl), n);
      var a := ORDER[n];
      PaddedAt(cl, a);
      var v := if a < |cl| then cl[a] else 0;
      Append2(out, p + 3 * n, v, 3, s0, p0, head + OrderBits(Padded(cl), n));
      assert head + OrderBits(Padded(cl), n) + ToBits(v, 3) == head + OrderBits(Padded(cl), n + 1);
    }
  }

  lemma PaddedAt(cl: seq<nat>, a: nat)
    requires |cl| <= 19 && a < 19
    ensures Padded(cl)[a] == if a < |cl| then cl[a] else 0
  {
  }

  /** Send the header of the planned block. */
  method WriteHeader(out: array<byte>, p0: nat, pl: Plan, ghost syms: seq<Symbol>) returns (p: nat)
    requires PlanOk(pl, syms) && Clean(out[..], p0)
    modifies out
    ensures Grew(old(out[..]), out[..], p0, HeaderBits(PlannedBlock(pl, syms))) && p == p0 + |HeaderBits(PlannedBlock(pl, syms))|
  {
    hide OrderBits, RleBits, Kraft, RunLength.Expand, Clean, Holds, Padded, RunLength.RunSymbolOk, AllCoded, RunLength.Trimmed, Encodes, Grew;
    ghost var b, s0 := PlannedBlock(pl, syms), out[..];
    ghost var head := ToBits(|b.lit| - 257, 5) + ToBits(|b.dist| - 1, 5) + ToBits(b.sent - 4, 4) + OrderBits(b.cl, b.sent);
    OrderLength(b.cl, b.sent);
    RleParts(pl, syms);
    p := WriteHeaderStart(out, p0, pl, b);
    var K := EncodeTable(pl.cl, pl.clMax);
    NoRle(b.cl, head);
    p := WriteRle(out, p, K[..], pl.cl, pl.rleLit, s0, p0, head, []);
    assert [] + pl.rleLit == pl.rleLit;
    p := WriteRle(out, p, K[..], pl.cl, pl.rleDist, s0, p0, head, pl.rleLit);
  }

  lemma NoRle(cl: seq<nat>, head: seq<bool>)
    requires |cl| == 19
    ensures head + RleBits(cl, []) == head
  {
  }

  lemma RleParts(pl: Plan, syms: seq<Symbol>)
    requires PlanOk(pl, syms)
    ensures RleOk(pl.rleLit) && RleOk(pl.rleDist) && LengthsUpTo(pl.cl, 7)
    ensures forall k :: 0 <= k < |pl.rleLit| ==> Padded(pl.cl)[RunLength.Sym(pl.rleLit[k])] > 0
    ensures forall k :: 0 <= k < |pl.rleDist| ==> Padded(pl.cl)[RunLength.Sym(pl.rleDist[k])] > 0
  {
    hide Kraft, RunLength.Expand, RunLength.Trimmed, AllCoded, Padded;
    var b := PlannedBlock(pl, syms);
    forall k | 0 <= k < |pl.rleLit| ensures RunLength.RunSymbolOk(pl.rleLit[k]) && b.cl[RunLength.Sym(pl.rleLit[k])] > 0 {
      assert b.rle[k] == pl.rleLit[k];
    }
    forall k | 0 <= k < |pl.rleDist| ensures RunLength.RunSymbolOk(pl.rleDist[k]) && b.cl[RunLength.Sym(pl.rleDist[k])] > 0 {
      assert b.rle[|pl.rleLit| + k] == pl.rleDist[k];
    }
  }

  // -------- the block ------------------------------------------------------------------

  const MAX_COPIES: nat := 7424

  /** What is handed to the block writer: `syms` buffered in j stand for the bl bytes from bs on,
      and the counters are theirs. */
  ghost predicate BlockInput(e: seq<byte>, j: seq<nat>, lf: seq<nat>, df: seq<nat>, u: nat, bs: nat, bl: nat, syms: seq<Symbol>) {
    && bs + bl <= |e| && Buffered(j, syms) && |syms| <= MAX_SYMBOLS && Copies(syms) <= MAX_COPIES
    && SymbolsOk(e[..bs], syms) && Replay(e[..bs], syms) == e[..bs + bl]
    && lf == LitCounts(syms) && df == DistCounts(syms) && u == ExtraBits(syms)
  }

  /** The symbols of the block fit the compressor's buffer, and it has the codes planned for them
      when those take fewer bits than the fixed ones. */
  ghost predicate Chosen(b: Block) {
    b.Stored? || (|b.syms| <= MAX_SYMBOLS && exists pl :: ChosenBy(b, pl))
  }

  ghost predicate ChosenBy(b: Block, pl: Plan)
    requires !b.Stored?
  {
    && PlanOk(pl, b.syms) && Frugal(pl, b.syms) && BlockOk(Fixed(b.syms))
    && b == if |Contents(PlannedBlock(pl, b.syms), 0)| < |Contents(Fixed(b.syms), 0)| then PlannedBlock(pl, b.syms) else Fixed(b.syms)
  }

  ghost predicate AllChosen(bs: seq<Block>) {
    forall k :: 0 <= k < |bs| ==> Chosen(bs[k])
  }

  /** The block stands for the bl bytes from bs on. */
  ghost predicate Covers(b: Block, e: seq<byte>, bs: nat, bl: nat)
    requires bs + bl <= |e|
  {
    BlockOk(b) && Chosen(b) && BlockReaches(e[..bs], b) && BlockOut(e[..bs], b) == e[..bs + bl]
  }

  /** Send a coded block behind its flag: its type and contents. */
  method WriteFixed(out: array<byte>, p: nat, j: array<nat>, h: nat, ghost syms: seq<Symbol>) returns (q: nat)
    requires AllCoded(FixedLit(), FixedDist(), syms) && Buffered(j[..], syms) && h == |syms| <= MAX_SYMBOLS && Clean(out[..], p)
    modifies out
    ensures Grew(old(out[..]), out[..], p, ToBits(1, 2) + Contents(Fixed(syms), 0))
    ensures q == p + 2 + |Contents(Fixed(syms), 0)|
  {
    hide Clean, Holds, SymsBits, CodeBits, Kraft, Encodes, LitCounts, DistCounts, AllCoded;
    ghost var s0 := out[..];
    PowersSmall();
    GrewNothing(s0, p);
    assert [] + ToBits(1, 2) == ToBits(1, 2);
    Append2(out, p, 1, 2, s0, p, []);
    FixedComplete();
    var lt := EncodeTable(FixedLit(), 9);
    var dt := EncodeTable(FixedDist(), 5);
    EndMarkFixed();
    ghost var s1 := out[..];
    q := WriteBody(out, p + 2, j, h, lt[..], FixedLit(), dt[..], FixedDist(), syms);
    GrewTwice(s0, s1, out[..], p, ToBits(1, 2), BodyBits(FixedLit(), FixedDist(), syms));
  }

  method WriteDynamic(out: array<byte>, p: nat, pl: Plan, j: array<nat>, h: nat, ghost syms: seq<Symbol>) returns (q: nat)
    requires PlanOk(pl, syms) && Buffered(j[..], syms) && h == |syms| && Clean(out[..], p)
    modifies out
    ensures Grew(old(out[..]), out[..], p, ToBits(2, 2) + Contents(PlannedBlock(pl, syms), 0))
    ensures q == p + 2 + |Contents(PlannedBlock(pl, syms), 0)|
  {
    hide Clean, Holds, SymsBits, CodeBits, Kraft, Encodes, LitCounts, DistCounts, HeaderBits, Padded, RunLength.Expand, RunLength.Trimmed;
    ghost var s0, b := out[..], PlannedBlock(pl, syms);
    PowersSmall();
    GrewNothing(s0, p);
    assert [] + ToBits(2, 2) == ToBits(2, 2);
    Append2(out, p, 2, 2, s0, p, []);
    var lt := EncodeTable(pl.lit, pl.litMax);
    var dt := EncodeTable(pl.dist, pl.distMax);
    ghost var s1 := out[..];
    q := WriteHeader(out, p + 2, pl, syms);
    GrewTwice(s0, s1, out[..], p, ToBits(2, 2), HeaderBits(b));
    ghost var s2 := out[..];
    SameBody(pl, syms);
    q := WriteBody(out, q, j, h, lt[..], pl.lit, dt[..], pl.dist, syms);
    GrewTwice(s0, s2, out[..], p, ToBits(2, 2) + HeaderBits(b), BodyBits(b.lit, b.dist, syms));
    assert ToBits(2, 2) + HeaderBits(b) + BodyBits(b.lit, b.dist, syms) == ToBits(2, 2) + Contents(b, 0);
  }

  /** The distance code as built and as sent give the symbols the same bits. */
  lemma SameBody(pl: Plan, syms: seq<Symbol>)
    requires PlanOk(pl, syms)
    ensures LengthsUpTo(pl.lit, 15) && LengthsUpTo(pl.dist, 15)
    ensures var b := PlannedBlock(pl, syms); AllCoded(b.lit, b.dist, syms) && BodyBits(pl.lit, pl.dist, syms) == BodyBits(b.lit, b.dist, syms)
  {
    hide HeaderOk, Padded, Kraft, RunLength.Trimmed, SymBits;
    if pl.dist == [] { NoCopies(pl.lit, RunLength.Trimmed(pl.dist), syms); }
  }

  lemma {:induction false} NoCopies(lit: seq<nat>, dist: seq<nat>, syms: seq<Symbol>)
    requires AllCoded(lit, [], syms) && AllCoded(lit, dist, syms)
    ensures SymsBits(lit, [], syms) == SymsBits(lit, dist, syms)
  {
    if |syms| > 0 {
      NoCopies(lit, dist, syms[..|syms| - 1]);
      assert Coded(lit, [], syms[|syms| - 1]);
    }
  }

  ghost predicate SameOutside(a: seq<nat>, b: seq<nat>, k: nat) {
    |a| == |b| && forall i :: 0 <= i < |a| && i != k ==> a[i] == b[i]
  }

  /** The final choice, as bits: flag and the rest. */
  lemma FlagFirst(s0: seq<byte>, s1: seq<byte>, s2: seq<byte>, p: nat, b: Block, last: bool)
    requires BlockOk(b) && Grew(s0, s1, p, ToBits(if last then 1 else 0, 1))
    requires Grew(s1, s2, p + 1, ToBits(BlockType(b), 2) + Contents(b, p))
    ensures Grew(s0, s2, p, BlockBits(b, last, p)) && |BlockBits(b, last, p)| == 3 + |Contents(b, p)|
  {
    hide Clean, Holds, Contents, BlockOk;
    GrewTwice(s0, s1, s2, p, ToBits(if last then 1 else 0, 1), ToBits(BlockType(b), 2) + Contents(b, p));
    assert [last] == ToBits(if last then 1 else 0, 1);
    assert [last] + (ToBits(BlockType(b), 2) + Contents(b, p)) == BlockBits(b, last, p);
  }

  /** A stored block is chosen only if its data fit the 16-bit length. */
  lemma StoredFits(bl: nat, n: nat, c: nat, z: nat)
    requires 8 * (bl + 5) <= z <= 9 * n + 22 * c + 7 && n <= MAX_SYMBOLS && c <= MAX_COPIES
    ensures bl <= 65535
  {
  }

  /** Plan the dynamic block, and weigh it and the fixed one: both sizes are exact. */
  method Measure(lf: array<nat>, df: array<nat>, u: nat, ghost syms: seq<Symbol>) returns (pl: Plan, z: nat, y: nat)
    requires AllSane(syms) && |syms| <= MAX_SYMBOLS
    requires lf[..] == Bump(LitCounts(syms), END_OF_BLOCK) && df[..] == DistCounts(syms) && u == ExtraBits(syms)
    ensures PlanOk(pl, syms) && Frugal(pl, syms) && y == |Contents(PlannedBlock(pl, syms), 0)|
    ensures BlockOk(Fixed(syms)) && z == |Contents(Fixed(syms), 0)| <= 9 * |syms| + 22 * Copies(syms) + 7
  {
    hide LitCounts, DistCounts, AllCoded, HeaderBits, BodyBits, Padded, Dot, FixedLit, FixedDist, RleCounts, PlanOk, Frugal;
    assert |lf[..]| == 288 && |df[..]| == 32;
    var clf;
    pl, clf := MakePlan(lf, df, syms);
    var z0 := WeighCounts(lf, FixedLit());
    var z1 := WeighCounts(df, FixedDist());
    z := z0 + z1 + u;
    PlanSizes(pl, syms);
    var y0 := WeighCounts(lf, pl.lit);
    var y1 := WeighCounts(df, pl.dist);
    var y2 := WeighCounts(clf, pl.cl);
    y := y0 + y1 + u + 14 + 3 * pl.sent + y2 + 2 * clf[16] + 3 * clf[17] + 7 * clf[18];
    ghost var f := RleCounts(pl.rleLit + pl.rleDist);
    assert clf[16] == f[16] && clf[17] == f[17] && clf[18] == f[18];
    assert y == PlanCost(pl, syms) && z == FixedCost(syms);
    FixedCostExact(syms);
    PlanCostExact(pl, syms);
  }

  /** The size of the chosen block: at most that of the fixed one, that of the planned one, and,
      up to the padding not needed here, that of a stored one. */
  ghost predicate Cheapest(b: Block, e: seq<byte>, bs: nat, bl: nat, p: nat, z: nat, y: nat)
    requires BlockOk(b) && bs + bl <= |e|
  {
    && |Contents(b, p)| <= z && |Contents(b, p)| <= y
    && (bl <= 65535 ==> |Contents(b, p)| + Padding(p + 3) <= |Contents(Stored(e[bs..bs + bl]), p)| + 7)
    && (b.Stored? <==> 8 * (bl + 5) <= z && 8 * (bl + 5) <= y)
  }

  lemma StoredCheapest(e: seq<byte>, bs: nat, bl: nat, p: nat, z: nat, y: nat)
    requires bs + bl <= |e| && bl <= 65535 && 8 * (bl + 5) <= z && 8 * (bl + 5) <= y
    ensures Cheapest(Stored(e[bs..bs + bl]), e, bs, bl, p, z, y)
  {
    hide StoredBytes, ByteBits;
    StoredSize(p, e[bs..bs + bl]);
  }

  lemma CodedCheapest(b: Block, e: seq<byte>, bs: nat, bl: nat, p: nat, z: nat, y: nat)
    requires bs + bl <= |e| && !b.Stored? && BlockOk(b) && !(8 * (bl + 5) <= z && 8 * (bl + 5) <= y)
    requires |Contents(b, 0)| == if y < z then y else z
    ensures Cheapest(b, e, bs, bl, p, z, y)
  {
    hide StoredBytes, ByteBits, BlockOk, HeaderBits, BodyBits;
    if bl <= 65535 { StoredSize(p, e[bs..bs + bl]); }
  }

  /** Send the rest of a block behind its flag, in the way that costs the fewest bits when a stored
      block is counted with eight bits of padding. */
  method WriteChosen(e: seq<byte>, out: array<byte>, pl: Plan, z: nat, y: nat, j: array<nat>, h: nat, bs: nat, bl: nat, p: nat,
                     ghost syms: seq<Symbol>)
    returns (q: nat, ghost b: Block)
    requires bs + bl <= |e| && Buffered(j[..], syms) && h == |syms| <= MAX_SYMBOLS && Copies(syms) <= MAX_COPIES
    requires SymbolsOk(e[..bs], syms) && Replay(e[..bs], syms) == e[..bs + bl] && Clean(out[..], p + 1)
    requires PlanOk(pl, syms) && Frugal(pl, syms) && y == |Contents(PlannedBlock(pl, syms), 0)|
    requires BlockOk(Fixed(syms)) && z == |Contents(Fixed(syms), 0)| <= 9 * |syms| + 22 * Copies(syms) + 7
    modifies out
    ensures Covers(b, e, bs, bl)
    ensures Grew(old(out[..]), out[..], p + 1, ToBits(BlockType(b), 2) + Contents(b, p)) && q == p + 3 + |Contents(b, p)|
    ensures |Contents(b, p)| <= 8 * (bl + 5) - 1 && Cheapest(b, e, bs, bl, p, z, y)
    ensures b.Stored? || b.syms == syms
  {
    hide Clean, Holds, SymsBits, CodeBits, Kraft, AllCoded, HeaderBits, BodyBits, Padded, Buffered, SymbolsOk, Replay, FixedLit, FixedDist,
      PlanOk, Frugal, ByteBits, StoredBytes;
    var x := 8 * (bl + 5);
    if x <= z && x <= y {
      StoredFits(bl, |syms|, Copies(syms), z);
      StoredSize(p, e[bs..bs + bl]);
      assert e[..bs] + e[bs..bs + bl] == e[..bs + bl];
      b := Stored(e[bs..bs + bl]);
      q := WriteStored(out, p + 1, e[bs..bs + bl]);
      StoredCheapest(e, bs, bl, p, z, y);
    } else if y < z {
      PlanSizes(pl, syms);
      b := PlannedBlock(pl, syms);
      assert ChosenBy(b, pl);
      q := WriteDynamic(out, p + 1, pl, j, h, syms);
      CodedCheapest(b, e, bs, bl, p, z, y);
    } else {
      FixedSane(j[..], syms);
      b := Fixed(syms);
      assert ChosenBy(b, pl);
      q := WriteFixed(out, p + 1, j, h, syms);
      CodedCheapest(b, e, bs, bl, p, z, y);
    }
  }

  lemma FixedSane(j: seq<nat>, syms: seq<Symbol>)
    requires Buffered(j, syms)
    ensures AllCoded(FixedLit(), FixedDist(), syms)
  {
    FixedAllCoded(syms);
  }

  /** Write one block for the bl bytes from bs on: stored, or coded with the fixed codes or with
      codes of its own, whichever takes the fewest bits when a stored block is counted with eight
      bits of padding. */
  method WriteBlock(e: seq<byte>, out: array<byte>, last: bool, j: array<nat>, lf: array<nat>, df: array<nat>,
                    u: nat, h: nat, bs: nat, bl: nat, p: nat, ghost syms: seq<Symbol>)
    returns (q: nat, ghost b: Block, ghost plan: Plan)
    requires BlockInput(e, j[..], lf[..], df[..], u, bs, bl, syms) && h == |syms| && Clean(out[..], p)
    requires lf != df && lf != j
    modifies out, lf
    ensures Covers(b, e, bs, bl)
    ensures Grew(old(out[..]), out[..], p, BlockBits(b, last, p)) && q == p + |BlockBits(b, last, p)|
    ensures PlanOk(plan, syms) && Frugal(plan, syms) && BlockOk(b) && BlockOk(Fixed(syms))
    ensures Cheapest(b, e, bs, bl, p, |Contents(Fixed(syms), 0)|, |Contents(PlannedBlock(plan, syms), 0)|)
    ensures q <= p + 8 * (bl + 5) + 2
    ensures if b.Stored? then 8 * (bl + 5) <= 9 * |syms| + 22 * Copies(syms) + 7 else q <= p + 10 + 9 * |syms| + 22 * Copies(syms)
    ensures SameOutside(old(lf[..]), lf[..], END_OF_BLOCK)
    ensures b.Stored? || b.syms == syms
  {
    hide Clean, Holds, LitCounts, DistCounts, Contents, Buffered, SymbolsOk, Replay, PlanOk, Frugal, BlockOk, Covers, PlannedBlock;
    ghost var s0 := out[..];
    PowersSmall();
    Write2(out, p, if last then 1 else 0, 1);
    ghost var s1 := out[..];
    BufferedSane(j[..], syms);
    lf[END_OF_BLOCK] := lf[END_OF_BLOCK] + 1;
    assert lf[..] == Bump(LitCounts(syms), END_OF_BLOCK);
    var pl, z, y := Measure(lf, df, u, syms);
    plan := pl;
    q, b := WriteChosen(e, out, pl, z, y, j, h, bs, bl, p, syms);
    assert BlockOk(b) by { CoversOk(b, e, bs, bl); }
    FlagFirst(s0, s1, out[..], p, b, last);
  }

  lemma CoversOk(b: Block, e: seq<byte>, bs: nat, bl: nat)
    requires bs + bl <= |e| && Covers(b, e, bs, bl)
    ensures BlockOk(b)
  {
  }

  lemma BufferedSane(j: seq<nat>, syms: seq<Symbol>)
    requires Buffered(j, syms)
    ensures AllSane(syms)
  {
  }

  lemma PlanSizes(pl: Plan, syms: seq<Symbol>)
    requires PlanOk(pl, syms)
    ensures |pl.lit| <= 288 && |pl.dist| <= 32 && |pl.cl| <= 19 && BlockOk(PlannedBlock(pl, syms))
  {
    hide Kraft, Padded, RunLength.Expand, AllCoded;
  }

  lemma StoredSize(p: nat, data: seq<byte>)
    requires |data| <= 65535
    ensures |Contents(Stored(data), p)| == Padding(p + 3) + 8 * (4 + |data|) <= 7 + 8 * (4 + |data|)
    ensures ToBits(0, 2) + Contents(Stored(data), p) == ToBits(0, 2) + Zeros(Padding(p + 3)) + ByteBits(StoredBytes(data))
  {
    hide ByteBits, StoredBytes, ToBits, Padding;
    StoredLength(data);
    PaddingShort(p + 3);
    assert ToBits(0, 2) + (Zeros(Padding(p + 3)) + ByteBits(StoredBytes(data))) == ToBits(0, 2) + Zeros(Padding(p + 3)) + ByteBits(StoredBytes(data));
  }

  lemma StoredLength(data: seq<byte>)
    requires |data| <= 65535
    ensures |ByteBits(StoredBytes(data))| == 8 * (4 + |data|)
  {
  }

  lemma PaddingShort(p: nat)
    ensures 0 <= Padding(p) <= 7
  {
  }
}
