/**
 The one-shot compressor, levels 0 to 9: symbols found along hash chains are collected until a
 block is full, then sent; level 0 stores the input.  Whatever is written is a stream whose
 blocks stand for the input.
 */
module Deflate {
  import opened Bits
  import opened BitStream
  import opened Lz77
  import opened Format
  import opened Counts
  import opened BlockWriter
  import Inflate
  import OutBuffer

  /** Search effort by level: chain length in the low 13 bits, nice length above them. */
  const EFFORT: seq<nat> := [65540, 131080, 131088, 131104, 262176, 1048704, 1048832, 2114560, 2117632]

  /** The same by level: the length that is enough, and the number of places to try. */
  const LEVELS: seq<(nat, nat)> :=
    [(8, 4), (16, 8), (16, 16), (16, 32), (32, 32), (128, 128), (128, 256), (258, 1024), (258, 4096)]

  /** How a level searches. */
  function WayOf(level: nat, bits: nat): Way
    requires 1 <= level <= 9
  {
    Way(LEVELS[level - 1].0, LEVELS[level - 1].1, bits)
  }

  const SYMBOLS_FULL: nat := 24576
  const COPIES_FULL: nat := 7000
  const TAIL: nat := 423

  /** Bytes set aside for n bytes of input. */
  function Capacity(n: nat): nat {
    n + 5 * (1 + (n + 6999) / 7000)
  }

  /** How many symbols beyond the threshold the last bytes of the input may add. */
  function Slack(left: nat): nat {
    if left < TAIL then TAIL - left else 0
  }

  // -------- symbols waiting to be sent -------------------------------------------------

  /** `syms`, in the buffer with their counts, stand for the bytes from bs to cov. */
  ghost predicate Waiting(e: seq<byte>, j: seq<nat>, lf: seq<nat>, df: seq<nat>, u: nat, bs: nat, cov: nat, syms: seq<Symbol>) {
    && bs <= cov <= |e| && Buffered(j, syms)
    && SymbolsOk(e[..bs], syms) && Replay(e[..bs], syms) == e[..cov]
    && lf == LitCounts(syms) && df == DistCounts(syms) && u == ExtraBits(syms)
    && |syms| + 2 * Copies(syms) <= cov - bs && Copies(syms) <= |syms|
  }

  lemma NothingWaits(e: seq<byte>, j: seq<nat>, bs: nat)
    requires bs <= |e|
    ensures Waiting(e, j, seq(288, _ => 0), seq(32, _ => 0), 0, bs, bs, [])
  {
  }

  /** One more symbol, packed and counted. */
  lemma WaitingNext(e: seq<byte>, j: seq<nat>, lf: seq<nat>, df: seq<nat>, u: nat, bs: nat, cov: nat, syms: seq<Symbol>, s: Symbol, cov2: nat)
    requires Waiting(e, j, lf, df, u, bs, cov, syms) && |syms| < |j| && SymbolOk(s, cov) && cov2 <= |e|
    requires Play(e[..cov], s) == e[..cov2] && cov2 >= cov + (if s.Copy? then 3 else 1)
    ensures Sane(s)
    ensures Waiting(e, j[|syms| := Pack(s)], Bump(lf, LitCode(s)), if s.Copy? then Bump(df, DistCode(s.dist)) else df,
                    u + SymExtra(s), bs, cov2, syms + [s])
  {
    hide Play, LenCode, DistCode, Pack, SymExtra;
    SymbolsNext(e[..bs], syms, s);
    CountsNext(syms, s);
    var j2 := j[|syms| := Pack(s)];
    forall k | 0 <= k < |syms + [s]| ensures j2[k] == Pack((syms + [s])[k]) {
      if k < |syms| { assert j2[k] == j[k]; }
    }
  }

  lemma {:induction false} UnusedCodes(syms: seq<Symbol>)
    requires AllSane(syms)
    ensures LitCounts(syms)[286] == 0 == LitCounts(syms)[287] && DistCounts(syms)[30] == 0 == DistCounts(syms)[31]
  {
    hide LenCode, DistCode;
    if |syms| > 0 {
      var s := syms[|syms| - 1];
      UnusedCodes(syms[..|syms| - 1]);
      if s.Copy? { DistCodeOk(s.dist); }
    }
  }

  // -------- blocks sent ----------------------------------------------------------------

  /** The blocks, none of them marked as the last, are in the output up to position v, and stand
      for the first bs bytes; each took at most 42 bits more than its bytes and had at least
      21003 bytes. */
  ghost predicate Sent(e: seq<byte>, out: seq<byte>, v: nat, bs: nat, blocks: seq<Block>) {
    && bs <= |e| && BlocksOk(blocks) && AllChosen(blocks) && BlocksOut(blocks) == e[..bs]
    && v == BlocksEnd(blocks) && Holds(out, 0, BlocksBits(blocks, false)) && Clean(out, v)
    && v <= 8 * bs + 42 * |blocks| && 21003 * |blocks| <= bs
  }

  lemma NothingSent(e: seq<byte>, out: seq<byte>)
    requires forall k :: 0 <= k < |out| ==> out[k] == 0
    ensures Sent(e, out, 0, 0, [])
  {
    forall i: nat | i < 8 * |out| ensures !StreamBit(out, i) { ZeroBit(i % 8); }
  }

  /** One more block in the output. */
  lemma SentNext(e: seq<byte>, out0: seq<byte>, out1: seq<byte>, v: nat, bs: nat, bl: nat, blocks: seq<Block>, b: Block, last: bool)
    requires Sent(e, out0, v, bs, blocks) && bs + bl <= |e| && Covers(b, e, bs, bl)
    requires Grew(out0, out1, v, BlockBits(b, last, v))
    ensures BlocksOk(blocks + [b]) && AllChosen(blocks + [b]) && BlocksOut(blocks + [b]) == e[..bs + bl]
    ensures |BlocksBits(blocks + [b], last)| == v + |BlockBits(b, last, v)| && Holds(out1, 0, BlocksBits(blocks + [b], last))
    ensures Clean(out1, v + |BlockBits(b, last, v)|)
  {
    hide BlockBits, BlockOk, BlockOut, BlockReaches, Holds, BlocksBits, StreamBit, Clean;
    assert BlockOk(b) && Chosen(b) && BlockReaches(e[..bs], b) && BlockOut(e[..bs], b) == e[..bs + bl] by { CoversParts(b, e, bs, bl); }
    BlocksNext(blocks, b, last);
    HoldsAfter(out0, out1, v, BlockBits(b, last, v), 0, BlocksBits(blocks, false));
    HoldsJoin(out1, 0, BlocksBits(blocks, false), BlockBits(b, last, v));
  }

  lemma CoversParts(b: Block, e: seq<byte>, bs: nat, bl: nat)
    requires bs + bl <= |e| && Covers(b, e, bs, bl)
    ensures BlockOk(b) && Chosen(b) && BlockReaches(e[..bs], b) && BlockOut(e[..bs], b) == e[..bs + bl]
  {
  }

  /** A full block sent keeps what is known about all blocks sent. */
  lemma FullSent(e: seq<byte>, out0: seq<byte>, out: seq<byte>, v0: nat, v: nat, start: nat, cov: nat, blocks: seq<Block>, b: Block,
                 count: nat, copies: nat)
    requires Sent(e, out0, v0, start, blocks) && start <= cov <= |e| && count + 2 * copies <= cov - start
    requires copies <= MAX_COPIES && copies <= count && (copies > COPIES_FULL || count > SYMBOLS_FULL)
    requires BlocksOk(blocks + [b]) && AllChosen(blocks + [b]) && BlocksOut(blocks + [b]) == e[..cov]
    requires v == |BlocksBits(blocks + [b], false)| && Holds(out, 0, BlocksBits(blocks + [b], false)) && Clean(out, v)
    requires v <= v0 + 8 * (cov - start + 5) + 2
    ensures Sent(e, out, v, cov, blocks + [b])
  {
    hide BlocksBits, Holds, Clean, BlocksOut, BlocksOk;
  }

  /** A coded block has these symbols. */
  ghost predicate Carries(b: Block, syms: seq<Symbol>) {
    b.Stored? || b.syms == syms
  }

  // -------- what must become a copy ----------------------------------------------------

  /** The last position before i with the hash h, or -1. */
  function LastWith(e: seq<byte>, h: nat, i: nat, bits: nat): (p: int)
    ensures -1 <= p < i
    ensures p >= 0 ==> Hash(e, p, bits) == h
    ensures forall k :: p < k < i ==> Hash(e, k, bits) != h
  {
    if i == 0 then -1 else if Hash(e, i - 1, bits) == h then i - 1 else LastWith(e, h, i - 1, bits)
  }

  /** Every head is the last position with its hash. */
  ghost predicate HeadsOk(e: seq<byte>, head: seq<nat>, i: nat, bits: nat) {
    |head| == Pow2(bits) && forall h :: 0 <= h < |head| ==> HeadOk(e, head[h], h, i, bits)
  }

  ghost predicate HeadOk(e: seq<byte>, w: nat, h: nat, i: nat, bits: nat) {
    w == HeadOf(e, h, i, bits)
  }

  /** The cell of that position; 0 if there is none. */
  function HeadOf(e: seq<byte>, h: nat, i: nat, bits: nat): (w: nat)
    ensures w < 32768
  {
    var p := LastWith(e, h, i, bits);
    if p < 0 then 0 else p % 32768
  }

  /** The chains when the first i positions have been entered: every cell holds the head that its
      last position found. */
  ghost function ChainsAt(e: seq<byte>, i: nat, bits: nat): (c: seq<nat>)
    ensures |c| == 32768
  {
    if i == 0 then seq(32768, _ => 0)
    else ChainsAt(e, i - 1, bits)[(i - 1) % 32768 := HeadOf(e, Hash(e, i - 1, bits), i - 1, bits)]
  }

  /** A symbol at x is what the search along the chains finds there. */
  ghost predicate Sought(e: seq<byte>, x: nat, s: Symbol, way: Way) {
    x < |e| && if x + 2 < |e| then exists tried, q, u :: SoughtBy(e, x, s, way, tried, q, u) else s == Lit(e[x])
  }

  ghost predicate SoughtBy(e: seq<byte>, x: nat, s: Symbol, way: Way, tried: seq<Spot>, q: nat, u: nat)
    requires x < |e|
  {
    && Walked(e, x, ChainsAt(e, x + 1, way.bits), HeadOf(e, Hash(e, x, way.bits), x, way.bits), way, tried, q, u)
    && s == if u != 0 then Copy(q, u) else Lit(e[x])
  }

  /** So is every symbol, at the place it stands for. */
  ghost predicate AsSought(e: seq<byte>, before: seq<byte>, syms: seq<Symbol>, way: Way) {
    forall k :: 0 <= k < |syms| ==> Sought(e, |Replay(before, syms[..k])|, syms[k], way)
  }

  ghost predicate AllSought(e: seq<byte>, blocks: seq<Block>, way: Way) {
    forall k :: 0 <= k < |blocks| && !blocks[k].Stored? ==> AsSought(e, BlocksOut(blocks[..k]), blocks[k].syms, way)
  }

  /** A block is sent as soon as it is full: with its 24577th symbol or its 7001st copy. */
  ghost predicate Full(syms: seq<Symbol>) {
    |syms| <= 24577 && Copies(syms) <= 7001 && (|syms| == 24577 || Copies(syms) == 7001)
  }

  ghost predicate AllFull(blocks: seq<Block>) {
    forall k :: 0 <= k < |blocks| && !blocks[k].Stored? ==> Full(blocks[k].syms)
  }

  lemma HeadsEmpty(e: seq<byte>, head: seq<nat>, bits: nat)
    requires |head| == Pow2(bits) && forall h :: 0 <= h < |head| ==> head[h] == 0
    ensures HeadsOk(e, head, 0, bits)
  {
  }

  lemma HeadsNext(e: seq<byte>, head: seq<nat>, i: nat, bits: nat)
    requires HeadsOk(e, head, i, bits)
    ensures Hash(e, i, bits) < |head| && HeadsOk(e, head[Hash(e, i, bits) := i % 32768], i + 1, bits)
  {
    hide Hash, Pow2;
    var h0 := Hash(e, i, bits);
    var next := head[h0 := i % 32768];
    forall h | 0 <= h < |next| ensures HeadOk(e, next[h], h, i + 1, bits) { assert HeadOk(e, head[h], h, i, bits); }
  }

  /** The three bytes at x are those at the last position with their hash, which is near enough. */
  ghost predicate Repeats(e: seq<byte>, x: nat, bits: nat) {
    x + 2 < |e| && var p := LastWith(e, Hash(e, x, bits), x, bits); p >= 0 && x - p <= 32767 && Common(e, x, x - p, 3)
  }

  /** A symbol at x that is a copy, and as long as the one from that position, if there is one. */
  ghost predicate Saves(e: seq<byte>, x: nat, s: Symbol, bits: nat) {
    Repeats(e, x, bits) ==> s.Copy? && NoLonger(e, x, x - LastWith(e, Hash(e, x, bits), x, bits), s.len)
  }

  /** So is every symbol, at the place it stands for. */
  ghost predicate Thrifty(e: seq<byte>, before: seq<byte>, syms: seq<Symbol>, bits: nat) {
    forall k :: 0 <= k < |syms| ==> Saves(e, |Replay(before, syms[..k])|, syms[k], bits)
  }

  ghost predicate AllThrifty(e: seq<byte>, blocks: seq<Block>, bits: nat) {
    forall k :: 0 <= k < |blocks| && !blocks[k].Stored? ==> Thrifty(e, BlocksOut(blocks[..k]), blocks[k].syms, bits)
  }

  lemma SoughtMore(e: seq<byte>, before: seq<byte>, syms: seq<Symbol>, s: Symbol, x: nat, way: Way)
    requires AsSought(e, before, syms, way) && x == |Replay(before, syms)| && Sought(e, x, s, way)
    ensures AsSought(e, before, syms + [s], way)
  {
    hide Sought, Replay;
    var all := syms + [s];
    assert all[..|syms|] == syms;
    forall k | 0 <= k < |all| ensures Sought(e, |Replay(before, all[..k])|, all[k], way) {
      if k < |syms| { assert all[..k] == syms[..k]; }
    }
  }

  lemma SoughtSent(e: seq<byte>, blocks: seq<Block>, all: seq<Block>, syms: seq<Symbol>, way: Way)
    requires AllSought(e, blocks, way) && |all| == |blocks| + 1 && all[..|blocks|] == blocks && Carries(all[|blocks|], syms)
    requires AsSought(e, BlocksOut(blocks), syms, way)
    ensures AllSought(e, all, way)
  {
    hide AsSought, BlocksOut;
    forall k | 0 <= k < |all| && !all[k].Stored? ensures AsSought(e, BlocksOut(all[..k]), all[k].syms, way) {
      if k < |blocks| { assert all[..k] == blocks[..k] && all[k] == blocks[k]; }
    }
  }

  lemma FullMore(blocks: seq<Block>, all: seq<Block>, syms: seq<Symbol>)
    requires AllFull(blocks) && Full(syms) && |all| == |blocks| + 1 && all[..|blocks|] == blocks && Carries(all[|blocks|], syms)
    ensures AllFull(all)
  {
    hide Full;
    forall k | 0 <= k < |all| && !all[k].Stored? ensures Full(all[k].syms) {
      if k < |blocks| { assert all[k] == blocks[k]; }
    }
  }

  lemma NothingSought(e: seq<byte>, before: seq<byte>, way: Way)
    ensures AsSought(e, before, [], way) && AllSought(e, [], way) && AllFull([])
  {
  }

  /** What the search finds is as long as a copy from the head of the chain would be. */
  lemma SoughtSaves(e: seq<byte>, x: nat, s: Symbol, way: Way)
    requires Sought(e, x, s, way) && way.chain >= 2 && 3 <= way.nice <= 258
    ensures Saves(e, x, s, way.bits)
  {
    hide Walked, NoLonger, Common, Hash, ChainsAt;
    if Repeats(e, x, way.bits) {
      var tried, q, u :| SoughtBy(e, x, s, way, tried, q, u);
      var p := LastWith(e, Hash(e, x, way.bits), x, way.bits);
      var w := HeadOf(e, Hash(e, x, way.bits), x, way.bits);
      assert (x - w) % 32768 == x - p;
      HeadFound(e, x, ChainsAt(e, x + 1, way.bits), w, way, tried, q, u);
    }
  }

  lemma SoughtThrifty(e: seq<byte>, blocks: seq<Block>, way: Way)
    requires AllSought(e, blocks, way) && way.chain >= 2 && 3 <= way.nice <= 258
    ensures AllThrifty(e, blocks, way.bits)
  {
    hide Sought, Saves, Replay, BlocksOut;
    forall k | 0 <= k < |blocks| && !blocks[k].Stored? ensures Thrifty(e, BlocksOut(blocks[..k]), blocks[k].syms, way.bits) {
      var before, syms := BlocksOut(blocks[..k]), blocks[k].syms;
      assert AsSought(e, before, syms, way);
      forall i | 0 <= i < |syms| ensures Saves(e, |Replay(before, syms[..i])|, syms[i], way.bits) {
        SoughtSaves(e, |Replay(before, syms[..i])|, syms[i], way);
      }
    }
  }

  /** What the search has found is what is sought. */
  lemma FoundSought(e: seq<byte>, x: nat, prev: seq<nat>, w: nat, way: Way, tried: seq<Spot>, q: nat, u: nat, s: Symbol)
    requires x + 2 < |e| && prev == ChainsAt(e, x + 1, way.bits) && HeadOk(e, w, Hash(e, x, way.bits), x, way.bits)
    requires Walked(e, x, prev, w, way, tried, q, u) && s == if u != 0 then Copy(q, u) else Lit(e[x])
    ensures Sought(e, x, s, way)
  {
    hide Walked, Hash, ChainsAt;
    assert SoughtBy(e, x, s, way, tried, q, u);
  }

  // -------- the compressor's state -----------------------------------------------------

  class Deflater {
    const e: seq<byte>
    const out: array<byte>
    const j: array<nat>         // symbols, packed
    const lf: array<nat>        // literal and length codes, counted
    const df: array<nat>        // distance codes, counted
    const tb: Tables            // lengths and distances by code
    var copies: nat             // copies among the waiting symbols
    var extra: nat              // their extra bits
    var count: nat              // waiting symbols
    var start: nat              // where the waiting symbols begin
    var v: nat                  // bits written
    ghost var syms: seq<Symbol>
    ghost var blocks: seq<Block>

    /** Everything before `start` has been sent, everything from there to cov is waiting. */
    ghost predicate Valid(cov: nat)
      reads this, out, j, lf, df
    {
      && lf != df && lf != j && df != j && j.Length == MAX_SYMBOLS && out.Length == Capacity(|e|)
      && Waiting(e, j[..], lf[..], df[..], extra, start, cov, syms)
      && count == |syms| && copies == Copies(syms)
      && Sent(e, out[..], v, start, blocks)
    }

    constructor (e: seq<byte>, tb: Tables)
      ensures Valid(0) && this.e == e && this.tb == tb && count == 0 && copies == 0 && start == 0 && syms == [] && blocks == []
      ensures fresh(out) && fresh(j) && fresh(lf) && fresh(df)
    {
      this.e, this.tb := e, tb;
      out := new byte[Capacity(|e|)](_ => 0);
      j := new nat[MAX_SYMBOLS](_ => 0);
      lf := new nat[288](_ => 0);
      df := new nat[32](_ => 0);
      copies, extra, count, start, v := 0, 0, 0, 0, 0;
      syms, blocks := [], [];
      new;
      NothingWaits(e, j[..], 0);
      NothingSent(e, out[..]);
      assert lf[..] == seq(288, _ => 0) && df[..] == seq(32, _ => 0);
    }

    /** The byte at cov becomes a literal. */
    method AddLiteral(cov: nat)
      requires Valid(cov) && cov < |e| && count < MAX_SYMBOLS
      modifies this, j, lf
      ensures Valid(cov + 1) && count == old(count) + 1 && copies == old(copies) && syms == old(syms) + [Lit(e[cov])]
      ensures blocks == old(blocks) && start == old(start) && v == old(v)
    {
      hide Buffered, SymbolsOk, Replay, LitCounts, DistCounts, Copies, ExtraBits, Sent, Pack;
      ghost var s := Lit(e[cov]);
      assert e[..cov] + [e[cov]] == e[..cov + 1];
      WaitingNext(e, j[..], lf[..], df[..], extra, start, cov, syms, s, cov + 1);
      LiteralAdded(syms, s);
      WaitingShape(e, j[..], lf[..], df[..], extra, start, cov, syms);
      ghost var j0 := j[..];
      j[count] := e[cov];
      count := count + 1;
      lf[e[cov]] := lf[e[cov]] + 1;
      assert j[..] == j0[|syms| := s.b];
      syms := syms + [s];
    }

    /** The q bytes at cov become a copy from distance u. */
    method AddCopy(cov: nat, q: nat, u: nat)
      requires Valid(cov) && IsMatch(e, cov, q, u) && count < MAX_SYMBOLS && TablesOk(tb)
      modifies this, j, lf, df
      ensures Valid(cov + q) && count == old(count) + 1 && copies == old(copies) + 1 && syms == old(syms) + [Copy(q, u)]
      ensures blocks == old(blocks) && start == old(start) && v == old(v)
    {
      hide Buffered, SymbolsOk, Replay, LitCounts, DistCounts, Copies, ExtraBits, Sent, LenCode, DistCode, CopyTo, Pack, LitCode, SymExtra, LenEntry, DistEntry, Waiting, Bump, Play, SymbolOk, TablesOk;
      ghost var s := Copy(q, u);
      MatchPlays(e, cov, q, u);
      hide IsMatch;
      WaitingNext(e, j[..], lf[..], df[..], extra, start, cov, syms, s, cov + q);
      CopyAdded(syms, s);
      WaitingShape(e, j[..], lf[..], df[..], extra, start, cov, syms);
      CopyNumbers(q, u);
      EntriesOf(tb, q, u);
      ghost var j0, lf0, df0 := j[..], lf[..], df[..];
      j[count] := 268435456 + tb.lenEntry[q] * 262144 + tb.distEntry[u];
      count := count + 1;
      var ie, ae := tb.lenEntry[q] % 32, tb.distEntry[u] % 32;
      extra := extra + (LENGTH_EXTRA[ie] + DIST_EXTRA[ae]);
      Increment(lf, 257 + ie);
      Increment(df, ae);
      copies := copies + 1;
      assert j[..] == j0[|syms| := Pack(s)];
      syms := syms + [s];
    }

    /** Every symbol waiting or sent is what the search finds, and the blocks sent were full. */
    ghost predicate Found(way: Way)
      reads this
    {
      start <= |e| && AsSought(e, e[..start], syms, way) && AllSought(e, blocks, way) && AllFull(blocks)
    }

    lemma WaitingThere(cov: nat)
      requires Valid(cov)
      ensures start <= cov <= |e| && |Replay(e[..start], syms)| == cov
    {
    }

    lemma SentThere(cov: nat)
      requires Valid(cov)
      ensures start <= |e| && BlocksOut(blocks) == e[..start]
    {
    }

    lemma WaitingReaches(cov: nat)
      requires Valid(cov)
      ensures start <= cov <= |e| && count + 2 * copies <= cov - start && copies <= count
    {
    }

    static method Increment(f: array<nat>, k: nat)
      requires k < f.Length
      modifies f
      ensures f[..] == Bump(old(f[..]), k)
    {
      f[k] := f[k] + 1;
    }

    /** Send the waiting symbols as one block. */
    method Flush(cov: nat, last: bool) returns (ghost b: Block)
      requires Valid(cov) && copies <= MAX_COPIES
      modifies this, out, lf
      ensures start == old(start) && syms == old(syms) && blocks == old(blocks) && count == old(count) && copies == old(copies)
      ensures SameOutside(old(lf[..]), lf[..], END_OF_BLOCK)
      ensures Covers(b, e, start, cov - start) && Carries(b, syms)
      ensures BlocksOk(blocks + [b]) && AllChosen(blocks + [b]) && BlocksOut(blocks + [b]) == e[..cov]
      ensures v == |BlocksBits(blocks + [b], last)| && Holds(out[..], 0, BlocksBits(blocks + [b], last)) && Clean(out[..], v)
      ensures v <= old(v) + 8 * (cov - start + 5) + 2
      ensures if b.Stored? then 8 * (cov - start + 5) <= 9 * count + 22 * copies + 7 else v <= old(v) + 10 + 9 * count + 22 * copies
    {
      hide *;
      ghost var out0 := out[..];
      ReadyToWrite(cov);
      ghost var plan;
      v, b, plan := WriteBlock(e, out, last, j, lf, df, extra, count, start, cov - start, v, syms);
      SentNext(e, out0, out[..], old(v), start, cov - start, blocks, b, last);
      assert Carries(b, syms) by { CarriesThese(b, syms); }
    }

    lemma ReadyToWrite(cov: nat)
      requires Valid(cov) && copies <= MAX_COPIES
      ensures lf != df && lf != j && start <= cov <= |e| && count == |syms| && copies == Copies(syms)
      ensures BlockInput(e, j[..], lf[..], df[..], extra, start, cov - start, syms) && Clean(out[..], v) && Sent(e, out[..], v, start, blocks)
    {
      hide Buffered, SymbolsOk, Replay, LitCounts, DistCounts, Copies, ExtraBits, BlocksBits, Holds, Clean, BlocksOut, BlocksOk, AllChosen;
      WaitingShape(e, j[..], lf[..], df[..], extra, start, cov, syms);
      assert start + (cov - start) == cov;
    }

    /** Send a full block and start collecting anew. */
    method FlushFull(cov: nat)
      requires Valid(cov) && copies <= MAX_COPIES && (copies > COPIES_FULL || count > SYMBOLS_FULL)
      modifies this, out, lf, df
      ensures Valid(cov) && count == 0 && copies == 0 && syms == [] && start == cov
      ensures |blocks| == |old(blocks)| + 1 && blocks[..|old(blocks)|] == old(blocks) && Carries(blocks[|old(blocks)|], old(syms))
      ensures |old(syms)| == old(count) && Copies(old(syms)) == old(copies)
    {
      hide Buffered, SymbolsOk, Replay, LitCounts, DistCounts, Copies, ExtraBits, BlocksBits, BlockBits, Holds, Clean, BlocksOut, BlocksOk, BlockOk, Covers;
      WaitingReaches(cov);
      hide Sent, Waiting, BlocksEnd;
      WaitingShape(e, j[..], lf[..], df[..], extra, start, cov, syms);
      ghost var out0, v0 := out[..], v;
      ghost var b := Flush(cov, false);
      FullSent(e, out0, out[..], v0, v, start, cov, blocks, b, count, copies);
      copies, extra, count, start := 0, 0, 0, cov;
      blocks, syms := blocks + [b], [];
      ClearCounts();
      assert lf[..] == seq(288, _ => 0) && df[..] == seq(32, _ => 0);
      NothingWaits(e, j[..], cov);
      assert Copies([]) == 0 by { CopiesOfNone(); }
    }

    method ClearCounts()
      requires lf != df && lf.Length == 288 && df.Length == 32
      requires lf[286] == 0 == lf[287] && df[30] == 0 == df[31]
      modifies lf, df
      ensures (forall k :: 0 <= k < 288 ==> lf[k] == 0) && (forall k :: 0 <= k < 32 ==> df[k] == 0)
    {
      for g := 0 to 286
        invariant (forall k :: 0 <= k < g ==> lf[k] == 0) && lf[286] == 0 == lf[287] && df[30] == 0 == df[31]
      {
        lf[g] := 0;
      }
      for g := 0 to 30
        invariant (forall k :: 0 <= k < 288 ==> lf[k] == 0) && (forall k :: 0 <= k < g ==> df[k] == 0) && df[30] == 0 == df[31]
      {
        df[g] := 0;
      }
    }
  }

  lemma CarriesThese(b: Block, syms: seq<Symbol>)
    requires b.Stored? || b.syms == syms
    ensures Carries(b, syms)
  {
  }

  lemma CopiesOfNone()
    ensures Copies([]) == 0
  {
  }

  lemma LiteralAdded(syms: seq<Symbol>, s: Symbol)
    requires s.Lit?
    ensures Copies(syms + [s]) == Copies(syms) && SymExtra(s) == 0 && Pack(s) == s.b
  {
    assert (syms + [s])[..|syms|] == syms;
  }

  lemma CopyAdded(syms: seq<Symbol>, s: Symbol)
    requires s.Copy?
    ensures Copies(syms + [s]) == Copies(syms) + 1
  {
    assert (syms + [s])[..|syms|] == syms;
  }

  lemma MatchPlays(e: seq<byte>, cov: nat, q: nat, u: nat)
    requires IsMatch(e, cov, q, u)
    ensures 3 <= q <= 258 && 1 <= u <= 32767 && cov + q <= |e| && SymbolOk(Copy(q, u), cov)
    ensures Play(e[..cov], Copy(q, u)) == e[..cov + q]
  {
    CopyOfMatch(e, cov, q, u);
  }

  lemma CopyNumbers(q: nat, u: nat)
    requires 3 <= q <= 258 && 1 <= u <= 32767
    ensures Pack(Copy(q, u)) == 268435456 + LenEntry(q) * 262144 + DistEntry(u)
    ensures LitCode(Copy(q, u)) == 257 + LenEntry(q) % 32 < 286 && DistCode(u) == DistEntry(u) % 32 < 30
    ensures SymExtra(Copy(q, u)) == LENGTH_EXTRA[LenEntry(q) % 32] + DIST_EXTRA[DistEntry(u) % 32]
  {
    hide LenCode, DistCode, LenBase, DistBase;
    LenCodeOk(q);
    DistCodeOk(u);
    ExtraTables(LenCode(q));
    ExtraTables(DistCode(u));
  }

  lemma WaitingShape(e: seq<byte>, j: seq<nat>, lf: seq<nat>, df: seq<nat>, u: nat, bs: nat, cov: nat, syms: seq<Symbol>)
    requires Waiting(e, j, lf, df, u, bs, cov, syms)
    ensures |lf| == 288 && |df| == 32 && AllSane(syms) && |syms| <= |j|
    ensures lf[286] == 0 == lf[287] && df[30] == 0 == df[31]
  {
    UnusedCodes(syms);
  }

  // -------- the loop over the input ----------------------------------------------------

  function Max(a: nat, b: nat): nat { if a >= b then a else b }

  /** The buffer's load: at the end of the input it is at most 25000 symbols, 7424 of them copies. */
  ghost predicate Load(count: nat, copies: nat, left: nat) {
    count <= SYMBOLS_FULL + 1 + Slack(left) && copies <= COPIES_FULL + 1 + Slack(left)
  }

  ghost predicate Cells(a: seq<nat>) {
    forall k :: 0 <= k < |a| ==> a[k] < 32768
  }

  /** Send the waiting symbols if they are enough for a block and more than the last bytes are left. */
  method SendFull(d: Deflater, i: nat, ghost way: Way)
    requires i < |d.e| && d.Valid(i) && Load(d.count, d.copies, |d.e| - i) && d.Found(way)
    modifies d, d.out, d.lf, d.df
    ensures d.Valid(i) && Load(d.count + 1, d.copies + 1, |d.e| - i - 1) && d.Found(way)
    ensures |d.blocks| == |old(d.blocks)| + if (old(d.copies) >= 7001 || old(d.count) >= 24577) && |d.e| - i >= 424 then 1 else 0
  {
    hide Waiting, Sent, AsSought, AllSought, AllFull, Full, BlocksOut, Replay;
    d.WaitingReaches(i);
    if (d.copies > COPIES_FULL || d.count > SYMBOLS_FULL) && |d.e| - i > TAIL {
      ghost var blocks, syms := d.blocks, d.syms;
      d.SentThere(i);
      d.FlushFull(i);
      SoughtSent(d.e, blocks, d.blocks, syms, way);
      FullNow(syms);
      FullMore(blocks, d.blocks, syms);
      NothingSought(d.e, d.e[..i], way);
    }
  }

  /** Look for a copy at i and take it, or else a literal. */
  method TakeSymbol(d: Deflater, i: nat, l0: nat, prev: array<nat>, w: nat, nice: nat, chain: nat, bits: nat) returns (l: nat)
    requires i + 2 < |d.e| && l0 <= i && d.Valid(i) && Load(d.count + 1, d.copies + 1, |d.e| - i - 1) && d.Found(Way(nice, chain, bits))
    requires prev.Length == 32768 && Cells(prev[..]) && prev !in {d.j, d.lf, d.df}
    requires 3 <= nice <= 258 && chain >= 2 && TablesOk(d.tb)
    requires HeadOk(d.e, w, Hash(d.e, i, bits), i, bits) && prev[..] == ChainsAt(d.e, i + 1, bits)
    modifies d, d.j, d.lf, d.df
    ensures d.Valid(Max(i + 1, l)) && Load(d.count, d.copies, |d.e| - Max(i + 1, l)) && d.Found(Way(nice, chain, bits))
  {
    hide Waiting, Sent, IsMatch, TablesOk, Walked, Hash, Sought, AsSought, AllSought, AllFull, ChainsAt, HeadOk, Replay;
    ghost var way := Way(nice, chain, bits);
    HeadCell(d.e, w, Hash(d.e, i, bits), i, bits);
    var q, u;
    ghost var tried;
    q, u, tried := FindMatch(d.e, i, prev, w, nice, chain, bits);
    ghost var s := if u != 0 then Copy(q, u) else Lit(d.e[i]);
    FoundSought(d.e, i, prev[..], w, way, tried, q, u, s);
    d.WaitingThere(i);
    SoughtMore(d.e, d.e[..d.start], d.syms, s, i, way);
    if u != 0 {
      MatchShape(d.e, i, q, u);
      d.AddCopy(i, q, u);
      l := i + q;
    } else {
      d.AddLiteral(i);
      l := l0;
    }
  }

  lemma HeadCell(e: seq<byte>, w: nat, h: nat, i: nat, bits: nat)
    requires HeadOk(e, w, h, i, bits)
    ensures w < 32768
  {
  }

  /** One position of the input: enter it into its chain, and unless a copy already covers it,
      send a full block, look for a copy and take it, or else a literal.  l is where the last
      copy ends. */
  method Advance(d: Deflater, i: nat, l0: nat, prev: array<nat>, head: array<nat>, nice: nat, chain: nat, bits: nat)
    returns (l: nat)
    requires i + 2 < |d.e| && d.Valid(Max(i, l0)) && Load(d.count, d.copies, |d.e| - Max(i, l0))
    requires prev.Length == 32768 && Cells(prev[..]) && head.Length == Pow2(bits) && Cells(head[..]) && prev != head
    requires {prev, head} !! {d.j, d.lf, d.df}
    requires 3 <= nice <= 258 && chain >= 2 && TablesOk(d.tb)
    requires HeadsOk(d.e, head[..], i, bits) && prev[..] == ChainsAt(d.e, i, bits) && d.Found(Way(nice, chain, bits))
    modifies d, d.out, d.j, d.lf, d.df, prev, head
    ensures d.Valid(Max(i + 1, l)) && Load(d.count, d.copies, |d.e| - Max(i + 1, l))
    ensures Cells(prev[..]) && Cells(head[..])
    ensures var h := Hash(d.e, i, bits); h < head.Length && head[..] == old(head[..])[h := i % 32768] && prev[..] == old(prev[..])[i % 32768 := old(head[h])]
    ensures HeadsOk(d.e, head[..], i + 1, bits) && prev[..] == ChainsAt(d.e, i + 1, bits) && d.Found(Way(nice, chain, bits))
  {
    hide Waiting, Sent, TablesOk, HeadsOk, Hash, AsSought, AllSought, AllFull, ChainsAt, HeadOf, Load;
    ChainsNext(d.e, i, bits);
    HeadsNext(d.e, head[..], i, bits);
    HeadAt(d.e, head[..], i, bits);
    var h := Hash(d.e, i, bits);
    var w := head[h];
    prev[i % 32768] := w;
    head[h] := i % 32768;
    l := l0;
    if l <= i {
      SendFull(d, i, Way(nice, chain, bits));
      l := TakeSymbol(d, i, l, prev, w, nice, chain, bits);
    }
  }

  lemma HeadAt(e: seq<byte>, head: seq<nat>, i: nat, bits: nat)
    requires HeadsOk(e, head, i, bits)
    ensures var h := Hash(e, i, bits); h < |head| && HeadOk(e, head[h], h, i, bits)
  {
  }

  lemma MatchShape(e: seq<byte>, d: nat, q: nat, u: nat)
    requires IsMatch(e, d, q, u)
    ensures 3 <= q && d + q <= |e|
  {
  }

  lemma TailSought(e: seq<byte>, x: nat, way: Way)
    requires x < |e| <= x + 2
    ensures Sought(e, x, Lit(e[x]), way)
  {
  }

  lemma ChainsNext(e: seq<byte>, i: nat, bits: nat)
    ensures ChainsAt(e, i + 1, bits) == ChainsAt(e, i, bits)[i % 32768 := HeadOf(e, Hash(e, i, bits), i, bits)]
  {
    hide Hash, HeadOf;
  }

  lemma FullNow(syms: seq<Symbol>)
    requires Load(|syms|, Copies(syms), TAIL) && (Copies(syms) > COPIES_FULL || |syms| > SYMBOLS_FULL)
    ensures Full(syms)
  {
    hide Copies;
  }

  /** The bytes that are left become literals. */
  method AddTail(d: Deflater, cov: nat, ghost way: Way)
    requires cov <= |d.e| && |d.e| - cov <= 2 && d.Valid(cov) && Load(d.count, d.copies, |d.e| - cov) && d.Found(way)
    modifies d, d.j, d.lf
    ensures d.Valid(|d.e|) && Load(d.count, d.copies, 0) && d.Found(way)
  {
    hide Waiting, Sent, AsSought, AllSought, AllFull, Sought, Replay;
    for i := cov to |d.e|
      invariant d.Valid(i) && Load(d.count, d.copies, |d.e| - i) && d.Found(way)
    {
      d.WaitingThere(i);
      TailSought(d.e, i, way);
      SoughtMore(d.e, d.e[..d.start], d.syms, Lit(d.e[i]), i, way);
      d.AddLiteral(i);
    }
  }

  /** The output has room for everything written. */
  lemma OutputFits(n: nat, v0: nat, v: nat, start: nat, blocks: nat, count: nat, copies: nat, stored: bool)
    requires v0 <= 8 * start + 42 * blocks && 21003 * blocks <= start <= n && count + 2 * copies <= n - start
    requires v <= v0 + 8 * (n - start + 5) + 2
    requires if stored then 8 * (n - start + 5) <= 9 * count + 22 * copies + 7 else v <= v0 + 10 + 9 * count + 22 * copies
    ensures v <= 8 * Capacity(n)
  {
    var c := (n + 6999) / 7000;
    assert 3 * blocks <= c;
    assert v <= 8 * n + 42 * blocks + 42;
    if n > 0 { assert c >= 1; }
  }

  lemma {:induction false} PrefixHolds(out: seq<byte>, p: nat, bits: seq<bool>, n: nat)
    requires n <= |out| && Holds(out, p, bits)
    ensures Holds(out[..n], p, bits)
  {
    forall i: nat | i < |bits| && p + i < 8 * n ensures StreamBit(out[..n], p + i) == bits[i] {
      assert out[..n][(p + i) / 8] == out[(p + i) / 8];
      assert StreamBit(out, p + i) == bits[i];
    }
  }

  lemma EffortOk(level: nat, bits: nat)
    requires 1 <= level <= 9
    ensures 8 <= EFFORT[level - 1] / 8192 <= 258 && EFFORT[level - 1] % 8192 >= 4
    ensures Way(EFFORT[level - 1] / 8192, EFFORT[level - 1] % 8192, bits) == WayOf(level, bits)
  {
  }

  /** Levels 1 to 9. */
  method DeflateCoded(e: seq<byte>, level: nat, bits: nat) returns (stream: seq<byte>, ghost blocks: seq<Block>)
    requires 1 <= level <= 9
    ensures AllSought(e, blocks, WayOf(level, bits)) && AllThrifty(e, blocks, bits)
    ensures |blocks| > 0 && AllFull(blocks[..|blocks| - 1])
    ensures IsStreamOf(stream, blocks) && AllChosen(blocks) && BlocksOut(blocks) == e && |stream| <= Capacity(|e|)
  {
    hide Waiting, Sent, IsMatch, BlocksBits, BlocksOut, BlocksOk, BlockOk, Covers, Holds, Clean, TablesOk, HeadsOk, AllThrifty, AllSought, AllFull, AsSought, ChainsAt, Hash;
    EffortOk(level, bits);
    var nice, chain := EFFORT[level - 1] / 8192, EFFORT[level - 1] % 8192;
    var tb := BuildTables();
    var d := new Deflater(e, tb);
    var prev := new nat[32768](_ => 0);
    var head := new nat[Pow2(bits)](_ => 0);
    var i: nat, l: nat := 0, 0;
    ghost var way := WayOf(level, bits);
    HeadsEmpty(e, head[..], bits);
    ChainsEmpty(e, prev[..], bits);
    NothingSought(e, e[..0], way);
    while i + 2 < |e|
      invariant d.e == e && d.tb == tb && Max(i, l) <= |e| && d.Valid(Max(i, l)) && Load(d.count, d.copies, |e| - Max(i, l))
      invariant Cells(prev[..]) && Cells(head[..]) && HeadsOk(e, head[..], i, bits) && prev[..] == ChainsAt(e, i, bits) && d.Found(way)
    {
      l := Advance(d, i, l, prev, head, nice, chain, bits);
      i := i + 1;
      d.WaitingReaches(Max(i, l));
    }
    AddTail(d, Max(i, l), way);
    stream, blocks := Finish(d, way);
    SoughtThrifty(e, blocks, way);
  }

  lemma ChainsEmpty(e: seq<byte>, prev: seq<nat>, bits: nat)
    requires |prev| == 32768 && forall k :: 0 <= k < |prev| ==> prev[k] == 0
    ensures prev == ChainsAt(e, 0, bits)
  {
  }

  /** Send the last block and cut the output to the bytes used. */
  method Finish(d: Deflater, ghost way: Way) returns (stream: seq<byte>, ghost blocks: seq<Block>)
    requires d.Valid(|d.e|) && Load(d.count, d.copies, 0) && d.Found(way)
    modifies d, d.out, d.lf
    ensures AllSought(d.e, blocks, way) && |blocks| > 0 && AllFull(blocks[..|blocks| - 1])
    ensures IsStreamOf(stream, blocks) && AllChosen(blocks) && BlocksOut(blocks) == d.e && |stream| <= Capacity(|d.e|)
  {
    hide BlocksBits, BlocksOut, BlocksOk, BlockOk, Holds, Clean, BlockOut, BlockReaches, Buffered, LitCounts, DistCounts, SymbolsOk, Replay, AsSought, AllSought, AllFull;
    ghost var v0, n := d.v, |d.blocks|;
    d.SentThere(|d.e|);
    ghost var b := d.Flush(|d.e|, true);
    blocks := d.blocks + [b];
    SoughtSent(d.e, d.blocks, blocks, d.syms, way);
    assert blocks[..|blocks| - 1] == d.blocks;
    OutputFits(|d.e|, v0, d.v, d.start, n, d.count, d.copies, b.Stored?);
    assert d.e[..|d.e|] == d.e;
    PrefixHolds(d.out[..], 0, BlocksBits(blocks, true), ByteCount(d.v));
    stream := d.out[..ByteCount(d.v)];
    assert stream == d.out[..][..ByteCount(d.v)];
  }

  // -------- level 0 --------------------------------------------------------------------

  /** Setting the lowest bit of a clean byte writes a flag. */
  lemma FlagWritten(s0: seq<byte>, s1: seq<byte>, v: nat, flag: bool)
    requires v % 8 == 0 && Clean(s0, v) && |s1| == |s0|
    requires forall k :: 0 <= k < |s0| ==> s1[k] == if flag && k == v / 8 then 1 else s0[k]
    ensures Grew(s0, s1, v, ToBits(if flag then 1 else 0, 1))
  {
    forall i: nat | i < 8 * |s0| ensures StreamBit(s1, i) == if flag && i == v then true else StreamBit(s0, i) {
      if flag && i / 8 == v / 8 {
        assert !StreamBit(s0, i);
        if i % 8 > 0 { assert BitAt(1, i % 8) == BitAt(0, i % 8 - 1); ZeroBit(i % 8 - 1); }
      }
    }
    forall i: nat | v <= i < 8 * |s0| ensures !StreamBit(s0, i) { }
    assert BitAt(1, 0) && !BitAt(0, 0);
  }

  lemma StoredCost(v: nat, data: seq<byte>)
    requires v % 8 == 0 && |data| <= 65535
    ensures |Contents(Stored(data), v)| == 8 * (|data| + 5) - 3
    ensures ToBits(0, 2) + Contents(Stored(data), v) == ToBits(0, 2) + Zeros(Padding(v + 3)) + ByteBits(StoredBytes(data))
  {
    assert (v + 10) / 8 == v / 8 + 1;
    assert |StoredBytes(data)| == 4 + |data|;
    StoredJoin(ToBits(0, 2), Zeros(Padding(v + 3)), ByteBits(StoredBytes(data)));
  }

  lemma StoredJoin(a: seq<bool>, b: seq<bool>, c: seq<bool>)
    ensures a + (b + c) == a + b + c
  {
  }

  /** Write one stored block with its flag at a byte boundary. */
  method PutStored(out: array<byte>, v: nat, data: seq<byte>, last: bool) returns (q: nat)
    requires v % 8 == 0 && |data| <= 65535 && Clean(out[..], v)
    modifies out
    ensures q == v + 8 * (|data| + 5) == v + |BlockBits(Stored(data), last, v)|
    ensures Grew(old(out[..]), out[..], v, BlockBits(Stored(data), last, v))
  {
    hide Clean, Holds, StreamBit, StoredBytes, ByteBits, Contents;
    ghost var s0 := out[..];
    if last { PutByte(out, v / 8, 1); }
    ghost var s1 := out[..];
    FlagWritten(s0, s1, v, last);
    StoredCost(v, data);
    q := WriteStored(out, v + 1, data);
    FlagFirst(s0, s1, out[..], v, Stored(data), last);
  }

  /** The blocks up to the one marked as last stand for the input. */
  ghost predicate Complete(e: seq<byte>, out: seq<byte>, v: nat, blocks: seq<Block>) {
    && |blocks| > 0 && BlocksOk(blocks) && AllChosen(blocks) && BlocksOut(blocks) == e
    && Holds(out, 0, BlocksBits(blocks, true)) && |BlocksBits(blocks, true)| <= v
  }

  ghost predicate Partial(e: seq<byte>, out: seq<byte>, v: nat, d: nat, blocks: seq<Block>) {
    && d <= |e| && BlocksOk(blocks) && AllChosen(blocks) && BlocksOut(blocks) == e[..d]
    && v == BlocksEnd(blocks) && Holds(out, 0, BlocksBits(blocks, false))
  }

  /** A stored block behind the others. */
  lemma StoredNext(e: seq<byte>, d: nat, d2: nat, blocks: seq<Block>, b: Block)
    requires d <= d2 <= |e| && d2 - d <= 65535 && b == Stored(e[d..d2]) && BlocksOk(blocks) && AllChosen(blocks) && BlocksOut(blocks) == e[..d]
    ensures BlockOk(b) && BlockReaches(BlocksOut(blocks), b) && BlockOut(BlocksOut(blocks), b) == e[..d2] && AllChosen(blocks + [b])
    ensures d2 == |e| ==> e[..d2] == e
  {
    hide BlocksOk, BlocksOut;
    assert e[..d] + e[d..d2] == e[..d2];
  }

  lemma PartialNext(e: seq<byte>, out0: seq<byte>, out1: seq<byte>, v: nat, d: nat, d2: nat, blocks: seq<Block>, b: Block, last: bool)
    requires Partial(e, out0, v, d, blocks) && d <= d2 <= |e| && d2 - d <= 65535 && b == Stored(e[d..d2]) && (last ==> d2 == |e|)
    requires Grew(out0, out1, v, BlockBits(b, last, v))
    ensures if last then Complete(e, out1, v + |BlockBits(b, last, v)|, blocks + [b])
            else Partial(e, out1, v + |BlockBits(b, last, v)|, d2, blocks + [b])
  {
    hide BlockBits, Holds, BlocksBits, BlocksOut, BlocksOk, BlockOk, AllChosen;
    StoredNext(e, d, d2, blocks, b);
    BlocksNext(blocks, b, last);
    HoldsAfter(out0, out1, v, BlockBits(b, last, v), 0, BlocksBits(blocks, false));
    HoldsJoin(out1, 0, BlocksBits(blocks, false), BlockBits(b, last, v));
  }

  lemma NothingPartial(e: seq<byte>, out: seq<byte>)
    requires forall k :: 0 <= k < |out| ==> out[k] == 0
    ensures Partial(e, out, 0, 0, []) && Clean(out, 0)
  {
    NothingSent(e, out);
  }

  ghost predicate Progress(e: seq<byte>, out: seq<byte>, v: nat, d: nat, blocks: seq<Block>, done: bool) {
    if done then d >= |e| && Complete(e, out, v, blocks) else d <= |e| && Partial(e, out, v, d, blocks)
  }

  /** Every block holds the next 65535 bytes, the last one what is left. */
  ghost predicate AllStored(e: seq<byte>, blocks: seq<Block>) {
    forall k :: 0 <= k < |blocks| ==> StoredAt(e, blocks[k], 65535 * k)
  }

  ghost predicate StoredAt(e: seq<byte>, b: Block, d: nat) {
    d <= |e| && b == Stored(e[d..Min(d + 65535, |e|)])
  }

  lemma StoredMore(e: seq<byte>, blocks: seq<Block>, b: Block)
    requires AllStored(e, blocks) && StoredAt(e, b, 65535 * |blocks|)
    ensures AllStored(e, blocks + [b])
  {
    hide StoredAt;
    var all := blocks + [b];
    forall k | 0 <= k < |all| ensures StoredAt(e, all[k], 65535 * k) {
      if k < |blocks| { assert all[k] == blocks[k]; }
    }
  }

  /** Store the next 65535 bytes, or what is left. */
  method StoreOne(e: seq<byte>, out: array<byte>, v0: nat, d: nat, ghost blocks0: seq<Block>, ghost done0: bool)
    returns (v: nat, ghost blocks: seq<Block>, ghost done: bool)
    requires v0 % 8 == 0 && Clean(out[..], v0) && d <= |e| && Progress(e, out[..], v0, d, blocks0, done0)
    requires AllStored(e, blocks0) && (!done0 ==> d == 65535 * |blocks0|)
    modifies out
    ensures v == v0 + 8 * ((if d + 65535 >= |e| then |e| else d + 65535) - d + 5) && Clean(out[..], v)
    ensures Progress(e, out[..], v, d + 65535, blocks, done)
    ensures AllStored(e, blocks) && (!done ==> d + 65535 == 65535 * |blocks|)
  {
    hide AllStored, Clean, Holds, StreamBit, BlocksBits, BlockBits, BlocksOut, BlocksOk, Partial, Complete;
    ghost var out0 := out[..];
    var oe := d + 65535;
    var last := oe >= |e|;
    if last { oe := |e|; }
    v := PutStored(out, v0, e[d..oe], last);
    GrewClean(out0, out[..], v0, BlockBits(Stored(e[d..oe]), last, v0));
    blocks, done := blocks0, true;
    if done0 {
      CompleteStays(e, out0, out[..], v0, v, blocks, BlockBits(Stored(e[d..oe]), last, v0));
    } else {
      PartialNext(e, out0, out[..], v0, d, oe, blocks, Stored(e[d..oe]), last);
      StoredMore(e, blocks, Stored(e[d..oe]));
      blocks, done := blocks0 + [Stored(e[d..oe])], last;
    }
  }

  /** Level 0: stored blocks of 65535 bytes.  An input whose length is a multiple of 65535 gets
      another empty block, also marked as the last, behind the one that completes it. */
  method DeflateStored(e: seq<byte>) returns (stream: seq<byte>, ghost blocks: seq<Block>)
    ensures |blocks| > 0 && AllStored(e, blocks)
    ensures IsStreamOf(stream, blocks) && AllChosen(blocks) && BlocksOut(blocks) == e && |stream| <= Capacity(|e|)
  {
    hide *;
    CapacityIs(|e|);
    var out := new byte[Capacity(|e|)](_ => 0);
    var v: nat, d: nat := 0, 0;
    blocks := [];
    ghost var done, k: nat := false, 0;
    StoredStart(e, out[..]);
    while d < |e| + 1
      invariant v % 8 == 0 && Clean(out[..], v) && d == 65535 * k && d <= |e| + 65535
      invariant v == 8 * ((if d < |e| then d else |e|) + 5 * k)
      invariant Progress(e, out[..], v, d, blocks, done)
      invariant AllStored(e, blocks) && (!done ==> d == 65535 * |blocks|)
    {
      v, blocks, done := StoreOne(e, out, v, d, blocks, done);
      d := d + 65535;
      k := k + 1;
    }
    StoredEnd(e, out[..], v, d, k, blocks, done);
    stream := out[..ByteCount(v)];
    assert stream == out[..][..ByteCount(v)];
    CompleteStream(e, out[..], v, blocks);
  }

  lemma CapacityIs(n: nat)
    ensures Capacity(n) == n + 5 * (1 + (n + 6999) / 7000)
  {
  }

  lemma StoredStart(e: seq<byte>, out: seq<byte>)
    requires forall k :: 0 <= k < |out| ==> out[k] == 0
    ensures Progress(e, out, 0, 0, [], false) && AllStored(e, []) && Clean(out, 0)
  {
    hide Partial, Clean;
    NothingPartial(e, out);
  }

  /** All bytes have been stored, within the space set aside. */
  lemma StoredEnd(e: seq<byte>, out: seq<byte>, v: nat, d: nat, k: nat, blocks: seq<Block>, done: bool)
    requires |e| < d == 65535 * k <= |e| + 65535 && v == 8 * (|e| + 5 * k) && Progress(e, out, v, d, blocks, done)
    requires |out| == Capacity(|e|)
    ensures Complete(e, out, v, blocks) && ByteCount(v) == |e| + 5 * k <= Capacity(|e|) && |blocks| > 0
  {
    hide BlocksOk, AllChosen, BlocksOut, BlocksBits, Holds;
    assert 65535 * (k - 1) <= |e|;
  }

  lemma GrewClean(s0: seq<byte>, s1: seq<byte>, v: nat, bits: seq<bool>)
    requires Grew(s0, s1, v, bits)
    ensures Clean(s1, v + |bits|)
  {
  }

  lemma CompleteStays(e: seq<byte>, out0: seq<byte>, out1: seq<byte>, v0: nat, v: nat, blocks: seq<Block>, bits: seq<bool>)
    requires Complete(e, out0, v0, blocks) && Grew(out0, out1, v0, bits) && v0 <= v
    ensures Complete(e, out1, v, blocks)
  {
    HoldsAfter(out0, out1, v0, bits, 0, BlocksBits(blocks, true));
  }

  lemma CompleteStream(e: seq<byte>, out: seq<byte>, v: nat, blocks: seq<Block>)
    requires Complete(e, out, v, blocks) && ByteCount(v) <= |out|
    ensures IsStreamOf(out[..ByteCount(v)], blocks) && AllChosen(blocks) && BlocksOut(blocks) == e
  {
    PrefixHolds(out, 0, BlocksBits(blocks, true), ByteCount(v));
  }

  // -------- all levels, and back -------------------------------------------------------

  /** Compress at any level from 0 to 9, with a hash of any width.  The result fits the space set
      aside for it, and is a stream of blocks that stand for the input. */
  method Deflate(e: seq<byte>, level: nat, bits: nat) returns (stream: seq<byte>, ghost blocks: seq<Block>)
    requires level <= 9
    ensures level > 0 ==> AllSought(e, blocks, WayOf(level, bits)) && AllThrifty(e, blocks, bits)
    ensures |blocks| > 0 && (level > 0 ==> AllFull(blocks[..|blocks| - 1])) && (level == 0 ==> AllStored(e, blocks))
    ensures IsStreamOf(stream, blocks) && AllChosen(blocks) && BlocksOut(blocks) == e && |stream| <= Capacity(|e|)
  {
    if level == 0 {
      stream, blocks := DeflateStored(e);
    } else {
      stream, blocks := DeflateCoded(e, level, bits);
    }
  }

  /** Blocks as short as the compressor's never overrun the decompressor's buffer. */
  lemma NothingLost(n: nat, blocks: seq<Block>)
    requires BlocksOk(blocks) && AllChosen(blocks)
    ensures OutBuffer.Kept(n, blocks)
  {
    hide BlockOk, BlocksOk, OutBuffer.Kept, OutBuffer.Roomy;
    forall k | 0 <= k < |blocks| && !blocks[k].Stored? ensures OutBuffer.Roomy(blocks[k].syms) {
      assert Chosen(blocks[k]);
      BlocksStep(blocks, k, false);
      OutBuffer.CopiesShort(blocks[k]);
      OutBuffer.FewRoomy(blocks[k].syms);
    }
    OutBuffer.RoomyKept(n, blocks);
  }

  /** Compressing and decompressing gives back the input, whatever it is and at every level. */
  method RoundTrip(e: seq<byte>, level: nat, bits: nat) returns (stream: seq<byte>, back: Inflate.Result)
    requires level <= 9
    ensures back == Inflate.Ok(e) && |stream| <= Capacity(|e|)
  {
    ghost var blocks;
    stream, blocks := Deflate(e, level, bits);
    back := Inflate.Inflate(stream, blocks);
    NothingLost(|stream|, blocks);
  }
}
