/**
 The decompressor.  It takes any bytes; on a stream of the format it returns what the stream's
 blocks stand for.  Output goes into a buffer that is enlarged only at block starts and before
 copies, and a store past its end is lost, as on any typed array.
 */
module Inflate {
  import opened Bits
  import opened BitStream
  import opened Canonical
  import opened RunLength
  import opened Lz77
  import opened Format
  import opened OutBuffer

  /** The errors of the codec that decoding can raise. */
  datatype Error = UnexpectedEnd | InvalidBlockType | InvalidSymbol | InvalidDistance

  datatype Result = Ok(out: seq<byte>) | Err(error: Error)

  // -------- one symbol -----------------------------------------------------------------

  /** What the decoder finds next.  A distance of 0 stands for the code 31, which has no distance. */
  datatype Step = Plain(s: Symbol) | Finish | Fail(error: Error)

  ghost predicate StepCoded(lit: seq<nat>, dist: seq<nat>, st: Step) {
    match st
    case Plain(s) => Coded(lit, dist, s)
    case Finish => END_OF_BLOCK < |lit| && lit[END_OF_BLOCK] > 0
    case Fail(_) => false
  }

  ghost function StepBits(lit: seq<nat>, dist: seq<nat>, st: Step): seq<bool>
    requires StepCoded(lit, dist, st)
  {
    if st.Plain? then SymBits(lit, dist, st.s) else CodeBits(lit, END_OF_BLOCK)
  }

  /** The stream has st at position b. */
  ghost predicate StepShown(data: seq<byte>, b: nat, lit: seq<nat>, dist: seq<nat>, st: Step) {
    && StepCoded(lit, dist, st)
    && Holds(data, b, StepBits(lit, dist, st))
    && b + |StepBits(lit, dist, st)| <= 8 * |data|
  }

  /** A decoding table for a prefix code. */
  ghost predicate TableFor(table: seq<nat>, lens: seq<nat>, t: nat) {
    LengthsUpTo(lens, t) && t <= 15 && Decodes(table, lens, t)
  }

  /** The stream has the code of a at b, and the table is for that code. */
  ghost predicate HasCode(data: seq<byte>, b: nat, table: seq<nat>, lens: seq<nat>, t: nat, a: nat) {
    && TableFor(table, lens, t) && a < |lens| && lens[a] > 0
    && Holds(data, b, CodeBits(lens, a)) && b + lens[a] <= 8 * |data|
  }

  /** Looking up a window finds the code the stream has there. */
  lemma Lookup(data: seq<byte>, b: nat, table: seq<nat>, lens: seq<nat>, t: nat, a: nat)
    requires HasCode(data, b, table, lens, t, a)
    ensures Low(Peek3(data, b), t) < |table| && table[Low(Peek3(data, b), t)] == 16 * a + lens[a]
  {
    var w := Low(Peek3(data, b), t);
    LowBound(Peek3(data, b), t);
    forall i | 0 <= i < lens[a] ensures BitAt(w, i) == CodeBits(lens, a)[i] {
      LowBit(Peek3(data, b), t, i);
      Peek3Bit(data, b, i);
      assert StreamBit(data, b + i) == CodeBits(lens, a)[i];
    }
    assert Shows(lens, a, w);
  }

  /** Read the entry of the table for the bits at b. */
  method ReadCode(data: seq<byte>, b: nat, table: array<nat>, t: nat, ghost n: nat, ghost lens: seq<nat>, ghost a: nat)
    returns (x: nat)
    requires t <= 15 && table.Length == Pow2(t) && EntriesOk(table[..], n, t)
    ensures x == 0 || (1 <= x % 16 <= t && x / 16 < n)
    ensures var w := Low(Peek3(data, b), t); w < table.Length && x == table[w]
    ensures HasCode(data, b, table[..], lens, t, a) ==> x % 16 == lens[a] && x / 16 == a
  {
    LowBound(Peek3(data, b), t);
    x := table[Low(Peek3(data, b), t)];
    assert x == table[..][Low(Peek3(data, b), t)];
    if HasCode(data, b, table[..], lens, t, a) {
      Lookup(data, b, table[..], lens, t, a);
    }
  }


  /** The table has the shape DecodeTable gives it. */
  ghost predicate TableShape(table: seq<nat>, n: nat, t: nat) {
    t <= 15 && |table| == Pow2(t) && EntriesOk(table, n, t)
  }

  lemma ShortLengths(code: nat)
    requires code < 8
    ensures LenBase(code) == code + 3
  {
    assert LenBase(3) == 6 && LenBase(5) == 8;
    assert LenBase(7) == 10;
  }

  /** The stream has a copy at p, with this length code. */
  ghost predicate CopyShown(data: seq<byte>, p: nat, lit: seq<nat>, dist: seq<nat>, s: Symbol, code: nat) {
    && s.Copy? && Coded(lit, dist, s) && code == LenCode(s.len)
    && Holds(data, p, SymBits(lit, dist, s)) && p + |SymBits(lit, dist, s)| <= 8 * |data|
  }

  /** The extra values of a copy fit their widths, which the readers can deliver. */
  lemma CopyFits(s: Symbol)
    requires s.Copy? && 3 <= s.len <= 258 && 1 <= s.dist <= 32768
    ensures var lc, dc := LenCode(s.len), DistCode(s.dist);
            && lc <= 28 && LenBase(lc) <= s.len && s.len - LenBase(lc) < Pow2(LenExtra(lc)) && LenExtra(lc) <= 5
            && dc <= 29 && DistBase(dc) <= s.dist && s.dist - DistBase(dc) < Pow2(DistExtra(dc)) && DistExtra(dc) <= 13
            && (lc < 8 ==> s.len == LenBase(lc)) && (dc < 4 ==> s.dist == DistBase(dc))
  {
    hide LenCode, DistCode, LenBase, DistBase;
    LenCodeOk(s.len);
    DistCodeOk(s.dist);
    assert Pow2(0) == 1;
  }

  /** The stream has the extra bits of this length, or distance, at b. */
  ghost predicate LengthShown(data: seq<byte>, b: nat, code: nat, len: nat) {
    && 3 <= len <= 258 && code == LenCode(len) && LenBase(code) <= len && b + LenExtra(code) <= 8 * |data|
    && Holds(data, b, ToBits(len - LenBase(code), LenExtra(code)))
  }

  ghost predicate DistanceShown(data: seq<byte>, b: nat, code: nat, d: nat) {
    && 1 <= d <= 32768 && code == DistCode(d) && DistBase(code) <= d && b + DistExtra(code) <= 8 * |data|
    && Holds(data, b, ToBits(d - DistBase(code), DistExtra(code)))
  }

  /** The length of a copy from its code and extra bits; short lengths follow from the code. */
  method ReadLength(tb: Tables, data: seq<byte>, b0: nat, code: nat, ghost want: nat) returns (len: nat, b: nat)
    requires code <= 30 && TablesOk(tb)
    ensures b0 <= b
    ensures LengthShown(data, b0, code, want) ==> len == want && b == b0 + LenExtra(code)
  {
    hide LenCode, DistCode, DistBase, LenBase, TablesOk;
    BasesOf(tb, code);
    ghost var ok := LengthShown(data, b0, code, want);
    if ok { CopyFits(Copy(want, 1)); }
    if code > 7 {
      var ne := LENGTH_EXTRA[code];
      ExtraTables(code);
      len := Read2(data, b0, ne) + tb.lenBase[code];
      if ok { Read2Value(data, b0, want - LenBase(code), ne); }
      b := b0 + ne;
    } else {
      len, b := code + 3, b0;
      ShortLengths(code);
    }
  }

  /** The distance of a copy from its code and extra bits. */
  method ReadDistance(tb: Tables, data: seq<byte>, b0: nat, code: nat, ghost want: nat) returns (d: nat, b: nat)
    requires code <= 31 && TablesOk(tb)
    ensures b0 <= b
    ensures DistanceShown(data, b0, code, want) ==> d == want && b == b0 + DistExtra(code)
  {
    hide LenCode, DistCode, DistBase, LenBase, Peek3, Low, DistExtra, DistanceShown, TablesOk;
    BasesOf(tb, code);
    ghost var ok := DistanceShown(data, b0, code, want);
    d, b := if code == 31 then 0 else tb.distBase[code], b0;
    if code > 3 {
      var ne := DIST_EXTRA[code];
      ExtraTables(code);
      if ok { FarDistance(data, b0, code, want); }
      d := if code == 31 then 0 else d + Low(Peek3(data, b0), ne);
      b := b0 + ne;
    } else if ok {
      NearDistance(data, b0, code, want);
    }
  }

  lemma FarDistance(data: seq<byte>, b0: nat, code: nat, want: nat)
    requires DistanceShown(data, b0, code, want)
    ensures code <= 29 && want == DistBase(code) + Low(Peek3(data, b0), DistExtra(code))
  {
    hide DistCode, DistBase, DistExtra, Peek3, Low, Holds, Pow2, ToBits;
    CopyFits(Copy(3, want));
    Peek3Value(data, b0, want - DistBase(code), DistExtra(code));
  }

  lemma NearDistance(data: seq<byte>, b0: nat, code: nat, want: nat)
    requires DistanceShown(data, b0, code, want) && code <= 3
    ensures want == DistBase(code) && DistExtra(code) == 0
  {
    hide DistCode, DistBase, Holds, Pow2, ToBits;
    CopyFits(Copy(3, want));
  }

  /** The rest of a copy whose length code has been read: extra bits, distance code, extra bits. */
  method ReadCopy(tb: Tables, data: seq<byte>, b0: nat, code: nat, dt: array<nat>, z: nat,
                  ghost lit: seq<nat>, ghost dist: seq<nat>, ghost want: Symbol, ghost p: nat)
    returns (st: Step, b: nat)
    requires code <= 30 && TableShape(dt[..], 32, z) && TablesOk(tb)
    ensures st.Fail? || (st.Plain? && st.s.Copy? && b0 < b <= 8 * |data|)
    ensures st.Fail? ==> st.error == InvalidDistance || (st.error == UnexpectedEnd && b > 8 * |data|)
    ensures TableFor(dt[..], dist, z) && CopyShown(data, p, lit, dist, want, code) && b0 == p + lit[257 + code] ==>
              st == Plain(want) && b == p + |SymBits(lit, dist, want)|
  {
    hide LenCode, DistCode, LenBase, DistBase, LenExtra, DistExtra, CodeBits, SymBits, Holds, Decodes, TablesOk, Peek3, Low, Read2, EntriesOk;
    ghost var ok := TableFor(dt[..], dist, z) && CopyShown(data, p, lit, dist, want, code) && b0 == p + lit[257 + code];
    if ok { CopyParts(data, p, lit, dist, want); }
    var len;
    len, b := ReadLength(tb, data, b0, code, if ok then want.len else 0);
    var x := ReadCode(data, b, dt, z, 32, dist, if ok then DistCode(want.dist) else 0);
    if x == 0 { return Fail(InvalidDistance), b; }
    var d;
    d, b := ReadDistance(tb, data, b + x % 16, x / 16, if ok then want.dist else 0);
    if b > 8 * |data| { return Fail(UnexpectedEnd), b; }
    st := Plain(Copy(len, d));
  }

  ghost function MainCode(st: Step): nat {
    match st
    case Plain(Lit(b)) => b
    case Plain(Copy(len, _)) => 257 + LenCode(len)
    case _ => END_OF_BLOCK
  }

  /** Every step begins with the code of its main symbol. */
  lemma MainCodeShown(data: seq<byte>, b: nat, lit: seq<nat>, dist: seq<nat>, st: Step)
    requires StepShown(data, b, lit, dist, st)
    ensures MainCode(st) < |lit| && lit[MainCode(st)] > 0 && Holds(data, b, CodeBits(lit, MainCode(st)))
    ensures b + lit[MainCode(st)] <= b + |StepBits(lit, dist, st)|
  {
    hide LenCode, DistCode, LenBase, DistBase, LenExtra, DistExtra, CodeBits, Holds;
    if st.Plain? && st.s.Copy? { CopyParts(data, b, lit, dist, st.s); }
  }

  /** When and how reading a symbol fails: beyond the end of the data, at bits that are no code, or
      at a distance that is none. */
  ghost predicate Refused(data: seq<byte>, b0: nat, b: nat, table: seq<nat>, t: nat, st: Step) {
    var w := Low(Peek3(data, b0), t);
    w < |table| &&
    if b0 + table[w] % 16 > 8 * |data| then st == Fail(UnexpectedEnd)
    else if table[w] == 0 then st == Fail(InvalidSymbol)
    else if table[w] / 16 < END_OF_BLOCK then st == Plain(Lit(table[w] / 16))
    else if table[w] / 16 == END_OF_BLOCK then st == Finish
    else st.Fail? ==> st.error == InvalidDistance || (st.error == UnexpectedEnd && b > 8 * |data|)
  }

  /** Read one literal, copy or end of block at b0. */
  method ReadStep(tb: Tables, data: seq<byte>, b0: nat, lt: array<nat>, j: nat, dt: array<nat>, z: nat,
                  ghost lit: seq<nat>, ghost dist: seq<nat>, ghost want: Step)
    returns (st: Step, b: nat)
    requires TableShape(lt[..], 288, j) && TableShape(dt[..], 32, z) && TablesOk(tb)
    ensures st.Fail? || b0 < b <= 8 * |data|
    ensures Refused(data, b0, b, lt[..], j, st)
    ensures TableFor(lt[..], lit, j) && TableFor(dt[..], dist, z) && StepShown(data, b0, lit, dist, want) ==>
              st == want && b == b0 + |StepBits(lit, dist, want)|
  {
    hide *;
    ghost var lts := lt[..];
    ghost var ok := TableFor(lts, lit, j) && TableFor(dt[..], dist, z) && StepShown(data, b0, lit, dist, want);
    ShapeParts(lts, 288, j);
    EndMark();
    if ok { MainCodeRead(data, b0, lts, j, lit, dist, want); }
    var x := ReadCode(data, b0, lt, j, 288, lit, MainCode(want));
    b := b0 + x % 16;
    if b > 8 * |data| {
      RefusedBy(data, b0, b, lts, j, x, Fail(UnexpectedEnd));
      return Fail(UnexpectedEnd), b;
    }
    if x == 0 {
      RefusedBy(data, b0, b, lts, j, x, Fail(InvalidSymbol));
      return Fail(InvalidSymbol), b;
    }
    var ee := x / 16;
    if ee < 256 {
      st := Plain(Lit(ee));
    } else if ee == END_OF_BLOCK {
      st := Finish;
    } else {
      st, b := ReadCopy(tb, data, b, ee - 257, dt, z, lit, dist, if want.Plain? then want.s else Lit(0), b0);
    }
    RefusedBy(data, b0, b, lts, j, x, st);
  }

  lemma EndMark()
    ensures END_OF_BLOCK == 256
  {
  }

  lemma ShapeParts(table: seq<nat>, n: nat, t: nat)
    requires TableShape(table, n, t)
    ensures t <= 15 && |table| == Pow2(t) && EntriesOk(table, n, t)
  {
  }

  lemma RefusedBy(data: seq<byte>, b0: nat, b: nat, table: seq<nat>, t: nat, x: nat, st: Step)
    requires var w := Low(Peek3(data, b0), t); w < |table| && x == table[w]
    requires if b0 + x % 16 > 8 * |data| then st == Fail(UnexpectedEnd)
             else if x == 0 then st == Fail(InvalidSymbol)
             else if x / 16 < END_OF_BLOCK then st == Plain(Lit(x / 16))
             else if x / 16 == END_OF_BLOCK then st == Finish
             else st.Fail? ==> st.error == InvalidDistance || (st.error == UnexpectedEnd && b > 8 * |data|)
    ensures Refused(data, b0, b, table, t, st)
  {
    hide Peek3, Low;
  }

  /** What the main code says of the step, and that it is there to be read. */
  lemma MainCodeRead(data: seq<byte>, b: nat, table: seq<nat>, t: nat, lit: seq<nat>, dist: seq<nat>, st: Step)
    requires TableFor(table, lit, t) && StepShown(data, b, lit, dist, st)
    ensures var a := MainCode(st);
            && HasCode(data, b, table, lit, t, a) && 0 < lit[a] <= 15 && b + lit[a] <= 8 * |data|
            && (a < END_OF_BLOCK ==> st == Plain(Lit(a)) && |StepBits(lit, dist, st)| == lit[a])
            && (a == END_OF_BLOCK ==> st == Finish && |StepBits(lit, dist, st)| == lit[a])
            && (a > END_OF_BLOCK ==> st.Plain? && CopyShown(data, b, lit, dist, st.s, a - 257) && StepBits(lit, dist, st) == SymBits(lit, dist, st.s))
  {
    hide LenCode, DistCode, LenBase, DistBase, LenExtra, DistExtra, CodeBits, Holds, Decodes, Peek3, Low, Pow2;
    MainCodeShown(data, b, lit, dist, st);
    assert LengthsUpTo(lit, t);
  }

  // -------- the output buffer ----------------------------------------------------------

  /** Make room for n bytes. */
  method Grow(r: array<byte>, n: nat) returns (r2: array<byte>)
    ensures r2 == r || fresh(r2)
    ensures r2.Length == Enlarged(r.Length, n) && r2[..r.Length] == old(r[..])
    ensures forall k :: r.Length <= k < r2.Length ==> r2[k] == 0
  {
    if n > r.Length {
      var size := if 2 * r.Length > n then 2 * r.Length else n;
      r2 := new byte[size](k requires 0 <= k reads r => if k < r.Length then r[k] else 0);
    } else {
      r2 := r;
    }
  }

  /** Append len bytes at y, each the one dist places back; a distance of 0 supplies zeros. */
  method CopyWithin(r: array<byte>, y0: nat, len: nat, dist: nat) returns (y: nat)
    requires dist <= y0
    modifies r
    ensures y == y0 + len
    ensures 1 <= dist && y <= r.Length ==> r[..y] == CopyTo(old(r[..])[..y0], len, dist)
  {
    ghost var out := if y0 <= r.Length then r[..y0] else [];
    y := y0;
    while y < y0 + len
      invariant y0 <= y <= y0 + len
      invariant 1 <= dist && y0 + len <= r.Length ==> CopyTo(r[..y], y0 + len - y, dist) == CopyTo(out, len, dist)
    {
      var v: byte := if dist == 0 || y - dist >= r.Length then 0 else r[y - dist];
      ghost var before := if y <= r.Length then r[..y] else [];
      if y < r.Length { r[y] := v; }
      if 1 <= dist && y0 + len <= r.Length {
        assert r[..y + 1] == before + [before[|before| - dist]];
      }
      y := y + 1;
    }
    if 1 <= dist && y <= r.Length { assert CopyTo(r[..y], 0, dist) == r[..y]; }
  }

  // -------- the symbols of a block -----------------------------------------------------

  /** The body of a block at b: codes that can send its symbols, the symbols, the end mark. */
  ghost predicate BodyShown(data: seq<byte>, b: nat, lit: seq<nat>, dist: seq<nat>, syms: seq<Symbol>) {
    && AllCoded(lit, dist, syms) && END_OF_BLOCK < |lit| && lit[END_OF_BLOCK] > 0
    && Holds(data, b, BodyBits(lit, dist, syms))
    && b + |BodyBits(lit, dist, syms)| <= 8 * |data|
  }

  ghost function Wanted(syms: seq<Symbol>, k: nat): Step {
    if k < |syms| then Plain(syms[k]) else Finish
  }

  lemma BodyStep(data: seq<byte>, b: nat, lit: seq<nat>, dist: seq<nat>, syms: seq<Symbol>, k: nat)
    requires BodyShown(data, b, lit, dist, syms) && k <= |syms|
    ensures StepShown(data, b + |SymsBits(lit, dist, syms[..k])|, lit, dist, Wanted(syms, k))
    ensures k < |syms| ==> |SymsBits(lit, dist, syms[..k + 1])| == |SymsBits(lit, dist, syms[..k])| + |SymBits(lit, dist, syms[k])|
    ensures k == |syms| ==> |BodyBits(lit, dist, syms)| == |SymsBits(lit, dist, syms[..k])| + lit[END_OF_BLOCK]
  {
    hide SymsBits, SymBits, Coded, Holds, CodeBits;
    HoldsSplit(data, b, SymsBits(lit, dist, syms), CodeBits(lit, END_OF_BLOCK));
    if k < |syms| {
      SymsAt(data, b, lit, dist, syms, k);
    } else {
      assert syms[..k] == syms;
    }
  }

  /** What the loop over symbols keeps: k symbols read, and the buffer in step with the bytes they
      stand for and with the extent that follows from them. */
  ghost predicate BodyState(data: seq<byte>, b0: nat, b: nat, lit: seq<nat>, dist: seq<nat>, syms: seq<Symbol>,
                            before: seq<byte>, m: Extent, k: nat, r: seq<byte>, y: nat)
    requires BodyShown(data, b0, lit, dist, syms)
  {
    && k <= |syms| && b == b0 + |SymsBits(lit, dist, syms[..k])|
    && Tracks(r, y, Replay(before, syms[..k]), AfterSymbols(m, syms[..k]))
  }

  lemma BodyStart(data: seq<byte>, b0: nat, lit: seq<nat>, dist: seq<nat>, syms: seq<Symbol>, before: seq<byte>, m: Extent, r: seq<byte>, y: nat)
    requires BodyShown(data, b0, lit, dist, syms) && Tracks(r, y, before, m)
    ensures BodyState(data, b0, b0, lit, dist, syms, before, m, 0, r, y)
  {
    hide Tracks, BodyBits;
  }

  /** One literal, stored if it falls inside. */
  lemma LiteralKeeps(data: seq<byte>, b0: nat, b: nat, lit: seq<nat>, dist: seq<nat>, syms: seq<Symbol>,
                     before: seq<byte>, m: Extent, k: nat, r: seq<byte>, y: nat, b2: nat)
    requires BodyShown(data, b0, lit, dist, syms) && BodyState(data, b0, b, lit, dist, syms, before, m, k, r, y)
    requires k < |syms| && syms[k].Lit? && b2 == b + |SymBits(lit, dist, syms[k])|
    ensures BodyState(data, b0, b2, lit, dist, syms, before, m, k + 1, if y < |r| then r[y := syms[k].b] else r, y + 1)
  {
    hide SymsBits, SymBits, Coded, Holds, CodeBits, Tracks;
    BodyStep(data, b0, lit, dist, syms, k);
    assert syms[..k + 1][..k] == syms[..k];
    LiteralTracks(r, y, Replay(before, syms[..k]), AfterSymbols(m, syms[..k]), syms[k].b, if y < |r| then r[y := syms[k].b] else r);
  }

  lemma BodyNext(data: seq<byte>, b0: nat, b: nat, lit: seq<nat>, dist: seq<nat>, syms: seq<Symbol>,
                 before: seq<byte>, m: Extent, k: nat, r: seq<byte>, y: nat)
    requires BodyShown(data, b0, lit, dist, syms) && BodyState(data, b0, b, lit, dist, syms, before, m, k, r, y)
    ensures k <= |syms| && y == |Replay(before, syms[..k])| && StepShown(data, b, lit, dist, Wanted(syms, k))
  {
    hide SymsBits, SymBits, Coded, Holds, CodeBits, Replay, StepShown, AfterSymbols, Agrees;
    BodyStep(data, b0, lit, dist, syms, k);
  }

  /** One copy carried out in the room made for it. */
  lemma CopyKeeps(data: seq<byte>, b0: nat, b: nat, lit: seq<nat>, dist: seq<nat>, syms: seq<Symbol>,
                  before: seq<byte>, m: Extent, k: nat, r: seq<byte>, y: nat, b2: nat, r1: seq<byte>, r2: seq<byte>)
    requires BodyShown(data, b0, lit, dist, syms) && BodyState(data, b0, b, lit, dist, syms, before, m, k, r, y)
    requires k < |syms| && syms[k].Copy? && b2 == b + |SymBits(lit, dist, syms[k])|
    requires 1 <= syms[k].dist <= y && syms[k].len <= 258
    requires |r1| == Enlarged(|r|, y + ROOM) == |r2| && r1[..|r|] == r && forall p :: |r| <= p < |r1| ==> r1[p] == 0
    requires r2[..y + syms[k].len] == CopyTo(r1[..y], syms[k].len, syms[k].dist)
    ensures BodyState(data, b0, b2, lit, dist, syms, before, m, k + 1, r2, y + syms[k].len)
  {
    hide SymsBits, SymBits, Coded, Holds, CodeBits, Tracks, CopyTo, Enlarged;
    BodyStep(data, b0, lit, dist, syms, k);
    assert syms[..k + 1][..k] == syms[..k];
    var out, m1 := Replay(before, syms[..k]), AfterSymbols(m, syms[..k]);
    GrownTracks(r, y, out, m1, ROOM, r1);
    CopyTracks(r1, y, out, Asked(m1, ROOM), syms[k].len, syms[k].dist, r2);
  }

  lemma CopySane(before: seq<byte>, syms: seq<Symbol>, k: nat)
    requires SymbolsOk(before, syms) && k < |syms| && syms[k].Copy?
    ensures 1 <= syms[k].dist <= |Replay(before, syms[..k])| && syms[k].len <= 258
  {
    SymbolsPrefix(before, syms, k);
  }

  datatype Outcome = Done | Failed(error: Error)

  lemma BodyDone(data: seq<byte>, b0: nat, b: nat, lit: seq<nat>, dist: seq<nat>, syms: seq<Symbol>,
                 before: seq<byte>, m: Extent, k: nat, r: seq<byte>, y: nat)
    requires BodyShown(data, b0, lit, dist, syms) && BodyState(data, b0, b, lit, dist, syms, before, m, k, r, y) && k == |syms|
    ensures Tracks(r, y, Replay(before, syms), AfterSymbols(m, syms)) && b + lit[END_OF_BLOCK] == b0 + |BodyBits(lit, dist, syms)|
  {
    hide SymsBits, SymBits, Coded, Holds, CodeBits, Replay, Tracks, AfterSymbols;
    assert syms[..k] == syms;
    BodyStep(data, b0, lit, dist, syms, k);
  }

  /** A copy, in a buffer made large enough first. */
  method BodyCopy(r0: array<byte>, y0: nat, len: nat, d: nat, ghost data: seq<byte>, ghost b0: nat, ghost b: nat, ghost b2: nat,
                  ghost lit: seq<nat>, ghost dist: seq<nat>, ghost syms: seq<Symbol>, ghost before: seq<byte>, ghost m: Extent, ghost k: nat, ghost ok: bool)
    returns (r: array<byte>, y: nat, near: bool)
    requires ok ==> BodyShown(data, b0, lit, dist, syms) && BodyState(data, b0, b, lit, dist, syms, before, m, k, r0[..], y0)
    requires ok ==> SymbolsOk(before, syms) && k < |syms| && syms[k] == Copy(len, d) && b2 == b + |SymBits(lit, dist, syms[k])|
    modifies r0
    ensures r == r0 || fresh(r)
    ensures near <==> d <= y0
    ensures ok ==> near && BodyState(data, b0, b2, lit, dist, syms, before, m, k + 1, r[..], y)
  {
    hide SymsBits, SymBits, BodyShown, BodyState, StepShown, CopyTo, SymbolsOk, Replay;
    ghost var rk := r0[..];
    if ok {
      CopySane(before, syms, k);
      BodyNext(data, b0, b, lit, dist, syms, before, m, k, rk, y0);
    }
    y := y0;
    r := Grow(r0, y + ROOM);
    ghost var r1 := r[..];
    assert r1[..|rk|] == rk;
    if y < d { return r, y, false; }
    y := CopyWithin(r, y, len, d);
    near := true;
    if ok { CopyKeeps(data, b0, b, lit, dist, syms, before, m, k, rk, y0, b2, r1, r[..]); }
  }

  /** The symbols of one block, up to its end mark. */
  method InflateBody(tb: Tables, data: seq<byte>, b0: nat, lt: array<nat>, j: nat, dt: array<nat>, z: nat, r0: array<byte>, y0: nat,
                     ghost lit: seq<nat>, ghost dist: seq<nat>, ghost syms: seq<Symbol>, ghost before: seq<byte>, ghost m: Extent)
    returns (r: array<byte>, y: nat, b: nat, res: Outcome)
    requires TableShape(lt[..], 288, j) && TableShape(dt[..], 32, z) && TablesOk(tb)
    modifies r0
    ensures r == r0 || fresh(r)
    ensures res.Done? ==> b0 < b <= 8 * |data|
    ensures res != Failed(InvalidBlockType)
    ensures TableFor(old(lt[..]), lit, j) && TableFor(old(dt[..]), dist, z) && BodyShown(data, b0, lit, dist, syms)
      && Tracks(old(r0[..]), y0, before, m) && SymbolsOk(before, syms)
      ==> res.Done? && b == b0 + |BodyBits(lit, dist, syms)| && Tracks(r[..], y, Replay(before, syms), AfterSymbols(m, syms))
  {
    hide SymsBits, SymBits, Coded, Holds, CodeBits, Decodes, EntriesOk, CopyTo, BodyState, SymbolsOk, Replay, BodyShown, TablesOk, Tracks, AfterSymbols;
    ghost var lts, dts := lt[..], dt[..];
    ghost var ok := TableFor(lts, lit, j) && TableFor(dts, dist, z) && BodyShown(data, b0, lit, dist, syms)
      && Tracks(r0[..], y0, before, m) && SymbolsOk(before, syms);
    ghost var k := 0;
    r, y, b := r0, y0, b0;
    if ok { BodyStart(data, b0, lit, dist, syms, before, m, r[..], y); }
    while true
      invariant (r == r0 || fresh(r)) && lt[..] == lts && dt[..] == dts
      invariant b0 <= b <= 8 * |data| || b == b0
      invariant ok ==> BodyState(data, b0, b, lit, dist, syms, before, m, k, r[..], y)
      decreases 8 * |data| - b
    {
      ghost var bk := b;
      if ok { BodyNext(data, b0, b, lit, dist, syms, before, m, k, r[..], y); }
      var st;
      st, b := ReadStep(tb, data, b, lt, j, dt, z, lit, dist, Wanted(syms, k));
      match st {
        case Fail(e) => return r, y, b, Failed(e);
        case Finish =>
          if ok { BodyDone(data, b0, bk, lit, dist, syms, before, m, k, r[..], y); }
          return r, y, b, Done;
        case Plain(Lit(v)) =>
          if ok { LiteralKeeps(data, b0, bk, lit, dist, syms, before, m, k, r[..], y, b); }
          if y < r.Length { r[y] := v; }
          y := y + 1;
        case Plain(Copy(len, d)) =>
          var near;
          r, y, near := BodyCopy(r, y, len, d, data, b0, bk, b, lit, dist, syms, before, m, k, ok);
          if !near { return r, y, b, Failed(InvalidDistance); }
      }
      k := k + 1;
    }
  }

  // -------- the header of a dynamic block ----------------------------------------------

  method MaxLength(e: seq<nat>) returns (t: nat)
    requires |e| > 0
    ensures LengthsUpTo(e, t) && t in e
  {
    t := e[0];
    for n := 1 to |e|
      invariant t in e && forall k :: 0 <= k < n ==> e[k] <= t
    {
      if e[n] > t { t := e[n]; }
    }
  }

  lemma ThreeBits(data: seq<byte>, p: nat)
    ensures Read2(data, p, 3) < 8 && Pow2(3) == 8
  {
    LowBound(Shr(Or(ByteAt(data, p / 8), Shl(ByteAt(data, p / 8 + 1), 8)), p % 8), 3);
  }

  /** The lengths of the code-length code: n of them in ORDER, the others 0. */
  method ReadOrder(data: seq<byte>, b: nat, n: nat, ghost cl: seq<nat>) returns (o: seq<nat>)
    requires n <= 19
    ensures |o| == 19 && LengthsUpTo(o, 7)
    ensures OrderShown(data, b, n, cl) ==> o == cl
  {
    var a := new nat[19](_ => 0);
    ghost var ok := OrderShown(data, b, n, cl);
    for h := 0 to n
      invariant forall k :: 0 <= k < 19 ==> a[k] <= 7
      invariant ok ==> forall k :: 0 <= k < 19 ==> a[k] == if RANK[k] < h then cl[k] else 0
    {
      hide Read2, OrderShown, Pow2;
      OrderRank(h);
      ThreeBits(data, b + 3 * h);
      var x := Read2(data, b + 3 * h, 3);
      if ok {
        OrderAt(data, b, cl, n, h);
        Read2Value(data, b + 3 * h, cl[ORDER[h]], 3);
        forall k: nat | k < 19 && RANK[k] == h ensures k == ORDER[h] { OrderRank(k); }
      }
      a[ORDER[h]] := x;
    }
    o := a[..];
    if ok {
      forall k: nat | k < 19 ensures o[k] == cl[k] {
        OrderRank(k);
        if RANK[k] >= n { assert cl[ORDER[RANK[k]]] == 0; }
      }
    }
  }

  ghost predicate OrderShown(data: seq<byte>, b: nat, n: nat, cl: seq<nat>) {
    && n <= 19 && |cl| == 19 && LengthsUpTo(cl, 7) && (forall i :: n <= i < 19 ==> cl[ORDER[i]] == 0)
    && Holds(data, b, OrderBits(cl, n)) && b + 3 * n <= 8 * |data|
  }

  /** Look up a code of at most 7 bits, with the two-byte reader. */
  method ReadShortCode(data: seq<byte>, b: nat, table: array<nat>, t: nat, ghost lens: seq<nat>, ghost a: nat)
    returns (x: nat)
    requires t <= 7 && TableShape(table[..], 19, t)
    ensures x == 0 || (1 <= x % 16 <= t && x / 16 < 19)
    ensures HasCode(data, b, table[..], lens, t, a) ==> x % 16 == lens[a] && x / 16 == a
  {
    hide *;
    ShortWindow(data, b, table[..], t);
    var w := Read2(data, b, t);
    x := table[w];
    if HasCode(data, b, table[..], lens, t, a) { ShortShown(data, b, table[..], lens, t, a); }
  }

  /** What the two-byte reader sees is a slot of the table. */
  lemma ShortWindow(data: seq<byte>, b: nat, table: seq<nat>, t: nat)
    requires t <= 7 && TableShape(table, 19, t)
    ensures Read2(data, b, t) < |table|
    ensures var x := table[Read2(data, b, t)]; x == 0 || (1 <= x % 16 <= t && x / 16 < 19)
  {
    hide Shr, Or, Shl, ByteAt, Pow2, Low;
    LowBound(Shr(Or(ByteAt(data, b / 8), Shl(ByteAt(data, b / 8 + 1), 8)), b % 8), t);
  }

  lemma ShortShown(data: seq<byte>, b: nat, table: seq<nat>, lens: seq<nat>, t: nat, a: nat)
    requires t <= 7 && TableShape(table, 19, t) && HasCode(data, b, table, lens, t, a)
    ensures Read2(data, b, t) < |table| && table[Read2(data, b, t)] % 16 == lens[a] && table[Read2(data, b, t)] / 16 == a
  {
    hide Read2, StreamBit, CodeBits, Kraft, Pow2;
    ShortWindow(data, b, table, t);
    var w := Read2(data, b, t);
    forall i | 0 <= i < lens[a] ensures BitAt(w, i) == CodeBits(lens, a)[i] {
      Read2Bit(data, b, t, i);
      assert StreamBit(data, b + i) == CodeBits(lens, a)[i];
    }
    assert Shows(lens, a, w);
  }

  /** Store x times u from index h on. */
  method FillRun(n: array<nat>, h: nat, x: nat, u: nat) returns (h2: nat)
    requires u <= 15 && LengthsUpTo(n[..], 15)
    modifies n
    ensures h2 == h + x && LengthsUpTo(n[..], 15)
    ensures h2 <= n.Length ==> n[..h2] == old(n[..h]) + Rep(u, x)
  {
    h2 := h;
    while h2 < h + x
      invariant h <= h2 <= h + x && LengthsUpTo(n[..], 15)
      invariant h + x <= n.Length ==> n[..h2] == old(n[..h]) + Rep(u, h2 - h)
    {
      if h2 < n.Length { n[h2] := u; }
      if h + x <= n.Length {
        assert n[..h2 + 1] == n[..h2] + [u];
        assert Rep(u, h2 + 1 - h) == Rep(u, h2 - h) + [u];
      }
      h2 := h2 + 1;
    }
  }

  /** The stream has the run-length coded lengths at b. */
  ghost predicate RleShown(data: seq<byte>, b: nat, table: seq<nat>, t: nat, cl: seq<nat>, rle: seq<nat>, total: nat) {
    && TableFor(table, cl, t) && |cl| == 19
    && (forall k :: 0 <= k < |rle| ==> RunLength.RunSymbolOk(rle[k]) && cl[Sym(rle[k])] > 0)
    && |Expand([], rle)| == total && LengthsUpTo(Expand([], rle), 15)
    && Holds(data, b, RleBits(cl, rle)) && b + |RleBits(cl, rle)| <= 8 * |data|
  }

  /** The k-th symbol and its repeat field, where the reader expects them. */
  lemma RleStepShown(data: seq<byte>, b: nat, table: seq<nat>, t: nat, cl: seq<nat>, rle: seq<nat>, total: nat, k: nat)
    requires RleShown(data, b, table, t, cl, rle, total) && k < |rle|
    ensures RunShown(data, b + |RleBits(cl, rle[..k])|, table, cl, t, rle[k])
    ensures |RleBits(cl, rle[..k + 1])| == |RleBits(cl, rle[..k])| + cl[Sym(rle[k])] + Width(rle[k])
  {
    hide CodeBits, Decodes, RleBits, Read2, Expand, Holds;
    RleAt(data, b, cl, rle, k);
    var x := rle[k];
    var q := b + |RleBits(cl, rle[..k])|;
    if Width(x) > 0 { Read2Value(data, q + cl[Sym(x)], Field(x), Width(x)); }
  }

  lemma RleStepLengths(rle: seq<nat>, k: nat)
    requires k < |rle|
    ensures Expand([], rle[..k + 1]) == Expand([], rle[..k]) + Run(Expand([], rle[..k]), rle[k])
    ensures |Expand([], rle[..k + 1])| <= |Expand([], rle)|
  {
    assert rle[..k + 1] == rle[..k] + [rle[k]];
    ExpandNext([], rle[..k], rle[k]);
    ExpandGrows([], rle, k + 1);
  }

  /** Read one symbol and carry it out. */
  method ReadRun(data: seq<byte>, b0: nat, table: array<nat>, t: nat, n: array<nat>, h0: nat, ghost cl: seq<nat>, ghost x: nat)
    returns (h: nat, b: nat)
    requires t <= 7 && TableShape(table[..], 19, t) && h0 < n.Length && LengthsUpTo(n[..], 15) && table != n
    modifies n
    ensures h0 < h && b0 <= b && LengthsUpTo(n[..], 15)
    ensures RunShown(data, b0, old(table[..]), cl, t, x) && h0 + |Run(old(n[..h0]), x)| <= n.Length ==>
      b == b0 + cl[Sym(x)] + Width(x) && h == h0 + |Run(old(n[..h0]), x)| && n[..h] == old(n[..h0]) + Run(old(n[..h0]), x)
  {
    hide CodeBits, Holds, Decodes, EntriesOk;
    ghost var ok := RunShown(data, b0, table[..], cl, t, x);
    var q := ReadShortCode(data, b0, table, t, cl, Sym(x));
    b := b0 + q % 16;
    var g := q / 16;
    if g < 16 {
      h := FillRun(n, h0, 1, g);
    } else {
      var bits := if g == 16 then 2 else if g == 17 then 3 else 7;
      var u := if g == 16 && h0 > 0 then n[h0 - 1] else 0;
      var count := (if g == 18 then 11 else 3) + Read2(data, b, bits);
      b := b + bits;
      h := FillRun(n, h0, count, u);
    }
  }

  ghost predicate RunShown(data: seq<byte>, b: nat, table: seq<nat>, cl: seq<nat>, t: nat, x: nat) {
    && RunLength.RunSymbolOk(x) && HasCode(data, b, table, cl, t, Sym(x))
    && (Width(x) > 0 ==> Read2(data, b + cl[Sym(x)], Width(x)) == Field(x))
  }

  /** k symbols have been read, and the lengths they stand for are done. */
  ghost predicate RunState(b0: nat, b: nat, cl: seq<nat>, rle: seq<nat>, k: nat, done: seq<nat>)
    requires |cl| == 19 && forall i :: 0 <= i < |rle| ==> Sym(rle[i]) <= 18
  {
    k <= |rle| && done == Expand([], rle[..k]) && b == b0 + |RleBits(cl, rle[..k])|
  }

  lemma RleSane(data: seq<byte>, b: nat, table: seq<nat>, t: nat, cl: seq<nat>, rle: seq<nat>, total: nat)
    requires RleShown(data, b, table, t, cl, rle, total)
    ensures |cl| == 19 && forall i :: 0 <= i < |rle| ==> Sym(rle[i]) <= 18
    ensures RunState(b, b, cl, rle, 0, [])
  {
    hide Holds, CodeBits, Decodes;
  }

  /** What the next symbol is, and that its run stays inside. */
  lemma RunNext(data: seq<byte>, b0: nat, b: nat, table: seq<nat>, t: nat, cl: seq<nat>, rle: seq<nat>, total: nat, k: nat, done: seq<nat>)
    requires RleShown(data, b0, table, t, cl, rle, total) && |cl| == 19 && forall i :: 0 <= i < |rle| ==> Sym(rle[i]) <= 18
    requires RunState(b0, b, cl, rle, k, done) && |done| < total
    ensures k < |rle| && RunShown(data, b, table, cl, t, rle[k]) && |done| + |Run(done, rle[k])| <= total
    ensures RunState(b0, b + cl[Sym(rle[k])] + Width(rle[k]), cl, rle, k + 1, done + Run(done, rle[k]))
  {
    hide Holds, CodeBits, Decodes, RunShown, Run, Expand, RleBits, Sym, Width;
    assert rle[..|rle|] == rle;
    RleStepShown(data, b0, table, t, cl, rle, total, k);
    RleStepLengths(rle, k);
  }

  lemma RunsDone(data: seq<byte>, b0: nat, b: nat, table: seq<nat>, t: nat, cl: seq<nat>, rle: seq<nat>, total: nat, k: nat, done: seq<nat>)
    requires RleShown(data, b0, table, t, cl, rle, total) && |cl| == 19 && forall i :: 0 <= i < |rle| ==> Sym(rle[i]) <= 18
    requires RunState(b0, b, cl, rle, k, done) && |done| == total
    ensures done == Expand([], rle) && b == b0 + |RleBits(cl, rle)|
  {
    hide Holds, CodeBits, Decodes, RleBits, Expand, Sym;
    ExpandGrows([], rle, k);
    assert rle[..|rle|] == rle;
  }

  /** Read `total` lengths. */
  method ReadLengths(data: seq<byte>, b0: nat, total: nat, table: array<nat>, t: nat, ghost cl: seq<nat>, ghost rle: seq<nat>)
    returns (e: seq<nat>, b: nat)
    requires t <= 7 && TableShape(table[..], 19, t)
    ensures |e| == total && LengthsUpTo(e, 15) && b0 <= b
    ensures RleShown(data, b0, table[..], t, cl, rle, total) ==> e == Expand([], rle) && b == b0 + |RleBits(cl, rle)|
  {
    hide CodeBits, Holds, Decodes, EntriesOk, Run, RunShown, RunState, RleShown, Expand, RleBits, TableShape, Sym, Width;
    ghost var ts := table[..];
    ghost var ok := RleShown(data, b0, ts, t, cl, rle, total);
    var n := new nat[total](_ => 0);
    var h: nat := 0;
    b := b0;
    ghost var k := 0;
    if ok { RleSane(data, b0, ts, t, cl, rle, total); }
    assert n[..0] == [];
    while h < total
      invariant LengthsUpTo(n[..], 15) && b0 <= b && table[..] == ts && n.Length == total
      invariant ok ==> h <= total && RunState(b0, b, cl, rle, k, n[..h])
      decreases total - h
      modifies n
    {
      if ok { RunNext(data, b0, b, ts, t, cl, rle, total, k, n[..h]); }
      h, b := ReadRun(data, b, table, t, n, h, cl, if k < |rle| then rle[k] else 0);
      k := k + 1;
    }
    if ok { RunsDone(data, b0, b, ts, t, cl, rle, total, k, n[..h]); }
    e := n[..];
    assert h <= total ==> n[..h] == n[..];
  }

  ghost predicate HeaderShown(data: seq<byte>, b: nat, blk: Block) {
    && blk.Dynamic? && HeaderOk(blk) && Holds(data, b, HeaderBits(blk)) && b + |HeaderBits(blk)| <= 8 * |data|
  }

  lemma HeaderParts(data: seq<byte>, b: nat, blk: Block)
    requires HeaderShown(data, b, blk)
    ensures Read2(data, b, 5) == |blk.lit| - 257 && Read2(data, b + 5, 5) == |blk.dist| - 1 && Read2(data, b + 10, 4) == blk.sent - 4
    ensures OrderShown(data, b + 14, blk.sent, blk.cl)
    ensures Holds(data, b + 14 + 3 * blk.sent, RleBits(blk.cl, blk.rle))
    ensures |HeaderBits(blk)| == 14 + 3 * blk.sent + |RleBits(blk.cl, blk.rle)|
  {
    hide OrderBits, RleBits, Read2, Kraft, Expand;
    var h1, h2, h3 := ToBits(|blk.lit| - 257, 5), ToBits(|blk.dist| - 1, 5), ToBits(blk.sent - 4, 4);
    var o, r := OrderBits(blk.cl, blk.sent), RleBits(blk.cl, blk.rle);
    OrderLength(blk.cl, blk.sent);
    HoldsSplit(data, b, h1 + h2 + h3 + o, r);
    FourParts(data, b, h1, h2, h3, o);
    assert Pow2(4) == 16 && Pow2(5) == 32;
    Read2Value(data, b, |blk.lit| - 257, 5);
    Read2Value(data, b + 5, |blk.dist| - 1, 5);
    Read2Value(data, b + 10, blk.sent - 4, 4);
  }

  /** Build the decoding table of a list of lengths, for windows as long as the longest of them. */
  method TableOf(lens: seq<nat>, ghost limit: nat) returns (table: array<nat>, t: nat)
    requires |lens| > 0 && LengthsUpTo(lens, limit) && limit <= 15
    ensures fresh(table) && t <= limit && TableShape(table[..], |lens|, t)
    ensures PrefixCode(lens, limit) ==> TableFor(table[..], lens, t)
  {
    t := MaxLength(lens);
    table := DecodeTable(lens, t);
    if PrefixCode(lens, limit) { KraftBelow(lens, t, limit); }
  }

  method ReadHeader(data: seq<byte>, b0: nat, ghost blk: Block) returns (lit: seq<nat>, dist: seq<nat>, b: nat)
    ensures 257 <= |lit| <= 288 && 1 <= |dist| <= 32 && LengthsUpTo(lit, 15) && LengthsUpTo(dist, 15) && b0 <= b
    ensures HeaderShown(data, b0, blk) ==> lit == blk.lit && dist == blk.dist && b == b0 + |HeaderBits(blk)|
  {
    hide Read2, OrderBits, RleBits, Kraft, Expand, Holds, Decodes;
    ghost var ok := HeaderShown(data, b0, blk);
    ghost var cl, rle := if ok then blk.cl else [], if ok then blk.rle else [];
    if ok { HeaderParts(data, b0, blk); }
    Read2Bound(data, b0, 5);
    Read2Bound(data, b0 + 5, 5);
    Read2Bound(data, b0 + 10, 4);
    var l := Read2(data, b0, 5) + 257;
    var n := Read2(data, b0 + 10, 4) + 4;
    var p := l + Read2(data, b0 + 5, 5) + 1;
    b := b0 + 14;
    assert Pow2(4) == 16 && Pow2(5) == 32;
    var o := ReadOrder(data, b, n, cl);
    b := b + 3 * n;
    var table, v := TableOf(o, 7);
    var e;
    e, b := ReadLengths(data, b, p, table, v, cl, rle);
    lit, dist := e[..l], e[l..];
  }

  lemma Read2Bound(data: seq<byte>, b: nat, n: nat)
    ensures Read2(data, b, n) < Pow2(n)
  {
    LowBound(Shr(Or(ByteAt(data, b / 8), Shl(ByteAt(data, b / 8 + 1), 8)), b % 8), n);
  }

  // -------- blocks ---------------------------------------------------------------------

  /** The stream has the block, with its flag, at position p. */
  ghost predicate BlockShown(data: seq<byte>, p: nat, blk: Block, last: bool) {
    && BlockOk(blk) && Holds(data, p, BlockBits(blk, last, p)) && p + |BlockBits(blk, last, p)| <= 8 * |data|
  }

  /** Flag and type of a block, and what follows them. */
  lemma BlockStart(data: seq<byte>, p: nat, blk: Block, last: bool)
    requires BlockShown(data, p, blk, last)
    ensures Read2(data, p, 1) == (if last then 1 else 0) && Read2(data, p + 1, 2) == BlockType(blk)
    ensures Holds(data, p + 3, Contents(blk, p)) && |BlockBits(blk, last, p)| == 3 + |Contents(blk, p)|
  {
    hide Contents, Read2, BlockOk;
    var head := [last] + ToBits(BlockType(blk), 2);
    HoldsSplit(data, p, head, Contents(blk, p));
    HoldsSplit(data, p, [last], ToBits(BlockType(blk), 2));
    assert [last] == ToBits(if last then 1 else 0, 1);
    assert Pow2(1) == 2 && Pow2(2) == 4;
    Read2Value(data, p, if last then 1 else 0, 1);
    Read2Value(data, p + 1, BlockType(blk), 2);
  }

  ghost predicate StoredShown(data: seq<byte>, b: nat, d: seq<byte>) {
    && |d| <= 65535 && Holds(data, b, Zeros(Padding(b)) + ByteBits(StoredBytes(d)))
    && b + Padding(b) + 8 * |StoredBytes(d)| <= 8 * |data|
  }

  lemma StoredParts(data: seq<byte>, b: nat, d: seq<byte>)
    requires StoredShown(data, b, d)
    ensures var g := ByteCount(b) + 4;
            && ByteAt(data, g - 4) + 256 * ByteAt(data, g - 3) == |d| && g + |d| <= |data| && data[g..g + |d|] == d
            && 8 * (g + |d|) == b + Padding(b) + 8 * |StoredBytes(d)|
  {
    hide Holds, ByteBits;
    var i := ByteCount(b);
    HoldsSplit(data, b, Zeros(Padding(b)), ByteBits(StoredBytes(d)));
    assert b + Padding(b) == 8 * i;
    BytesHeld(data, i, StoredBytes(d));
    StoredFields(data, i, d);
  }

  /** The fields of a stored block's bytes. */
  lemma StoredFields(data: seq<byte>, i: nat, d: seq<byte>)
    requires |d| <= 65535 && i + |StoredBytes(d)| <= |data| && data[i..i + |StoredBytes(d)|] == StoredBytes(d)
    ensures |StoredBytes(d)| == 4 + |d| && data[i + 4..i + 4 + |d|] == d
    ensures ByteAt(data, i) + 256 * ByteAt(data, i + 1) == |d|
  {
    var x := data[i..i + |StoredBytes(d)|];
    assert x[0] == data[i] && x[1] == data[i + 1];
    assert x[4..] == d && x[4..] == data[i + 4..i + 4 + |d|];
  }

  /** Copy bytes into the buffer at y. */
  method PutSlice(r: array<byte>, y: nat, d: seq<byte>)
    requires y + |d| <= r.Length
    modifies r
    ensures r[..y + |d|] == old(r[..])[..y] + d
  {
    forall k | 0 <= k < |d| { r[y + k] := d[k]; }
  }

  /** How many bytes a stored block says it has, and where they end; that the complement of the
      number fits is never looked at. */
  function StoredLength(data: seq<byte>, b: nat): nat {
    ByteAt(data, ByteCount(b)) + 256 * ByteAt(data, ByteCount(b) + 1)
  }

  function StoredEnds(data: seq<byte>, b: nat): (n: nat)
    ensures n >= StoredLength(data, b)
  {
    ByteCount(b) + 4 + StoredLength(data, b)
  }

  /** Where the bytes of a stored block begin, and how many they are. */
  method StoredHeader(data: seq<byte>, b0: nat, ghost d: seq<byte>) returns (g: nat, n: nat)
    ensures b0 < 8 * g && n == StoredLength(data, b0) && g + n == StoredEnds(data, b0)
    ensures StoredShown(data, b0, d) ==>
      g + n <= |data| && data[g..g + n] == d && 8 * (g + n) == b0 + Padding(b0) + 8 * |StoredBytes(d)|
  {
    hide StoredShown, StoredBytes, Padding, ByteAt;
    g := ByteCount(b0) + 4;
    n := ByteAt(data, g - 4) + 256 * ByteAt(data, g - 3);
    if StoredShown(data, b0, d) { StoredParts(data, b0, d); }
  }

  /** A stored block whose contents begin at the byte boundary after b0. */
  method InflateStored(data: seq<byte>, b0: nat, r0: array<byte>, y0: nat, ghost d: seq<byte>, ghost before: seq<byte>, ghost m: Extent)
    returns (r: array<byte>, y: nat, b: nat, res: Outcome)
    modifies r0
    ensures r == r0 || fresh(r)
    ensures res.Done? ==> b0 < b <= 8 * |data|
    ensures if StoredEnds(data, b0) > |data| then res == Failed(UnexpectedEnd)
            else res == Done && b == 8 * StoredEnds(data, b0) && y == y0 + StoredLength(data, b0)
    ensures StoredEnds(data, b0) <= |data| && y0 <= r0.Length ==>
      y <= r.Length && r[..y] == old(r0[..])[..y0] + data[StoredEnds(data, b0) - StoredLength(data, b0)..StoredEnds(data, b0)]
    ensures Tracks(old(r0[..]), y0, before, m) && StoredShown(data, b0, d) ==>
      (res.Done? && b == b0 + Padding(b0) + 8 * |StoredBytes(d)| && Tracks(r[..], y, before + d, AfterBlock(m, Stored(d))))
  {
    hide *;
    var g, n := StoredHeader(data, b0, d);
    y, b := y0, b0;
    if g + n > |data| { return r0, y, b, Failed(UnexpectedEnd); }
    ghost var was := r0[..];
    r := Grow(r0, y0 + n);
    ghost var grown := r[..];
    assert grown[..|was|] == was;
    PutSlice(r, y0, data[g..g + n]);
    y := y0 + n;
    b := 8 * (g + n);
    res := Done;
    if Tracks(was, y0, before, m) && StoredShown(data, b0, d) { StoredTracks(was, y0, before, m, d, grown, r[..]); }
  }

  lemma StoredTracks(r: seq<byte>, y: nat, before: seq<byte>, m: Extent, d: seq<byte>, r1: seq<byte>, r2: seq<byte>)
    requires Tracks(r, y, before, m) && |r1| == Enlarged(|r|, y + |d|) == |r2| && r1[..|r|] == r
    requires (forall p :: |r| <= p < |r1| ==> r1[p] == 0) && r2[..y + |d|] == r1[..y] + d
    ensures Tracks(r2, y + |d|, before + d, AfterBlock(m, Stored(d)))
  {
    hide Tracks, Enlarged;
    GrownTracks(r, y, before, m, |d|, r1);
    PutTracks(r1, y, before, Asked(m, |d|), d, r2);
  }

  /** A block of coded symbols, whose codes are given. */
  method InflateCoded(tb: Tables, data: seq<byte>, b0: nat, lens: seq<nat>, dists: seq<nat>, r0: array<byte>, y0: nat, ghost syms: seq<Symbol>,
                      ghost before: seq<byte>, ghost m: Extent)
    returns (r: array<byte>, y: nat, b: nat, res: Outcome)
    requires 0 < |lens| <= 288 && 0 < |dists| <= 32 && LengthsUpTo(lens, 15) && LengthsUpTo(dists, 15) && TablesOk(tb)
    modifies r0
    ensures r == r0 || fresh(r)
    ensures res.Done? ==> b0 < b <= 8 * |data|
    ensures res != Failed(InvalidBlockType)
    ensures CodedShown(data, b0, lens, dists, syms) && Tracks(old(r0[..]), y0, before, m) && SymbolsOk(before, syms) ==>
      (res.Done? && b == b0 + |BodyBits(lens, dists, syms)| && Tracks(r[..], y, Replay(before, syms), AfterSymbols(Asked(m, ROOM), syms)))
  {
    hide Tracks, AfterSymbols, Enlarged, Decodes, EntriesOk, Holds, BodyBits, SymBits, AllCoded, Replay, SymbolsOk, Kraft, TablesOk;
    var lt, j := TableOf(lens, 15);
    var dt, z := TableOf(dists, 15);
    EntriesMono(lt[..], |lens|, 288, j);
    EntriesMono(dt[..], |dists|, 32, z);
    y, b := y0, b0;
    if b > 8 * |data| { return r0, y, b, Failed(UnexpectedEnd); }
    ghost var was := r0[..];
    r := Grow(r0, y + ROOM);
    assert r[..][..|was|] == was;
    if Tracks(was, y0, before, m) { GrownTracks(was, y0, before, m, ROOM, r[..]); }
    r, y, b, res := InflateBody(tb, data, b, lt, j, dt, z, r, y, lens, dists, syms, before, Asked(m, ROOM));
  }

  ghost predicate CodedShown(data: seq<byte>, b: nat, lens: seq<nat>, dists: seq<nat>, syms: seq<Symbol>) {
    PrefixCode(lens, 15) && PrefixCode(dists, 15) && BodyShown(data, b, lens, dists, syms)
  }

  lemma EntriesMono(table: seq<nat>, n: nat, m: nat, t: nat)
    requires EntriesOk(table, n, t) && n <= m
    ensures EntriesOk(table, m, t)
  {
  }

  lemma FixedPrefix()
    ensures PrefixCode(FixedLit(), 15) && PrefixCode(FixedDist(), 15)
  {
    FixedComplete();
    hide FixedLit, FixedDist, Kraft;
    KraftScale(FixedLit(), 9, 15);
    KraftScale(FixedDist(), 5, 15);
    ShlPow2(9, 6);
    ShlPow2(5, 10);
  }

  lemma FixedShown(data: seq<byte>, p: nat, syms: seq<Symbol>, last: bool)
    requires BlockShown(data, p, Fixed(syms), last)
    ensures CodedShown(data, p + 3, FixedLit(), FixedDist(), syms)
    ensures |BlockBits(Fixed(syms), last, p)| == 3 + |BodyBits(FixedLit(), FixedDist(), syms)|
  {
    BlockStart(data, p, Fixed(syms), last);
    FixedPrefix();
    FixedComplete();
  }

  lemma DynamicShown(data: seq<byte>, p: nat, blk: Block, last: bool)
    requires blk.Dynamic? && BlockShown(data, p, blk, last)
    ensures HeaderShown(data, p + 3, blk)
    ensures CodedShown(data, p + 3 + |HeaderBits(blk)|, blk.lit, blk.dist, blk.syms)
    ensures |BlockBits(blk, last, p)| == 3 + |HeaderBits(blk)| + |BodyBits(blk.lit, blk.dist, blk.syms)|
  {
    hide *;
    BlockStart(data, p, blk, last);
    DynamicParts(data, p, blk, last);
    HoldsSplit(data, p + 3, HeaderBits(blk), BodyBits(blk.lit, blk.dist, blk.syms));
    HeaderThere(data, p + 3, blk);
    CodedThere(data, p + 3 + |HeaderBits(blk)|, blk);
  }

  lemma DynamicParts(data: seq<byte>, p: nat, blk: Block, last: bool)
    requires blk.Dynamic? && BlockShown(data, p, blk, last)
    ensures HeaderOk(blk) && AllCoded(blk.lit, blk.dist, blk.syms) && END_OF_BLOCK < |blk.lit| && blk.lit[END_OF_BLOCK] > 0
    ensures BlockOk(blk) && Contents(blk, p) == HeaderBits(blk) + BodyBits(blk.lit, blk.dist, blk.syms)
    ensures p + |BlockBits(blk, last, p)| <= 8 * |data|
  {
    hide HeaderBits, BodyBits, AllCoded, Holds, BlockBits, PrefixCode;
  }

  lemma HeaderThere(data: seq<byte>, b: nat, blk: Block)
    requires blk.Dynamic? && HeaderOk(blk) && Holds(data, b, HeaderBits(blk)) && b + |HeaderBits(blk)| <= 8 * |data|
    ensures HeaderShown(data, b, blk)
  {
  }

  lemma CodedThere(data: seq<byte>, b: nat, blk: Block)
    requires blk.Dynamic? && HeaderOk(blk) && AllCoded(blk.lit, blk.dist, blk.syms) && END_OF_BLOCK < |blk.lit| && blk.lit[END_OF_BLOCK] > 0
    requires Holds(data, b, BodyBits(blk.lit, blk.dist, blk.syms))
    requires b + |BodyBits(blk.lit, blk.dist, blk.syms)| <= 8 * |data|
    ensures CodedShown(data, b, blk.lit, blk.dist, blk.syms)
  {
    hide HeaderBits, BodyBits, AllCoded, Holds, PrefixCode;
  }

  /** One block of any type; flag is whether it is marked as the last. */
  method InflateBlock(tb: Tables, data: seq<byte>, b0: nat, r0: array<byte>, y0: nat, ghost blk: Block, ghost last: bool,
                      ghost before: seq<byte>, ghost m: Extent)
    returns (r: array<byte>, y: nat, b: nat, flag: bool, res: Outcome)
    requires TablesOk(tb)
    modifies r0
    ensures r == r0 || fresh(r)
    ensures res.Done? ==> b0 < b <= 8 * |data|
    ensures res == Failed(InvalidBlockType) <==> Read2(data, b0 + 1, 2) == 3
    ensures Read2(data, b0 + 1, 2) == 0 ==> (res == Failed(UnexpectedEnd) <==> StoredEnds(data, b0 + 3) > |data|)
    ensures BlockShown(data, b0, blk, last) && Tracks(old(r0[..]), y0, before, m) && BlockReaches(before, blk) ==>
      (res.Done? && flag == last && b == b0 + |BlockBits(blk, last, b0)| && Tracks(r[..], y, BlockOut(before, blk), AfterBlock(m, blk)))
  {
    hide *;
    ghost var ok := BlockShown(data, b0, blk, last) && Tracks(r0[..], y0, before, m) && BlockReaches(before, blk);
    ghost var syms, d: seq<byte> := if blk.Stored? then [] else blk.syms, if blk.Stored? then blk.data else [];
    if ok {
      BlockStart(data, b0, blk, last);
      if blk.Stored? { StoredBlock(data, b0, blk, last, before, m); } else { CodedBlock(before, m, blk); }
    }
    KindOf(blk);
    FixedPrefix();
    FixedShape();
    flag := Read2(data, b0, 1) == 1;
    var kind := Read2(data, b0 + 1, 2);
    TwoBits(data, b0 + 1);
    b := b0 + 3;
    if kind == 0 {
      r, y, b, res := InflateStored(data, b, r0, y0, d, before, m);
    } else if kind == 1 {
      if ok { FixedShown(data, b0, syms, last); }
      r, y, b, res := InflateCoded(tb, data, b, FixedLit(), FixedDist(), r0, y0, syms, before, m);
    } else if kind == 2 {
      if ok { DynamicShown(data, b0, blk, last); }
      var lens, dists;
      lens, dists, b := ReadHeader(data, b, blk);
      r, y, b, res := InflateCoded(tb, data, b, lens, dists, r0, y0, syms, before, m);
    } else {
      r, y, res := r0, y0, Failed(InvalidBlockType);
    }
  }

  lemma TwoBits(data: seq<byte>, b: nat)
    ensures Read2(data, b, 2) <= 3
  {
    Read2Bound(data, b, 2);
    assert Pow2(2) == 4;
  }

  lemma StoredBlock(data: seq<byte>, p: nat, blk: Block, last: bool, before: seq<byte>, m: Extent)
    requires blk.Stored? && BlockShown(data, p, blk, last)
    ensures StoredShown(data, p + 3, blk.data) && |BlockBits(blk, last, p)| == 3 + Padding(p + 3) + 8 * |StoredBytes(blk.data)|
    ensures BlockOut(before, blk) == before + blk.data && AfterBlock(m, blk) == AfterBlock(m, Stored(blk.data))
  {
    hide Holds, StoredBytes, Padding, BlockBits;
    BlockStart(data, p, blk, last);
  }

  lemma CodedBlock(before: seq<byte>, m: Extent, blk: Block)
    requires !blk.Stored? && BlockReaches(before, blk)
    ensures BlockOut(before, blk) == Replay(before, blk.syms) && SymbolsOk(before, blk.syms)
    ensures AfterBlock(m, blk) == AfterSymbols(Asked(m, ROOM), blk.syms)
  {
  }

  lemma KindOf(blk: Block)
    ensures BlockType(blk) == if blk.Stored? then 0 else if blk.Fixed? then 1 else 2
    ensures blk.Fixed? ==> blk == Fixed(blk.syms)
  {
  }

  lemma FixedShape()
    ensures |FixedLit()| == 288 && |FixedDist()| == 32 && LengthsUpTo(FixedLit(), 15) && LengthsUpTo(FixedDist(), 15)
  {
  }

  // -------- the stream -----------------------------------------------------------------

  lemma StreamNotEmpty(data: seq<byte>, bs: seq<Block>)
    requires IsStreamOf(data, bs)
    ensures |data| > 0
  {
    BlocksAt(data, bs, 0);
  }

  /** Decompress.  Whatever blocks the bytes can be read as, decompression succeeds, and the result
      is what these blocks stand for exactly if the output buffer keeps it; bytes after the last
      block are ignored. */
  method Inflate(data: seq<byte>, ghost bs: seq<Block>) returns (res: Result)
    ensures |data| == 0 ==> res == Ok([])
    ensures |data| > 0 && Read2(data, 1, 2) == 3 ==> res == Err(InvalidBlockType)
    ensures |data| > 0 && Read2(data, 1, 2) == 0 && StoredEnds(data, 3) > |data| ==> res == Err(UnexpectedEnd)
    ensures IsStreamOf(data, bs) ==> res.Ok? && (res.out == BlocksOut(bs) <==> Kept(|data|, bs))
    ensures IsStreamOf(data, bs) ==> var m := Final(|data|, bs); m.at == |BlocksOut(bs)| && |res.out| == if m.at <= m.length then m.at else m.length
  {
    hide BlockBits, Holds, BlockOk, BlockOut, BlockReaches, BlocksBits, TablesOk, Tracks, AfterBlock, AfterBlocks, Read2, StoredEnds;
    ghost var ok := IsStreamOf(data, bs);
    if ok { StreamNotEmpty(data, bs); }
    if |data| == 0 { return Ok([]); }
    var tb := BuildTables();
    var r := new byte[3 * |data|](_ => 0);
    var y: nat, b: nat, flag := 0, 0, false;
    ghost var k, m0 := 0, Extent(3 * |data|, 0, true);
    assert bs[..0] == [] && BlocksOut([]) == [];
    if ok { NoBlocks(m0); }
    EmptyTracks(r[..]);
    while !flag
      invariant fresh(r) && b <= 8 * |data|
      invariant k >= 0 && (k == 0 ==> b == 0 && !flag)
      invariant k > 0 ==> Read2(data, 1, 2) != 3 && (Read2(data, 1, 2) == 0 ==> StoredEnds(data, 3) <= |data|)
      invariant ok ==> k <= |bs| && (flag <==> k == |bs|) && BlocksOk(bs[..k])
      invariant ok ==> Tracks(r[..], y, BlocksOut(bs[..k]), AfterBlocks(m0, bs[..k])) && (!flag ==> b == BlocksEnd(bs[..k]))
      decreases !flag, 8 * |data| - b
    {
      if ok {
        BlocksAt(data, bs, k);
        BlocksStep(bs, k, k == |bs| - 1);
        ExtentStep(m0, bs, k);
      }
      var out;
      r, y, b, flag, out := InflateBlock(tb, data, b, r, y, if k < |bs| then bs[k] else Fixed([]), k == |bs| - 1,
                                         BlocksOut(bs[..if k <= |bs| then k else 0]), AfterBlocks(m0, bs[..if k <= |bs| then k else 0]));
      if out.Failed? { return Err(out.error); }
      k := k + 1;
    }
    assert ok ==> bs[..k] == bs;
    res := Ok(Cut(r[..], y));
    if ok {
      TracksLength(r[..], y, BlocksOut(bs), AfterBlocks(m0, bs));
      CutTracks(r[..], y, BlocksOut(bs), AfterBlocks(m0, bs));
    }
  }

  lemma NoBlocks(m: Extent)
    ensures BlocksOk([]) && BlocksEnd([]) == 0 && AfterBlocks(m, []) == m
  {
  }

  lemma ExtentStep(m: Extent, bs: seq<Block>, k: nat)
    requires k < |bs|
    ensures AfterBlocks(m, bs[..k + 1]) == AfterBlock(AfterBlocks(m, bs[..k]), bs[k])
  {
    hide AfterBlock;
    assert bs[..k + 1][..k] == bs[..k];
  }
}
