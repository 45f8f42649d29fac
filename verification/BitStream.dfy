/**
 Bytes as a stream of bits, lowest bit of each byte first (section 3.1.1 of RFC 1951), with
 the codec's bit writers and bit readers.  A JavaScript typed array ignores a store outside
 its bounds and reads `undefined`, which the operators turn into 0; so do the members here.
 */
module BitStream {
  import opened Bits

  function ByteAt(s: seq<byte>, i: nat): byte {
    if i < |s| then s[i] else 0
  }

  /** Bit i of the stream; bits past the end read as 0. */
  predicate StreamBit(s: seq<byte>, i: nat) {
    BitAt(ByteAt(s, i / 8), i % 8)
  }

  /** The stream carries `bits` at position p, as far as it reaches. */
  ghost predicate Holds(s: seq<byte>, p: nat, bits: seq<bool>) {
    forall i: nat :: i < |bits| && p + i < 8 * |s| ==> StreamBit(s, p + i) == bits[i]
  }

  /** No bit is set from position p on. */
  ghost predicate Clean(s: seq<byte>, p: nat) {
    forall i: nat :: p <= i < 8 * |s| ==> !StreamBit(s, i)
  }

  /** s1 is s0 with `bits` written at p: nothing before p changed, nothing after them is set. */
  ghost predicate Grew(s0: seq<byte>, s1: seq<byte>, p: nat, bits: seq<bool>) {
    && |s1| == |s0|
    && (forall i: nat :: i < p && i < 8 * |s0| ==> StreamBit(s1, i) == StreamBit(s0, i))
    && Holds(s1, p, bits)
    && Clean(s1, p + |bits|)
  }

  lemma GrewNothing(s: seq<byte>, p: nat)
    requires Clean(s, p)
    ensures Grew(s, s, p, [])
  {
  }

  lemma GrewTwice(s0: seq<byte>, s1: seq<byte>, s2: seq<byte>, p: nat, a: seq<bool>, b: seq<bool>)
    requires Grew(s0, s1, p, a) && Grew(s1, s2, p + |a|, b)
    ensures Grew(s0, s2, p, a + b)
  {
    forall i: nat | i < |a + b| && p + i < 8 * |s2| ensures StreamBit(s2, p + i) == (a + b)[i] {
      if i < |a| {
        assert StreamBit(s2, p + i) == StreamBit(s1, p + i);
      } else {
        assert StreamBit(s2, (p + |a|) + (i - |a|)) == b[i - |a|];
      }
    }
    forall i: nat | i < p && i < 8 * |s0| ensures StreamBit(s2, i) == StreamBit(s0, i) {
      assert StreamBit(s2, i) == StreamBit(s1, i);
    }
  }

  /** What was written before p stays. */
  lemma HoldsAfter(s0: seq<byte>, s1: seq<byte>, p: nat, bits: seq<bool>, q: nat, old_: seq<bool>)
    requires Grew(s0, s1, p, bits) && Holds(s0, q, old_) && q + |old_| <= p
    ensures Holds(s1, q, old_)
  {
    forall i: nat | i < |old_| && q + i < 8 * |s1| ensures StreamBit(s1, q + i) == old_[i] {
      assert StreamBit(s1, q + i) == StreamBit(s0, q + i);
    }
  }

  lemma HoldsSplit(s: seq<byte>, p: nat, a: seq<bool>, b: seq<bool>)
    requires Holds(s, p, a + b)
    ensures Holds(s, p, a) && Holds(s, p + |a|, b)
  {
    forall i: nat | i < |a| && p + i < 8 * |s| ensures StreamBit(s, p + i) == a[i] {
      assert StreamBit(s, p + i) == (a + b)[i];
    }
    forall i: nat | i < |b| && p + |a| + i < 8 * |s| ensures StreamBit(s, p + |a| + i) == b[i] {
      assert StreamBit(s, p + (|a| + i)) == (a + b)[|a| + i];
    }
  }

  lemma HoldsPrefix(s: seq<byte>, p: nat, a: seq<bool>, b: seq<bool>)
    requires Holds(s, p, b) && a <= b
    ensures Holds(s, p, a)
  {
    assert b == a + b[|a|..];
    HoldsSplit(s, p, a, b[|a|..]);
  }

  /** A part of what the stream holds. */
  lemma Placed(s: seq<byte>, p: nat, all: seq<bool>, a: seq<bool>, b: seq<bool>)
    requires Holds(s, p, all) && a + b <= all
    ensures Holds(s, p + |a|, b) && |a| + |b| <= |all|
  {
    HoldsPrefix(s, p, a + b, all);
    HoldsSplit(s, p, a, b);
  }

  lemma HoldsJoin(s: seq<byte>, p: nat, a: seq<bool>, b: seq<bool>)
    requires Holds(s, p, a) && Holds(s, p + |a|, b)
    ensures Holds(s, p, a + b)
  {
    forall i: nat | i < |a + b| && p + i < 8 * |s| ensures StreamBit(s, p + i) == (a + b)[i] {
      if i >= |a| { assert StreamBit(s, (p + |a|) + (i - |a|)) == b[i - |a|]; }
    }
  }

  // -------- writing --------------------------------------------------------------------

  /** `e[r] |= v` on a Uint8Array: only the low eight bits are kept. */
  function OrAt(s: seq<byte>, r: nat, v: nat): (t: seq<byte>)
    ensures |t| == |s|
  {
    if r < |s| then
      var w := Low(Or(s[r], v), 8);
      LowBound(Or(s[r], v), 8);
      s[r := w]
    else s
  }

  lemma OrAtBit(s: seq<byte>, r: nat, v: nat, i: nat)
    requires i < 8 * |s|
    ensures StreamBit(OrAt(s, r, v), i) == (StreamBit(s, i) || (i / 8 == r && BitAt(v, i % 8)))
  {
    if i / 8 == r {
      OrBit(s[r], v, i % 8);
      LowBit(Or(s[r], v), 8, i % 8);
    }
  }

  /** The two-byte and the three-byte writer of the codec, as functions of the buffer. */
  function Put2(s: seq<byte>, p: nat, v: nat): (t: seq<byte>)
    ensures |t| == |s|
  {
    var w := Shl(v, p % 8);
    OrAt(OrAt(s, p / 8, w), p / 8 + 1, Shr(w, 8))
  }

  function Put3(s: seq<byte>, p: nat, v: nat): (t: seq<byte>)
    ensures |t| == |s|
  {
    OrAt(Put2(s, p, v), p / 8 + 2, Shr(Shl(v, p % 8), 16))
  }

  /** Where a shifted value's bits land in the three bytes from p / 8 on. */
  lemma Spread(v: nat, p: nat, i: nat)
    ensures i / 8 == p / 8 ==> BitAt(Shl(v, p % 8), i % 8) == (i >= p && BitAt(v, i - p))
    ensures i / 8 == p / 8 + 1 ==> i >= p && BitAt(Shr(Shl(v, p % 8), 8), i % 8) == BitAt(v, i - p)
    ensures i / 8 == p / 8 + 2 ==> i >= p && BitAt(Shr(Shl(v, p % 8), 16), i % 8) == BitAt(v, i - p)
  {
    hide BitAt, Shl, Shr;
    var k, m := p % 8, i % 8;
    var w := Shl(v, k);
    ShlBit(v, k, m);
    ShrBit(w, 8, m);
    ShlBit(v, k, m + 8);
    ShrBit(w, 16, m);
    ShlBit(v, k, m + 16);
    assert i - p == 8 * (i / 8 - p / 8) + m - k;
  }

  lemma Put2Bit(s: seq<byte>, p: nat, v: nat, i: nat)
    requires i < 8 * |s|
    ensures StreamBit(Put2(s, p, v), i)
         == (StreamBit(s, i) || (p <= i < 8 * (p / 8 + 2) && BitAt(v, i - p)))
  {
    hide OrAt, Shl, Shr, BitAt, StreamBit;
    var r := p / 8;
    var w := Shl(v, p % 8);
    OrAtBit(s, r, w, i);
    OrAtBit(OrAt(s, r, w), r + 1, Shr(w, 8), i);
    Spread(v, p, i);
  }

  lemma Put3Bit(s: seq<byte>, p: nat, v: nat, i: nat)
    requires i < 8 * |s|
    ensures StreamBit(Put3(s, p, v), i)
         == (StreamBit(s, i) || (p <= i < 8 * (p / 8 + 3) && BitAt(v, i - p)))
  {
    hide OrAt, Put2, Shl, Shr, BitAt, StreamBit;
    var w := Shl(v, p % 8);
    Put2Bit(s, p, v, i);
    OrAtBit(Put2(s, p, v), p / 8 + 2, Shr(w, 16), i);
    Spread(v, p, i);
  }

  /** On clean ground the two-byte writer sends the n bits of v, for n up to 9. */
  lemma Put2Grows(s: seq<byte>, p: nat, v: nat, n: nat)
    requires Clean(s, p) && v < Pow2(n) && n <= 9
    ensures Grew(s, Put2(s, p, v), p, ToBits(v, n))
  {
    hide BitAt, StreamBit, Put2, Pow2;
    forall i: nat | i < 8 * |s|
      ensures StreamBit(Put2(s, p, v), i) == (StreamBit(s, i) || (p <= i < p + n && BitAt(v, i - p)))
    {
      Put2Bit(s, p, v, i);
      if i >= p + n { HighBit(v, n, i - p); }
    }
  }

  /** The three-byte writer does so for n up to 17. */
  lemma Put3Grows(s: seq<byte>, p: nat, v: nat, n: nat)
    requires Clean(s, p) && v < Pow2(n) && n <= 17
    ensures Grew(s, Put3(s, p, v), p, ToBits(v, n))
  {
    hide BitAt, StreamBit, Put3, Pow2;
    forall i: nat | i < 8 * |s|
      ensures StreamBit(Put3(s, p, v), i) == (StreamBit(s, i) || (p <= i < p + n && BitAt(v, i - p)))
    {
      Put3Bit(s, p, v, i);
      if i >= p + n { HighBit(v, n, i - p); }
    }
  }

  method OrByte(buf: array<byte>, r: nat, v: nat)
    modifies buf
    ensures buf[..] == OrAt(old(buf[..]), r, v)
  {
    if r < buf.Length {
      LowBound(Or(buf[r], v), 8);
      buf[r] := Low(Or(buf[r], v), 8);
    }
  }

  /** Write v, a number of at most n <= 9 bits, at bit position p. */
  method Write2(buf: array<byte>, p: nat, v: nat, ghost n: nat)
    requires Clean(buf[..], p) && v < Pow2(n) && n <= 9
    modifies buf
    ensures buf[..] == Put2(old(buf[..]), p, v)
    ensures Grew(old(buf[..]), buf[..], p, ToBits(v, n))
  {
    ghost var s := buf[..];
    var w := Shl(v, p % 8);
    OrByte(buf, p / 8, w);
    OrByte(buf, p / 8 + 1, Shr(w, 8));
    Put2Grows(s, p, v, n);
  }

  /** Write v, a number of at most n <= 17 bits, at bit position p. */
  method Write3(buf: array<byte>, p: nat, v: nat, ghost n: nat)
    requires Clean(buf[..], p) && v < Pow2(n) && n <= 17
    modifies buf
    ensures buf[..] == Put3(old(buf[..]), p, v)
    ensures Grew(old(buf[..]), buf[..], p, ToBits(v, n))
  {
    ghost var s := buf[..];
    var w := Shl(v, p % 8);
    OrByte(buf, p / 8, w);
    OrByte(buf, p / 8 + 1, Shr(w, 8));
    OrByte(buf, p / 8 + 2, Shr(w, 16));
    Put3Grows(s, p, v, n);
  }

  // -------- reading --------------------------------------------------------------------

  /** The two-byte reader: the n bits at position p (`& mask` with mask 2^n - 1). */
  function Read2(s: seq<byte>, p: nat, n: nat): nat {
    Low(Shr(Or(ByteAt(s, p / 8), Shl(ByteAt(s, p / 8 + 1), 8)), p % 8), n)
  }

  /** The three-byte reader: the bits from position p on, 17 of them at least. */
  function Peek3(s: seq<byte>, p: nat): nat {
    Shr(Or(Or(ByteAt(s, p / 8), Shl(ByteAt(s, p / 8 + 1), 8)), Shl(ByteAt(s, p / 8 + 2), 16)), p % 8)
  }

  /** Whole bytes needed for p bits. */
  function ByteCount(p: nat): nat {
    (p + 7) / 8
  }

  lemma ByteBit(b: byte, k: nat, i: nat)
    ensures BitAt(Shl(b, k), i) == (k <= i < k + 8 && BitAt(b, i - k))
  {
    ShlBit(b, k, i);
    if i >= k + 8 {
      assert Pow2(8) == 256;
      HighBit(b, 8, i - k);
    }
  }

  /** Neighbouring bytes put together, lowest first, are a stretch of the stream. */
  lemma PairBit(s: seq<byte>, r: nat, j: nat)
    ensures BitAt(Or(ByteAt(s, r), Shl(ByteAt(s, r + 1), 8)), j) == (j < 16 && StreamBit(s, 8 * r + j))
  {
    OrBit(ByteAt(s, r), Shl(ByteAt(s, r + 1), 8), j);
    ByteBit(ByteAt(s, r), 0, j);
    ByteBit(ByteAt(s, r + 1), 8, j);
    if j < 8 {
      assert (8 * r + j) / 8 == r && (8 * r + j) % 8 == j;
    } else if j < 16 {
      assert (8 * r + j) / 8 == r + 1 && (8 * r + j) % 8 == j - 8;
    }
  }

  lemma TripleBit(s: seq<byte>, r: nat, j: nat)
    requires j < 24
    ensures BitAt(Or(Or(ByteAt(s, r), Shl(ByteAt(s, r + 1), 8)), Shl(ByteAt(s, r + 2), 16)), j)
         == StreamBit(s, 8 * r + j)
  {
    var two := Or(ByteAt(s, r), Shl(ByteAt(s, r + 1), 8));
    OrBit(two, Shl(ByteAt(s, r + 2), 16), j);
    PairBit(s, r, j);
    ByteBit(ByteAt(s, r + 2), 16, j);
    if j >= 16 {
      assert (8 * r + j) / 8 == r + 2 && (8 * r + j) % 8 == j - 16;
    }
  }

  lemma Read2Bit(s: seq<byte>, p: nat, n: nat, i: nat)
    requires n <= 9 && i < n
    ensures BitAt(Read2(s, p, n), i) == StreamBit(s, p + i)
  {
    var r, k := p / 8, p % 8;
    var two := Or(ByteAt(s, r), Shl(ByteAt(s, r + 1), 8));
    LowBit(Shr(two, k), n, i);
    ShrBit(two, k, i);
    PairBit(s, r, i + k);
    assert 8 * r + (i + k) == p + i;
  }

  lemma Peek3Bit(s: seq<byte>, p: nat, i: nat)
    requires i < 17
    ensures BitAt(Peek3(s, p), i) == StreamBit(s, p + i)
  {
    var r, k := p / 8, p % 8;
    ShrBit(Or(Or(ByteAt(s, r), Shl(ByteAt(s, r + 1), 8)), Shl(ByteAt(s, r + 2), 16)), k, i);
    TripleBit(s, r, i + k);
    assert 8 * r + (i + k) == p + i;
  }

  /** Reader and writer are inverse: n bits written as v are read as v. */
  lemma Read2Value(s: seq<byte>, p: nat, v: nat, n: nat)
    requires n <= 9 && v < Pow2(n) && Holds(s, p, ToBits(v, n)) && p + n <= 8 * |s|
    ensures Read2(s, p, n) == v
  {
    LowBound(Shr(Or(ByteAt(s, p / 8), Shl(ByteAt(s, p / 8 + 1), 8)), p % 8), n);
    forall i | 0 <= i < n ensures BitAt(Read2(s, p, n), i) == BitAt(v, i) {
      Read2Bit(s, p, n, i);
      assert StreamBit(s, p + i) == ToBits(v, n)[i];
    }
    SameBits(Read2(s, p, n), v, n);
  }

  lemma Peek3Value(s: seq<byte>, p: nat, v: nat, n: nat)
    requires n <= 17 && v < Pow2(n) && Holds(s, p, ToBits(v, n)) && p + n <= 8 * |s|
    ensures Low(Peek3(s, p), n) == v
  {
    LowBound(Peek3(s, p), n);
    forall i | 0 <= i < n ensures BitAt(Low(Peek3(s, p), n), i) == BitAt(v, i) {
      LowBit(Peek3(s, p), n, i);
      Peek3Bit(s, p, i);
      assert StreamBit(s, p + i) == ToBits(v, n)[i];
    }
    SameBits(Low(Peek3(s, p), n), v, n);
  }

  // -------- whole bytes ----------------------------------------------------------------

  function ByteBits(bytes: seq<byte>): (bs: seq<bool>)
    ensures |bs| == 8 * |bytes|
  {
    seq(8 * |bytes|, i requires 0 <= i < 8 * |bytes| => BitAt(bytes[i / 8], i % 8))
  }

  /** At a byte boundary the stream holds the bits of some bytes just when it holds the bytes. */
  lemma BytesHeld(s: seq<byte>, i: nat, bytes: seq<byte>)
    requires Holds(s, 8 * i, ByteBits(bytes)) && i + |bytes| <= |s|
    ensures s[i..i + |bytes|] == bytes
  {
    forall k | 0 <= k < |bytes| ensures s[i + k] == bytes[k] {
      forall j | 0 <= j < 8 ensures BitAt(s[i + k], j) == BitAt(bytes[k], j) {
        assert StreamBit(s, 8 * i + (8 * k + j)) == ByteBits(bytes)[8 * k + j];
      }
      assert Pow2(8) == 256;
      SameBits(s[i + k], bytes[k], 8);
    }
  }

  lemma BytesHold(s: seq<byte>, i: nat, bytes: seq<byte>)
    requires forall k :: 0 <= k < |bytes| && i + k < |s| ==> s[i + k] == bytes[k]
    ensures Holds(s, 8 * i, ByteBits(bytes))
  {
    forall n: nat | n < 8 * |bytes| && 8 * i + n < 8 * |s| ensures StreamBit(s, 8 * i + n) == ByteBits(bytes)[n] {
      assert (8 * i + n) / 8 == i + n / 8 && (8 * i + n) % 8 == n % 8;
    }
  }

  /** Any bits can be put into bytes. */
  lemma {:induction false} Packed(bits: seq<bool>, n: nat) returns (s: seq<byte>)
    requires |bits| <= 8 * n
    ensures |s| == n && Holds(s, 0, bits) && Clean(s, |bits|)
  {
    hide *;
    if bits == [] {
      s := Blank(n);
    } else {
      var m := |bits| - 1;
      var t := Packed(bits[..m], n);
      var v := if bits[m] then 1 else 0;
      OneBit(bits[m]);
      Put2Grows(t, m, v, 1);
      s := Put2(t, m, v);
      HoldsAfter(t, s, m, [bits[m]], 0, bits[..m]);
      GrewHolds(t, s, m, [bits[m]]);
      HoldsJoin(s, 0, bits[..m], [bits[m]]);
      assert bits[..m] + [bits[m]] == bits;
    }
  }

  lemma Blank(n: nat) returns (s: seq<byte>)
    ensures |s| == n && Holds(s, 0, []) && Clean(s, 0)
  {
    s := seq(n, _ => 0);
    forall i: nat | i < 8 * n ensures !StreamBit(s, i) { ZeroBit(i % 8); }
  }

  lemma OneBit(bit: bool)
    ensures var v := if bit then 1 else 0; v < Pow2(1) && ToBits(v, 1) == [bit]
  {
  }

  lemma GrewHolds(s0: seq<byte>, s1: seq<byte>, p: nat, bits: seq<bool>)
    requires Grew(s0, s1, p, bits)
    ensures Holds(s1, p, bits) && Clean(s1, p + |bits|) && |s1| == |s0|
  {
  }
}
