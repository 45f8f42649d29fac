/**
 The checksum of the zlib wrapper: Adler-32 (section 2.2 of RFC 1950) with its reductions put
 off.
 */
module Checksums {

  import opened Bits

  // -------- Adler-32 -------------------------------------------------------------------

  const MODULUS: nat := 65521

  /** Bytes taken between two reductions. */
  const SPAN: nat := 2655

  /** The two sums as the standard has them, reduced at every byte. */
  function Sums(data: seq<byte>): (r: (nat, nat))
    ensures r.0 < MODULUS && r.1 < MODULUS
  {
    if data == [] then (1, 0) else
      var (s1, s2) := Sums(data[..|data| - 1]);
      var t := (s1 + data[|data| - 1]) % MODULUS;
      (t, (s2 + t) % MODULUS)
  }

  /** x reduced a little: its low half plus 15 times its high half. */
  function Folded(x: nat): (r: nat)
    ensures r % MODULUS == x % MODULUS
    ensures r <= 65535 + 15 * (x / 65536)
  {
    FoldMod(x / 65536, x % 65536);
    x % 65536 + 15 * (x / 65536)
  }

  /** 65536 is 15 modulo 65521. */
  lemma FoldMod(h: nat, l: nat)
    ensures (l + 15 * h) % MODULUS == (65536 * h + l) % MODULUS
  {
    assert 65536 * h + l == (l + 15 * h) + h * MODULUS;
    ModPlus(l + 15 * h, h);
  }

  lemma {:induction false} ModPlus(x: nat, h: nat)
    ensures (x + h * MODULUS) % MODULUS == x % MODULUS
  {
    if h > 0 {
      ModPlus(x, h - 1);
      assert x + h * MODULUS == (x + (h - 1) * MODULUS) + MODULUS;
    }
  }

  lemma ModSum(a: nat, b: nat)
    ensures (a + b) % MODULUS == (a % MODULUS + b) % MODULUS
    ensures (a + b) % MODULUS == (a % MODULUS + b % MODULUS) % MODULUS
  {
    ModPlus(a % MODULUS + b, a / MODULUS);
    ModPlus(a % MODULUS + b % MODULUS, b / MODULUS);
  }

  class Adler {
    var low: nat
    var high: nat
    /** Everything pushed so far. */
    ghost var seen: seq<byte>

    /** Between pushes the sums are small, and congruent to the standard's. */
    ghost predicate Valid()
      reads this
    {
      low <= 65700 && high <= 311385 && low % MODULUS == Sums(seen).0 && high % MODULUS == Sums(seen).1
    }

    constructor ()
      ensures Valid() && seen == []
    {
      low, high, seen := 1, 0, [];
    }

    /** One span: the sums grow without reduction, and never leave 31 bits. */
    method Span(data: seq<byte>, from: nat, to: nat, low0: nat, high0: nat, ghost before: seq<byte>) returns (r: nat, i: nat)
      requires from <= to <= |data| && to - from <= SPAN
      requires low0 <= 65700 && high0 <= 311385
      requires low0 % MODULUS == Sums(before + data[..from]).0 && high0 % MODULUS == Sums(before + data[..from]).1
      ensures r < 0x8000_0000 && i < 0x8000_0000
      ensures r <= 742725 && i <= 1073834085
      ensures r % MODULUS == Sums(before + data[..to]).0 && i % MODULUS == Sums(before + data[..to]).1
    {
      hide Sums, Triangle;
      NoTriangle();
      r, i := low0, high0;
      for o := from to to
        invariant r <= 65700 + 255 * (o - from) && i <= 311385 + 65700 * (o - from) + 255 * Triangle(o - from)
        invariant r % MODULUS == Sums(before + data[..o]).0 && i % MODULUS == Sums(before + data[..o]).1
      {
        OneMore(before, data, o, r, i);
        NextTriangle(o - from);
        r := r + data[o];
        i := i + r;
      }
      TriangleMonotone(to - from, SPAN);
      TriangleClosed(SPAN);
    }

    /** Add data. */
    method Push(data: seq<byte>)
      requires Valid()
      modifies this
      ensures Valid() && seen == old(seen) + data
    {
      hide Sums;
      var r: nat, i: nat := low, high;
      var o: nat := 0;
      assert seen + data[..0] == seen;
      while o != |data|
        invariant 0 <= o <= |data| && 0 <= r <= 65700 && 0 <= i <= 311385 && seen == old(seen)
        invariant r % MODULUS == Sums(seen + data[..o]).0 && i % MODULUS == Sums(seen + data[..o]).1
        decreases |data| - o
      {
        var s := if o + SPAN <= |data| then o + SPAN else |data|;
        r, i := Span(data, o, s, r, i, seen);
        r, i := Folded(r), Folded(i);
        o := s;
      }
      assert data[..o] == data;
      low, high, seen := r, i, seen + data;
    }

    /** The sums in the order of the trailer: read low byte first, this is s2 and then s1, each
        with its high byte first. */
    method Digest() returns (d: nat)
      requires Valid()
      modifies this`low, this`high
      ensures Valid() && seen == old(seen)
      ensures LittleEndian(d) == BigEndian(Sums(seen).1, Sums(seen).0)
    {
      hide Sums, LittleEndian, BigEndian;
      low, high := low % MODULUS, high % MODULUS;
      d := (low % 256) * 0x100_0000 + (low / 256) * 0x1_0000 + (high % 256) * 0x100 + high / 256;
      Trailer(low, high);
    }
  }

  lemma OneMore(before: seq<byte>, data: seq<byte>, o: nat, r: nat, i: nat)
    requires o < |data|
    requires r % MODULUS == Sums(before + data[..o]).0 && i % MODULUS == Sums(before + data[..o]).1
    ensures (r + data[o]) % MODULUS == Sums(before + data[..o + 1]).0
    ensures (i + (r + data[o])) % MODULUS == Sums(before + data[..o + 1]).1
  {
    hide Sums;
    SumsNext(before + data[..o], data[o]);
    assert before + data[..o + 1] == before + data[..o] + [data[o]];
    ModSum(r, data[o]);
    ModSum(i, r + data[o]);
  }

  lemma NoTriangle()
    ensures Triangle(0) == 0
  {
  }

  lemma NextTriangle(n: nat)
    ensures Triangle(n + 1) == n + 1 + Triangle(n)
  {
  }

  function Triangle(n: nat): nat { if n == 0 then 0 else n + Triangle(n - 1) }

  lemma {:induction false} TriangleMonotone(m: nat, n: nat)
    requires m <= n
    ensures Triangle(m) <= Triangle(n)
    decreases n
  {
    if m < n { TriangleMonotone(m, n - 1); }
  }

  lemma {:induction false} TriangleClosed(n: nat)
    ensures Triangle(n) == n * (n + 1) / 2
  {
    if n > 0 {
      TriangleClosed(n - 1);
      assert n * (n + 1) == (n - 1) * n + 2 * n;
    }
  }

  lemma SumsNext(data: seq<byte>, b: byte)
    ensures var (s1, s2) := Sums(data); var t := (s1 + b) % MODULUS; Sums(data + [b]) == (t, (s2 + t) % MODULUS)
  {
    assert (data + [b])[..|data|] == data;
  }

  function LittleEndian(d: nat): seq<byte> {
    [d % 256, d / 256 % 256, d / 256 / 256 % 256, d / 256 / 256 / 256 % 256]
  }

  /** Two 16-bit words, each with its high byte first. */
  function BigEndian(high: nat, low: nat): seq<byte> {
    [high / 256 % 256, high % 256, low / 256 % 256, low % 256]
  }

  lemma Trailer(s1: nat, s2: nat)
    requires s1 < MODULUS && s2 < MODULUS
    ensures LittleEndian((s1 % 256) * 0x100_0000 + (s1 / 256) * 0x1_0000 + (s2 % 256) * 0x100 + s2 / 256) == BigEndian(s2, s1)
  {
    Digits(s1 % 256, s1 / 256, s2 % 256, s2 / 256);
  }

  lemma Digits(a: nat, b: nat, c: nat, e: nat)
    requires a < 256 && b < 256 && c < 256 && e < 256
    ensures LittleEndian(a * 0x100_0000 + b * 0x1_0000 + c * 0x100 + e) == [e, c, b, a]
  {
    Digit(a * 0x1_0000 + b * 0x100 + c, e);
    Digit(a * 0x100 + b, c);
    Digit(a, b);
  }

  lemma Digit(x: nat, e: nat)
    requires e < 256
    ensures (x * 256 + e) / 256 == x && (x * 256 + e) % 256 == e
  {
  }
}
