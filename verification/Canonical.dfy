/**
 Canonical Huffman codes from code lengths (section 3.2.2 of RFC 1951), with the encoding and
 the decoding table the codec builds from them.  A length of 0 means that the symbol is unused.
 */
module Canonical {
  import opened Bits

  /** How many symbols have length k. */
  function Count(lens: seq<nat>, k: nat): nat {
    if |lens| == 0 || k == 0 then 0 else
      var n := |lens| - 1;
      Count(lens[..n], k) + (if lens[n] == k then 1 else 0)
  }

  /** The first code of length k. */
  function First(lens: seq<nat>, k: nat): nat {
    if k == 0 then 0 else 2 * (First(lens, k - 1) + Count(lens, k - 1))
  }

  /** 2^t times the Kraft sum of the lengths up to t. */
  function Kraft(lens: seq<nat>, t: nat): nat {
    if |lens| == 0 then 0 else
      var n := |lens| - 1;
      Kraft(lens[..n], t) + (if 0 < lens[n] <= t then Pow2(t - lens[n]) else 0)
  }

  /** The bits that codes of lengths t take for the counts f. */
  function Dot(f: seq<nat>, t: seq<nat>): nat {
    if |t| == 0 then 0 else
      var n := |t| - 1;
      Dot(f, t[..n]) + (if n < |f| then f[n] * t[n] else 0)
  }

  ghost predicate LengthsUpTo(lens: seq<nat>, t: nat) {
    forall a :: 0 <= a < |lens| ==> lens[a] <= t
  }

  /** The code of symbol a: its rank among the symbols of its length, after First. */
  function Code(lens: seq<nat>, a: nat): nat
    requires a < |lens|
  {
    First(lens, lens[a]) + Count(lens[..a], lens[a])
  }

  /** The bits sent for symbol a, in the order they are sent. */
  function CodeBits(lens: seq<nat>, a: nat): (bs: seq<bool>)
    requires a < |lens|
    ensures |bs| == lens[a]
  {
    MsbBits(Code(lens, a), lens[a])
  }

  // -------- the code space -------------------------------------------------------------

  lemma CountNext(lens: seq<nat>, a: nat, k: nat)
    requires a < |lens|
    ensures Count(lens[..a + 1], k) == Count(lens[..a], k) + (if lens[a] == k && k > 0 then 1 else 0)
  {
    assert lens[..a + 1][..a] == lens[..a];
  }

  lemma {:induction false} CountMono(lens: seq<nat>, a: nat, b: nat, k: nat)
    requires a <= b <= |lens|
    ensures Count(lens[..a], k) <= Count(lens[..b], k)
    decreases b - a
  {
    if a < b {
      CountNext(lens, b - 1, k);
      CountMono(lens, a, b - 1, k);
    }
  }

  lemma {:induction false} KraftNext(lens: seq<nat>, t: nat)
    ensures Kraft(lens, t + 1) == 2 * Kraft(lens, t) + Count(lens, t + 1)
  {
    if |lens| > 0 {
      KraftNext(lens[..|lens| - 1], t);
    }
  }

  /** The Kraft sum counts the code space that the codes up to length t take up. */
  lemma {:induction false} KraftFirst(lens: seq<nat>, t: nat)
    ensures Kraft(lens, t) == First(lens, t) + Count(lens, t)
  {
    if t == 0 {
      KraftZero(lens);
    } else {
      KraftFirst(lens, t - 1);
      KraftNext(lens, t - 1);
    }
  }

  lemma {:induction false} KraftZero(lens: seq<nat>)
    ensures Kraft(lens, 0) == 0
  {
    if |lens| > 0 { KraftZero(lens[..|lens| - 1]); }
  }

  /** If the whole code fits its space, so do the codes up to any smaller length. */
  lemma {:induction false} KraftBelow(lens: seq<nat>, k: nat, t: nat)
    requires k <= t && Kraft(lens, t) <= Pow2(t)
    ensures Kraft(lens, k) <= Pow2(k)
    decreases t - k
  {
    if k < t {
      KraftBelow(lens, k + 1, t);
      KraftNext(lens, k);
    }
  }

  function Share(len: nat, t: nat): nat {
    if 0 < len <= t then Pow2(t - len) else 0
  }

  /** Changing one length changes the Kraft sum by that symbol's share. */
  lemma {:induction false} KraftUpdate(lens: seq<nat>, a: nat, x: nat, t: nat)
    requires a < |lens|
    ensures Kraft(lens[a := x], t) + Share(lens[a], t) == Kraft(lens, t) + Share(x, t)
  {
    var n := |lens| - 1;
    if a < n {
      assert lens[a := x][..n] == lens[..n][a := x];
      KraftUpdate(lens[..n], a, x, t);
    } else {
      assert lens[a := x][..n] == lens[..n];
    }
  }

  lemma {:induction false} CountNone(lens: seq<nat>, k: nat)
    requires forall a :: 0 <= a < |lens| ==> lens[a] < k
    ensures Count(lens, k) == 0
  {
    if |lens| > 0 { CountNone(lens[..|lens| - 1], k); }
  }

  /** Past the longest length, one more bit of resolution just doubles the sum. */
  lemma {:induction false} KraftScale(lens: seq<nat>, r: nat, t: nat)
    requires r <= t && LengthsUpTo(lens, r)
    ensures Kraft(lens, t) == Shl(Kraft(lens, r), t - r)
    decreases t
  {
    if r < t {
      KraftScale(lens, r, t - 1);
      KraftNext(lens, t - 1);
      CountNone(lens, t);
    }
  }

  /** When every used symbol has the longest length, each takes one unit. */
  lemma {:induction false} KraftFlat(lens: seq<nat>, r: nat)
    requires forall a :: 0 <= a < |lens| ==> lens[a] == 0 || lens[a] == r
    ensures Kraft(lens, r) <= |lens|
  {
    if |lens| > 0 { KraftFlat(lens[..|lens| - 1], r); }
  }

  lemma {:induction false} KraftUnused(lens: seq<nat>, t: nat)
    requires forall a :: 0 <= a < |lens| ==> lens[a] == 0
    ensures Kraft(lens, t) == 0
  {
    if |lens| > 0 { KraftUnused(lens[..|lens| - 1], t); }
  }

  lemma CodeBound(lens: seq<nat>, a: nat, t: nat)
    requires a < |lens| && 0 < lens[a] <= t && Kraft(lens, t) <= Pow2(t)
    ensures Code(lens, a) + 1 <= Kraft(lens, lens[a]) <= Pow2(lens[a])
  {
    KraftBelow(lens, lens[a], t);
    KraftFirst(lens, lens[a]);
    CountNext(lens, a, lens[a]);
    CountMono(lens, a + 1, |lens|, lens[a]);
    assert lens[..|lens|] == lens;
  }

  lemma {:induction false} FirstAfter(lens: seq<nat>, j: nat, k: nat)
    requires j < k
    ensures Shl(Kraft(lens, j), k - j) <= First(lens, k)
    decreases k
  {
    KraftFirst(lens, j);
    if j + 1 < k {
      FirstAfter(lens, j, k - 1);
    } else {
      assert Shl(Kraft(lens, j), 1) == 2 * Shl(Kraft(lens, j), 0);
    }
  }

  /** Seen as intervals of t-bit numbers, the code of a lies entirely before that of b when a
      is shorter, or as long and earlier. */
  lemma CodesOrdered(lens: seq<nat>, a: nat, b: nat, t: nat)
    requires a < |lens| && b < |lens| && 0 < lens[a] && lens[b] <= t && Kraft(lens, t) <= Pow2(t)
    requires lens[a] < lens[b] || (lens[a] == lens[b] && a < b)
    ensures Shl(Code(lens, a) + 1, t - lens[a]) <= Shl(Code(lens, b), t - lens[b])
  {
    var j, k := lens[a], lens[b];
    if j == k {
      CountNext(lens, a, j);
      CountMono(lens, a + 1, b, j);
      ShlMono(Code(lens, a) + 1, Code(lens, b), t - k);
    } else {
      CodeBound(lens, a, t);
      ShlMono(Code(lens, a) + 1, Kraft(lens, j), t - j);
      ShlShl(Kraft(lens, j), k - j, t - k);
      FirstAfter(lens, j, k);
      ShlMono(Shl(Kraft(lens, j), k - j), First(lens, k), t - k);
      ShlMono(First(lens, k), Code(lens, b), t - k);
    }
  }

  /** The t-bit numbers that start (highest bit first) with the code of a. */
  predicate StartsWith(lens: seq<nat>, a: nat, t: nat, g: nat)
    requires a < |lens| && lens[a] <= t
  {
    Shr(g, t - lens[a]) == Code(lens, a)
  }

  /** No number starts with two different codes: the code is prefix-free. */
  lemma PrefixFree(lens: seq<nat>, a: nat, b: nat, t: nat, g: nat)
    requires a < |lens| && b < |lens| && a != b && 0 < lens[a] <= t && 0 < lens[b] <= t
    requires Kraft(lens, t) <= Pow2(t) && StartsWith(lens, a, t, g)
    ensures !StartsWith(lens, b, t, g)
  {
    ShrInterval(g, Code(lens, a), t - lens[a]);
    ShrInterval(g, Code(lens, b), t - lens[b]);
    if lens[a] < lens[b] || (lens[a] == lens[b] && a < b) {
      CodesOrdered(lens, a, b, t);
    } else {
      CodesOrdered(lens, b, a, t);
    }
  }

  /** No code's bits are the beginning of another code's bits. */
  lemma CodeBitsPrefixFree(lens: seq<nat>, a: nat, b: nat, t: nat)
    requires a < |lens| && b < |lens| && a != b && 0 < lens[a] <= t && 0 < lens[b] <= t
    requires Kraft(lens, t) <= Pow2(t)
    ensures !(CodeBits(lens, a) <= CodeBits(lens, b))
  {
    if CodeBits(lens, a) <= CodeBits(lens, b) {
      var k := lens[b];
      CodeBound(lens, a, t);
      CodeBound(lens, b, t);
      KraftBelow(lens, k, t);
      MsbPrefix(Code(lens, a), lens[a], Code(lens, b), k);
      PrefixFree(lens, a, b, k, Code(lens, b));
    }
  }

  /** Unused symbols at the end of the list change nothing. */
  lemma {:induction false} CountPad(lens: seq<nat>, n: nat, k: nat)
    ensures Count(lens + seq(n, _ => 0), k) == Count(lens, k)
  {
    var z: seq<nat> := seq(n, _ => 0);
    if n == 0 {
      assert lens + z == lens;
    } else {
      assert (lens + z)[..|lens| + n - 1] == lens + seq(n - 1, _ => 0);
      CountPad(lens, n - 1, k);
    }
  }

  lemma {:induction false} FirstPad(lens: seq<nat>, n: nat, k: nat)
    ensures First(lens + seq(n, _ => 0), k) == First(lens, k)
  {
    if k > 0 {
      FirstPad(lens, n, k - 1);
      CountPad(lens, n, k - 1);
    }
  }

  lemma CodePad(lens: seq<nat>, n: nat, a: nat)
    requires a < |lens|
    ensures CodeBits(lens + seq(n, _ => 0), a) == CodeBits(lens, a)
  {
    FirstPad(lens, n, lens[a]);
    assert (lens + seq(n, _ => 0))[..a] == lens[..a];
  }

  lemma KraftPad(lens: seq<nat>, n: nat, t: nat)
    ensures Kraft(lens + seq(n, _ => 0), t) == Kraft(lens, t)
  {
    KraftFirst(lens, t);
    KraftFirst(lens + seq(n, _ => 0), t);
    FirstPad(lens, n, t);
    CountPad(lens, n, t);
  }

  /** A code that fits with its own longest length fits with any longer one. */
  lemma KraftWider(lens: seq<nat>, r: nat, t: nat)
    requires r <= t && LengthsUpTo(lens, r) && Kraft(lens, r) <= Pow2(r)
    ensures LengthsUpTo(lens, t) && Kraft(lens, t) <= Pow2(t)
  {
    hide Kraft, Shl, Pow2;
    KraftScale(lens, r, t);
    ShlMono(Kraft(lens, r), Pow2(r), t - r);
    ShlPow2(r, t - r);
  }

  // -------- the tables -----------------------------------------------------------------

  /** Bits read lowest first from w begin with the code of a. */
  ghost predicate Shows(lens: seq<nat>, a: nat, w: nat)
    requires a < |lens|
  {
    forall i :: 0 <= i < lens[a] ==> BitAt(w, i) == CodeBits(lens, a)[i]
  }

  /** The encoding table: for every used symbol, its code ready to be sent lowest bit first. */
  ghost predicate Encodes(table: seq<nat>, lens: seq<nat>) {
    && |table| == |lens|
    && forall a :: 0 <= a < |lens| && lens[a] > 0 ==>
      table[a] < Pow2(lens[a]) && ToBits(table[a], lens[a]) == CodeBits(lens, a)
  }

  /** The decoding table: a window that shows a used symbol's code yields that symbol and its
      length, packed as 16 * symbol + length. */
  ghost predicate Decodes(table: seq<nat>, lens: seq<nat>, t: nat) {
    && |table| == Pow2(t)
    && forall a, w {:trigger Shows(lens, a, w)} ::
      0 <= a < |lens| && lens[a] > 0 && 0 <= w < |table| && Shows(lens, a, w) ==> table[w] == 16 * a + lens[a]
  }

  /** What an entry can be at all, whatever the lengths. */
  ghost predicate EntriesOk(table: seq<nat>, n: nat, t: nat) {
    forall w :: 0 <= w < |table| ==> table[w] == 0 || (1 <= table[w] % 16 <= t && table[w] / 16 < n)
  }

  /** The two tables are inverse: what the encoding table sends is decoded. */
  lemma TablesInverse(enc: seq<nat>, dec: seq<nat>, lens: seq<nat>, t: nat, a: nat, w: nat)
    requires Encodes(enc, lens) && Decodes(dec, lens, t)
    requires a < |lens| && lens[a] > 0 && w < Pow2(t)
    requires Low(w, lens[a]) == enc[a]
    ensures dec[w] == 16 * a + lens[a]
  {
    forall i | 0 <= i < lens[a] ensures BitAt(w, i) == CodeBits(lens, a)[i] {
      LowBit(w, lens[a], i);
      assert ToBits(enc[a], lens[a])[i] == BitAt(enc[a], i);
    }
    assert Shows(lens, a, w);
  }

  /** A window shows a code just when, reversed, it starts with it. */
  lemma ShowsStarts(lens: seq<nat>, a: nat, t: nat, w: nat)
    requires a < |lens| && 0 < lens[a] <= t <= 15 && Kraft(lens, t) <= Pow2(t)
    requires w < Pow2(t) && Shows(lens, a, w)
    ensures StartsWith(lens, a, t, Rev(w, t))
  {
    CodeBound(lens, a, t);
    RevLeading(w, t, Code(lens, a), lens[a]);
  }

  /** How many codes there are of each length; entry k counts length k + 1. */
  method CountLengths(e: seq<nat>, t: nat) returns (o: array<nat>)
    requires LengthsUpTo(e, t)
    ensures fresh(o) && o.Length == t
    ensures forall k :: 0 <= k < t ==> o[k] == Count(e, k + 1)
  {
    o := new nat[t](_ => 0);
    for a := 0 to |e|
      invariant forall k :: 0 <= k < t ==> o[k] == Count(e[..a], k + 1)
    {
      forall k: nat ensures Count(e[..a + 1], k) == Count(e[..a], k) + (if e[a] == k && k > 0 then 1 else 0) {
        CountNext(e, a, k);
      }
      if e[a] != 0 { o[e[a] - 1] := o[e[a] - 1] + 1; }
    }
    assert e[..|e|] == e;
  }

  lemma DoubleCell(x: nat, y: nat)
    ensures (x % 65536 + y) * 2 % 65536 == 2 * (x + y) % 65536
  {
    WholeCells((x % 65536 + y) * 2, 2 * (x / 65536));
  }

  lemma {:induction false} WholeCells(r: nat, q: nat)
    ensures (r + q * 65536) % 65536 == r % 65536
  {
    if q > 0 {
      WholeCells(r, q - 1);
      AnotherCell(r + (q - 1) * 65536);
    }
  }

  lemma AnotherCell(r: nat)
    ensures (r + 65536) % 65536 == r % 65536
  {
  }

  /** The first code of each length, in 16-bit cells; entry k is for length k + 1. */
  method FirstCodes(e: seq<nat>, t: nat) returns (l: array<nat>)
    requires LengthsUpTo(e, t)
    ensures fresh(l) && l.Length == t
    ensures forall k :: 0 <= k < t ==> l[k] == First(e, k + 1) % 65536
  {
    var o := CountLengths(e, t);
    l := new nat[t](_ => 0);
    var a := 1;
    while a < t
      invariant 1 <= a
      invariant forall k :: 0 <= k < a && k < t ==> l[k] == First(e, k + 1) % 65536
      modifies l
    {
      assert l[a - 1] == First(e, (a - 1) + 1) % 65536 && o[a - 1] == Count(e, (a - 1) + 1);
      l[a] := (l[a - 1] + o[a - 1]) * 2 % 65536;
      DoubleCell(First(e, a), Count(e, a));
      assert First(e, a + 1) == 2 * (First(e, a) + Count(e, a));
      a := a + 1;
    }
  }

  /** The cells of FirstCodes after the symbols below a have taken their codes. */
  ghost predicate NextCodes(l: seq<nat>, e: seq<nat>, a: nat, t: nat)
    requires a <= |e|
  {
    |l| == t && forall k :: 0 <= k < t ==> l[k] == (First(e, k + 1) + Count(e[..a], k + 1)) % 65536
  }

  /** Take the next code of a length. */
  method TakeCode(l: array<nat>, e: seq<nat>, a: nat, t: nat) returns (c: nat)
    requires a < |e| && 0 < e[a] <= t && NextCodes(l[..], e, a, t)
    modifies l
    ensures c == Code(e, a) % 65536 && NextCodes(l[..], e, a + 1, t)
  {
    c := l[e[a] - 1];
    l[e[a] - 1] := (c + 1) % 65536;
    forall k | 0 <= k < t ensures l[k] == (First(e, k + 1) + Count(e[..a + 1], k + 1)) % 65536 {
      CountNext(e, a, k + 1);
    }
  }

  lemma NoCode(l: seq<nat>, e: seq<nat>, a: nat, t: nat)
    requires a < |e| && e[a] == 0 && NextCodes(l, e, a, t)
    ensures NextCodes(l, e, a + 1, t)
  {
    forall k | 0 <= k < t ensures l[k] == (First(e, k + 1) + Count(e[..a + 1], k + 1)) % 65536 {
      CountNext(e, a, k + 1);
    }
  }

  /** Slot of the decoding table for the t-bit number g; the reversing table ends at 32768. */
  function Slot(g: nat, t: nat): (r: nat)
    requires t <= 15
    ensures r < Pow2(t)
  {
    RevBound(g, t);
    if g < 32768 then Rev(g, t) else 0
  }

  lemma FullCode(c: nat, k: nat)
    requires k <= 15 && c < Pow2(k)
    ensures c < 32768 && c % 65536 == c
    ensures Rev(c, k) < Pow2(k) && ToBits(Rev(c, k), k) == MsbBits(c, k)
  {
    hide BitAt, Rev;
    RevBound(c, k);
    Pow2Mono(k, 15);
    Pow2Fifteen();
    forall i | 0 <= i < k ensures BitAt(Rev(c, k), i) == BitAt(c, k - 1 - i) { RevBit(c, k, i); }
  }

  lemma NextStart(l: seq<nat>, e: seq<nat>, t: nat)
    requires |l| == t && forall k :: 0 <= k < t ==> l[k] == First(e, k + 1) % 65536
    ensures NextCodes(l, e, 0, t)
  {
    assert e[..0] == [];
  }

  /** A code taken from the cells, reversed, is what is sent. */
  lemma CodeSent(e: seq<nat>, a: nat, t: nat, c: nat)
    requires a < |e| && 0 < e[a] <= t <= 15 && Kraft(e, t) <= Pow2(t) && c == Code(e, a) % 65536
    ensures c < 32768 && Rev(c, e[a]) < Pow2(e[a]) && ToBits(Rev(c, e[a]), e[a]) == CodeBits(e, a)
  {
    hide Kraft, Code, Pow2, Rev, ToBits, MsbBits;
    CodeBound(e, a, t);
    FullCode(Code(e, a), e[a]);
  }

  /** The table with which symbols are sent. */
  method EncodeTable(e: seq<nat>, t: nat) returns (s: array<nat>)
    requires LengthsUpTo(e, t) && t <= 15
    ensures fresh(s)
    ensures Kraft(e, t) <= Pow2(t) ==> Encodes(s[..], e)
  {
    hide Kraft, Code, NextCodes, Pow2, ToBits, CodeBits, Rev;
    var l := FirstCodes(e, t);
    s := new nat[|e|](_ => 0);
    NextStart(l[..], e, t);
    for a := 0 to |e|
      invariant NextCodes(l[..], e, a, t)
      invariant Kraft(e, t) <= Pow2(t) ==> forall b :: 0 <= b < a && e[b] > 0 ==>
        s[b] < Pow2(e[b]) && ToBits(s[b], e[b]) == CodeBits(e, b)
    {
      if e[a] != 0 {
        var c := TakeCode(l, e, a, t);
        s[a] := if c < 32768 then Rev(c, e[a]) else 0;
        if Kraft(e, t) <= Pow2(t) { CodeSent(e, a, t, c); }
      } else {
        NoCode(l[..], e, a, t);
      }
    }
  }

  /** Store u in the slots of the n numbers from f on. */
  method FillSlots(s: array<nat>, f: nat, n: nat, t: nat, u: nat)
    requires t <= 15 && s.Length == Pow2(t)
    modifies s
    ensures forall w :: 0 <= w < s.Length ==> s[w] == old(s[w]) || s[w] == u
    ensures f + n <= Pow2(t) ==> forall g {:trigger Slot(g, t)} :: 0 <= g < Pow2(t) ==>
      s[Slot(g, t)] == if f <= g < f + n then u else old(s[Slot(g, t)])
  {
    var d := f;
    while d < f + n
      invariant f <= d <= f + n
      invariant forall w :: 0 <= w < s.Length ==> s[w] == old(s[w]) || s[w] == u
      invariant f + n <= Pow2(t) ==> forall g {:trigger Slot(g, t)} :: 0 <= g < Pow2(t) ==>
        s[Slot(g, t)] == if f <= g < d then u else old(s[Slot(g, t)])
    {
      s[Slot(d, t)] := u;
      if f + n <= Pow2(t) { SlotsDiffer(d, t); }
      d := d + 1;
    }
  }

  lemma SlotsDiffer(d: nat, t: nat)
    requires t <= 15 && d < Pow2(t)
    ensures forall g {:trigger Slot(g, t)} :: 0 <= g < Pow2(t) && g != d ==> Slot(g, t) != Slot(d, t)
  {
    Pow2Mono(t, 15);
    Pow2Fifteen();
    RevTwice(d, t);
    forall g | 0 <= g < Pow2(t) && g != d ensures Slot(g, t) != Slot(d, t) { RevTwice(g, t); }
  }

  /** The entries of the symbols below n are in place. */
  ghost predicate Filled(s: seq<nat>, e: seq<nat>, n: nat, t: nat)
    requires n <= |e| && LengthsUpTo(e, t) && t <= 15
  {
    && |s| == Pow2(t)
    && forall b, g {:trigger StartsWith(e, b, t, g)} ::
      0 <= b < n && e[b] > 0 && 0 <= g < Pow2(t) && StartsWith(e, b, t, g) ==> s[Slot(g, t)] == 16 * b + e[b]
  }

  lemma FilledNext(s0: seq<nat>, s1: seq<nat>, e: seq<nat>, a: nat, t: nat, f: nat, n: nat)
    requires LengthsUpTo(e, t) && t <= 15 && a < |e| && e[a] > 0 && Kraft(e, t) <= Pow2(t)
    requires Filled(s0, e, a, t) && |s1| == |s0|
    requires f == Shl(Code(e, a), t - e[a]) && n == Pow2(t - e[a])
    requires forall g {:trigger Slot(g, t)} :: 0 <= g < Pow2(t) ==>
      s1[Slot(g, t)] == if f <= g < f + n then 16 * a + e[a] else s0[Slot(g, t)]
    ensures Filled(s1, e, a + 1, t)
  {
    ShlNext(Code(e, a), t - e[a]);
    forall b, g | 0 <= b < a + 1 && e[b] > 0 && 0 <= g < Pow2(t) && StartsWith(e, b, t, g)
      ensures s1[Slot(g, t)] == 16 * b + e[b]
    {
      ShrInterval(g, Code(e, a), t - e[a]);
      if b < a { PrefixFree(e, b, a, t, g); }
    }
  }

  lemma RangeFits(e: seq<nat>, a: nat, t: nat)
    requires a < |e| && 0 < e[a] <= t && Kraft(e, t) <= Pow2(t)
    ensures Shl(Code(e, a), t - e[a]) + Pow2(t - e[a]) <= Pow2(t)
  {
    CodeBound(e, a, t);
    ShlNext(Code(e, a), t - e[a]);
    ShlMono(Code(e, a) + 1, Pow2(e[a]), t - e[a]);
    ShlPow2(e[a], t - e[a]);
  }

  lemma FilledDecodes(s: seq<nat>, e: seq<nat>, t: nat)
    requires LengthsUpTo(e, t) && t <= 15 && Kraft(e, t) <= Pow2(t) && Filled(s, e, |e|, t)
    ensures Decodes(s, e, t)
  {
    Pow2Mono(t, 15);
    Pow2Fifteen();
    forall a, w | 0 <= a < |e| && e[a] > 0 && 0 <= w < |s| && Shows(e, a, w) ensures s[w] == 16 * a + e[a] {
      ShowsStarts(e, a, t, w);
      RevBound(w, t);
      RevTwice(w, t);
      assert s[Slot(Rev(w, t), t)] == 16 * a + e[a];
    }
  }

  lemma NothingFilled(s: seq<nat>, e: seq<nat>, t: nat)
    requires LengthsUpTo(e, t) && t <= 15 && |s| == Pow2(t) && forall w :: 0 <= w < |s| ==> s[w] == 0
    ensures Filled(s, e, 0, t) && EntriesOk(s, |e|, t)
  {
  }

  lemma FilledSkip(s: seq<nat>, e: seq<nat>, a: nat, t: nat)
    requires LengthsUpTo(e, t) && t <= 15 && a < |e| && e[a] == 0 && Filled(s, e, a, t)
    ensures Filled(s, e, a + 1, t)
  {
  }

  lemma PackedParts(a: nat, k: nat)
    requires k <= 15
    ensures (16 * a + k) % 16 == k && (16 * a + k) / 16 == a
  {
  }

  /** One symbol's entries: all windows that begin with its code. */
  method FillCode(s: array<nat>, e: seq<nat>, a: nat, t: nat, c: nat)
    requires LengthsUpTo(e, t) && t <= 15 && a < |e| && e[a] > 0 && c == Code(e, a) % 65536 && s.Length == Pow2(t)
    requires EntriesOk(s[..], |e|, t) && (Kraft(e, t) <= Pow2(t) ==> Filled(s[..], e, a, t))
    modifies s
    ensures EntriesOk(s[..], |e|, t) && (Kraft(e, t) <= Pow2(t) ==> Filled(s[..], e, a + 1, t))
  {
    hide Kraft, Code, Filled, Shl, Pow2, Slot;
    ghost var before := s[..];
    FillSlots(s, Shl(c, t - e[a]), Pow2(t - e[a]), t, 16 * a + e[a]);
    PackedParts(a, e[a]);
    if Kraft(e, t) <= Pow2(t) {
      CodeBound(e, a, t);
      FullCode(Code(e, a), e[a]);
      RangeFits(e, a, t);
      FilledNext(before, s[..], e, a, t, Shl(c, t - e[a]), Pow2(t - e[a]));
    }
  }

  /** The table with which symbols are received. */
  method DecodeTable(e: seq<nat>, t: nat) returns (s: array<nat>)
    requires LengthsUpTo(e, t) && t <= 15
    ensures fresh(s) && s.Length == Pow2(t) && EntriesOk(s[..], |e|, t)
    ensures Kraft(e, t) <= Pow2(t) ==> Decodes(s[..], e, t)
  {
    hide Kraft, Code, Filled, Decodes, NextCodes, EntriesOk;
    var l := FirstCodes(e, t);
    s := new nat[Pow2(t)](_ => 0);
    NothingFilled(s[..], e, t);
    NextStart(l[..], e, t);
    for a := 0 to |e|
      invariant NextCodes(l[..], e, a, t) && EntriesOk(s[..], |e|, t)
      invariant Kraft(e, t) <= Pow2(t) ==> Filled(s[..], e, a, t)
    {
      if e[a] != 0 {
        var c := TakeCode(l, e, a, t);
        FillCode(s, e, a, t, c);
      } else {
        NoCode(l[..], e, a, t);
        if Kraft(e, t) <= Pow2(t) { FilledSkip(s[..], e, a, t); }
      }
    }
    if Kraft(e, t) <= Pow2(t) { FilledDecodes(s[..], e, t); }
  }
}
