/**
 Non-negative integers as JavaScript's bitwise operators see them: bit `i` of a number,
 shifts, `|`, `&`, `^` and the mask `& (1 << n) - 1`.  Every operator is defined bit by
 bit, and the lemmas say what each one does to bit `i` of its result.
 */
module Bits {

  type byte = x: nat | x < 256

  function Pow2(k: nat): (r: nat)
    ensures r > 0
  {
    if k == 0 then 1 else 2 * Pow2(k - 1)
  }

  predicate BitAt(v: nat, i: nat)
    decreases i
  {
    if i == 0 then v % 2 == 1 else BitAt(v / 2, i - 1)
  }

  /** `v << k`, on values that stay below 2^31. */
  function Shl(v: nat, k: nat): nat {
    if k == 0 then v else 2 * Shl(v, k - 1)
  }

  /** `v >> k`. */
  function Shr(v: nat, k: nat): nat
    decreases k
  {
    if k == 0 then v else Shr(v / 2, k - 1)
  }

  /** `v & (1 << n) - 1`. */
  function Low(v: nat, n: nat): nat
    decreases n
  {
    if n == 0 then 0 else v % 2 + 2 * Low(v / 2, n - 1)
  }

  function Or(a: nat, b: nat): nat {
    if a == 0 then b else
      (if a % 2 == 1 || b % 2 == 1 then 1 else 0) + 2 * Or(a / 2, b / 2)
  }

  function And(a: nat, b: nat): nat {
    if a == 0 then 0 else
      (if a % 2 == 1 && b % 2 == 1 then 1 else 0) + 2 * And(a / 2, b / 2)
  }

  function Xor(a: nat, b: nat): nat {
    if a == 0 then b else
      (if a % 2 != b % 2 then 1 else 0) + 2 * Xor(a / 2, b / 2)
  }

  lemma {:induction false} ZeroBit(i: nat)
    ensures !BitAt(0, i)
  {
    if i > 0 { ZeroBit(i - 1); }
  }

  lemma {:induction false} ShlBit(v: nat, k: nat, i: nat)
    ensures BitAt(Shl(v, k), i) == (i >= k && BitAt(v, i - k))
    decreases k
  {
    if k > 0 {
      var h := Shl(v, k - 1);
      assert 2 * h / 2 == h;
      if i > 0 { ShlBit(v, k - 1, i - 1); }
    }
  }

  lemma {:induction false} ShrBit(v: nat, k: nat, i: nat)
    ensures BitAt(Shr(v, k), i) == BitAt(v, i + k)
    decreases k
  {
    if k > 0 { ShrBit(v / 2, k - 1, i); }
  }

  lemma {:induction false} LowBit(v: nat, n: nat, i: nat)
    ensures BitAt(Low(v, n), i) == (i < n && BitAt(v, i))
    decreases n
  {
    if n == 0 {
      ZeroBit(i);
    } else {
      var h := Low(v / 2, n - 1);
      assert (v % 2 + 2 * h) / 2 == h && (v % 2 + 2 * h) % 2 == v % 2;
      if i > 0 { LowBit(v / 2, n - 1, i - 1); }
    }
  }

  lemma {:induction false} OrBit(a: nat, b: nat, i: nat)
    ensures BitAt(Or(a, b), i) == (BitAt(a, i) || BitAt(b, i))
    decreases i
  {
    if a == 0 {
      ZeroBit(i);
    } else if i > 0 {
      OrBit(a / 2, b / 2, i - 1);
    }
  }

  lemma {:induction false} AndBit(a: nat, b: nat, i: nat)
    ensures BitAt(And(a, b), i) == (BitAt(a, i) && BitAt(b, i))
    decreases i
  {
    if a == 0 {
      ZeroBit(i);
    } else if i > 0 {
      AndBit(a / 2, b / 2, i - 1);
    }
  }

  lemma {:induction false} XorBit(a: nat, b: nat, i: nat)
    ensures BitAt(Xor(a, b), i) == (BitAt(a, i) != BitAt(b, i))
    decreases i
  {
    if a == 0 {
      ZeroBit(i);
    } else if i > 0 {
      XorBit(a / 2, b / 2, i - 1);
    }
  }

  /** A number below 2^n has no bit at or above n. */
  lemma {:induction false} HighBit(v: nat, n: nat, i: nat)
    requires v < Pow2(n) && i >= n
    ensures !BitAt(v, i)
    decreases n
  {
    if n == 0 { ZeroBit(i); } else { HighBit(v / 2, n - 1, i - 1); }
  }

  lemma {:induction false} LowBound(v: nat, n: nat)
    ensures Low(v, n) < Pow2(n)
    decreases n
  {
    if n > 0 { LowBound(v / 2, n - 1); }
  }

  lemma {:induction false} ShrBound(v: nat, n: nat, k: nat)
    requires k <= n && v < Pow2(n)
    ensures Shr(v, k) < Pow2(n - k)
    decreases k
  {
    if k > 0 { ShrBound(v / 2, n - 1, k - 1); }
  }

  /** Numbers below 2^n with the same low n bits are equal. */
  lemma {:induction false} SameBits(a: nat, b: nat, n: nat)
    requires a < Pow2(n) && b < Pow2(n)
    requires forall i :: 0 <= i < n ==> BitAt(a, i) == BitAt(b, i)
    ensures a == b
    decreases n
  {
    if n > 0 {
      assert BitAt(a, 0) == BitAt(b, 0);
      forall i | 0 <= i < n - 1 ensures BitAt(a / 2, i) == BitAt(b / 2, i) {
        assert BitAt(a, i + 1) == BitAt(b, i + 1);
      }
      SameBits(a / 2, b / 2, n - 1);
    }
  }

  lemma {:induction false} BelowPow2(v: nat)
    ensures v < Pow2(v)
  {
    if v > 0 { BelowPow2(v - 1); }
  }

  /** A number without a bit at or above n is below 2^n. */
  lemma BitsBound(v: nat, n: nat)
    requires forall i: nat :: n <= i ==> !BitAt(v, i)
    ensures v < Pow2(n)
  {
    LowBound(v, n);
    BelowPow2(v);
    Pow2Mono(n, n + v);
    Pow2Mono(v, n + v);
    forall i: nat | i < n + v ensures BitAt(v, i) == BitAt(Low(v, n), i) {
      LowBit(v, n, i);
    }
    SameBits(v, Low(v, n), n + v);
  }

  lemma {:induction false} Pow2Mono(a: nat, b: nat)
    requires a <= b
    ensures Pow2(a) <= Pow2(b)
    decreases b
  {
    if a < b { Pow2Mono(a, b - 1); }
  }

  /** The n low bits of v, lowest first. */
  function ToBits(v: nat, n: nat): (bs: seq<bool>)
    ensures |bs| == n && forall i :: 0 <= i < n ==> bs[i] == BitAt(v, i)
  {
    seq(n, i requires 0 <= i < n => BitAt(v, i))
  }

  /** The n low bits of v, highest first: the order in which Huffman codes are sent. */
  function MsbBits(v: nat, n: nat): (bs: seq<bool>)
    ensures |bs| == n && forall i :: 0 <= i < n ==> bs[i] == BitAt(v, n - 1 - i)
  {
    seq(n, i requires 0 <= i < n => BitAt(v, n - 1 - i))
  }

  // -------- reversing 15 bits ----------------------------------------------------------

  /** The masks that select, in a 16-bit word, the upper and the lower of every two
      neighbouring groups of k bits. */
  function UpperMask(k: nat): nat {
    if k == 1 then 43690 else if k == 2 then 52428 else if k == 4 then 61680 else 65280
  }

  function LowerMask(k: nat): nat {
    if k == 1 then 21845 else if k == 2 then 13107 else if k == 4 then 3855 else 255
  }

  /** One stage of the table below: exchange neighbouring groups of k bits. */
  function Swap(k: nat, x: nat): nat {
    Or(Shr(And(UpperMask(k), x), k), Shl(And(LowerMask(k), x), k))
  }

  /** The entry `g` of the table that reverses 15 bits: swap neighbours, pairs, nibbles
      and bytes of a 16-bit word, then drop the bit that was not part of the number. */
  function Rev15(g: nat): nat {
    Shr(Swap(8, Swap(4, Swap(2, Swap(1, g)))), 1)
  }

  /** Bits of a number put together from its k low bits and the rest. */
  lemma {:induction false} JoinBit(low: nat, high: nat, k: nat, i: nat)
    requires low < Pow2(k)
    ensures BitAt(low + Pow2(k) * high, i) == if i < k then BitAt(low, i) else BitAt(high, i - k)
    decreases k
  {
    if k > 0 {
      var rest := Pow2(k - 1) * high;
      assert Pow2(k) * high == 2 * rest;
      assert (low + 2 * rest) / 2 == low / 2 + rest && (low + 2 * rest) % 2 == low % 2;
      if i > 0 { JoinBit(low / 2, high, k - 1, i - 1); }
    }
  }

  lemma NibbleBit(low: nat, high: nat, i: nat)
    requires low < 16
    ensures BitAt(low + 16 * high, i) == if i < 4 then BitAt(low, i) else BitAt(high, i - 4)
  {
    hide BitAt;
    assert Pow2(4) == 16;
    JoinBit(low, high, 4, i);
  }

  /** Bits of a 16-bit word written as four nibbles. */
  lemma WordBit(v: nat, n0: nat, n1: nat, n2: nat, n3: nat, i: nat)
    requires n0 < 16 && n1 < 16 && n2 < 16 && n3 < 16
    requires v == n0 + 16 * (n1 + 16 * (n2 + 16 * n3))
    ensures BitAt(v, i) == if i < 4 then BitAt(n0, i) else if i < 8 then BitAt(n1, i - 4)
                           else if i < 12 then BitAt(n2, i - 8) else BitAt(n3, i - 12)
  {
    hide BitAt;
    NibbleBit(n0, n1 + 16 * (n2 + 16 * n3), i);
    if i >= 4 { NibbleBit(n1, n2 + 16 * n3, i - 4); }
    if i >= 8 { NibbleBit(n2, n3, i - 8); }
  }

  lemma SmallBits(i: nat)
    ensures BitAt(10, i) == (i < 4 && i % 2 == 1) && BitAt(5, i) == (i < 4 && i % 2 == 0)
    ensures BitAt(12, i) == (2 <= i < 4) && BitAt(3, i) == (i < 2)
    ensures BitAt(15, i) == (i < 4) && !BitAt(0, i)
  {
    ZeroBit(i);
    if i >= 4 {
      assert Pow2(4) == 16;
      HighBit(10, 4, i); HighBit(5, 4, i); HighBit(12, 4, i); HighBit(3, 4, i); HighBit(15, 4, i);
    } else if i >= 2 {
      assert BitAt(10, i) == BitAt(2, i - 2) && BitAt(5, i) == BitAt(1, i - 2) && BitAt(12, i) == BitAt(3, i - 2);
      assert BitAt(3, i) == BitAt(0, i - 2) && BitAt(15, i) == BitAt(3, i - 2);
    }
  }

  predicate InUpper(k: nat, i: nat) {
    if k == 1 then i % 2 == 1 else if k == 2 then i / 2 % 2 == 1 else if k == 4 then i / 4 % 2 == 1 else i / 8 % 2 == 1
  }

  lemma MaskBit(k: nat, i: nat)
    requires k in {1, 2, 4, 8}
    ensures BitAt(UpperMask(k), i) == (i < 16 && InUpper(k, i))
    ensures BitAt(LowerMask(k), i) == (i < 16 && !InUpper(k, i))
  {
    var n := if i < 12 then i % 4 else i - 12;
    assert if i < 4 then n == i else if i < 8 then n == i - 4 else if i < 12 then n == i - 8 else n == i - 12;
    SmallBits(n);
    WordBit(43690, 10, 10, 10, 10, i); WordBit(21845, 5, 5, 5, 5, i);
    WordBit(52428, 12, 12, 12, 12, i); WordBit(13107, 3, 3, 3, 3, i);
    WordBit(61680, 0, 15, 0, 15, i); WordBit(3855, 15, 0, 15, 0, i);
    WordBit(65280, 0, 0, 15, 15, i); WordBit(255, 15, 15, 0, 0, i);
  }

  /** Where the bit at index i comes from. */
  function Partner(k: nat, i: nat): (j: int) {
    if InUpper(k, i) then i - k else i + k
  }

  predicate Swapped(k: nat, x: nat, y: nat) {
    forall i: nat | i < 16 :: Partner(k, i) >= 0 && BitAt(y, i) == BitAt(x, Partner(k, i))
  }

  lemma UpperShift(k: nat, i: nat)
    requires k in {1, 2, 4, 8} && i < 16
    ensures InUpper(k, i + k) == !InUpper(k, i)
    ensures if InUpper(k, i) then i >= k else i + k < 16
    ensures i >= k ==> InUpper(k, i - k) == !InUpper(k, i)
  {
    hide InUpper;
    if k == 1 { UpperShift1(i); } else if k == 2 { UpperShift2(i); } else if k == 4 { UpperShift4(i); } else { UpperShift8(i); }
  }

  lemma UpperShift1(i: nat)
    requires i < 16
    ensures InUpper(1, i + 1) == !InUpper(1, i) && (if InUpper(1, i) then i >= 1 else i + 1 < 16)
    ensures i >= 1 ==> InUpper(1, i - 1) == !InUpper(1, i)
  {
    assert (i + 1) % 2 == 1 - i % 2;
  }

  lemma UpperShift2(i: nat)
    requires i < 16
    ensures InUpper(2, i + 2) == !InUpper(2, i) && (if InUpper(2, i) then i >= 2 else i + 2 < 16)
    ensures i >= 2 ==> InUpper(2, i - 2) == !InUpper(2, i)
  {
    assert (i + 2) / 2 == i / 2 + 1;
    if i >= 2 { assert (i - 2) / 2 == i / 2 - 1; }
  }

  lemma UpperShift4(i: nat)
    requires i < 16
    ensures InUpper(4, i + 4) == !InUpper(4, i) && (if InUpper(4, i) then i >= 4 else i + 4 < 16)
    ensures i >= 4 ==> InUpper(4, i - 4) == !InUpper(4, i)
  {
    assert (i + 4) / 4 == i / 4 + 1;
    if i >= 4 { assert (i - 4) / 4 == i / 4 - 1; }
  }

  lemma UpperShift8(i: nat)
    requires i < 16
    ensures InUpper(8, i + 8) == !InUpper(8, i) && (if InUpper(8, i) then i >= 8 else i + 8 < 16)
    ensures i >= 8 ==> InUpper(8, i - 8) == !InUpper(8, i)
  {
    assert (i + 8) / 8 == i / 8 + 1;
    if i >= 8 { assert (i - 8) / 8 == i / 8 - 1; }
  }

  lemma SwapBit(k: nat, hi: nat, lo: nat, x: nat, i: nat)
    requires k in {1, 2, 4, 8} && i < 16 && hi == UpperMask(k) && lo == LowerMask(k)
    ensures Partner(k, i) >= 0
    ensures BitAt(Or(Shr(And(hi, x), k), Shl(And(lo, x), k)), i) == BitAt(x, Partner(k, i))
  {
    UpperShift(k, i);
    var up, down := Shr(And(hi, x), k), Shl(And(lo, x), k);
    OrBit(up, down, i);
    assert BitAt(up, i) == (!InUpper(k, i) && BitAt(x, i + k)) by {
      ShrBit(And(hi, x), k, i);
      AndBit(hi, x, i + k);
      MaskBit(k, i + k);
    }
    assert BitAt(down, i) == (InUpper(k, i) && BitAt(x, i - k)) by {
      ShlBit(And(lo, x), k, i);
      if i >= k { AndBit(lo, x, i - k); MaskBit(k, i - k); }
    }
  }

  lemma SwapSwaps(k: nat, x: nat)
    requires k in {1, 2, 4, 8}
    ensures Swapped(k, x, Swap(k, x))
  {
    forall i: nat | i < 16 ensures Partner(k, i) >= 0 && BitAt(Swap(k, x), i) == BitAt(x, Partner(k, i)) {
      SwapBit(k, UpperMask(k), LowerMask(k), x, i);
    }
  }

  lemma FourSwaps(g: nat, m1: nat, m2: nat, m4: nat, m8: nat, i: nat)
    requires i < 16
    requires Swapped(1, g, m1) && Swapped(2, m1, m2) && Swapped(4, m2, m4) && Swapped(8, m4, m8)
    ensures BitAt(m8, i) == BitAt(g, 15 - i)
  {
    hide BitAt, Partner;
    Mirror(i);
    var j4 := Partner(8, i);
    assert BitAt(m8, i) == BitAt(m4, j4);
    var j2 := Partner(4, j4);
    assert BitAt(m4, j4) == BitAt(m2, j2);
    var j1 := Partner(2, j2);
    assert BitAt(m2, j2) == BitAt(m1, j1);
    assert BitAt(m1, j1) == BitAt(g, Partner(1, j1));
  }

  /** The four exchanges together turn the word round. */
  lemma Mirror(i: nat)
    requires i < 16
    ensures var j4 := Partner(8, i); var j2 := Partner(4, j4); var j1 := Partner(2, j2);
            0 <= j4 < 16 && 0 <= j2 < 16 && 0 <= j1 < 16 && Partner(1, j1) == 15 - i
  {
    if i < 8 {
      if i == 0 {} else if i == 1 {} else if i == 2 {} else if i == 3 {} else if i == 4 {} else if i == 5 {} else if i == 6 {}
    } else {
      if i == 8 {} else if i == 9 {} else if i == 10 {} else if i == 11 {} else if i == 12 {} else if i == 13 {} else if i == 14 {}
    }
  }

  /** Rev15 reverses the order of the 15 low bits. */
  lemma Rev15Bit(g: nat, i: nat)
    requires i < 15
    ensures BitAt(Rev15(g), i) == BitAt(g, 14 - i)
  {
    var m1 := Swap(1, g);
    var m2 := Swap(2, m1);
    var m4 := Swap(4, m2);
    var m8 := Swap(8, m4);
    SwapSwaps(1, g); SwapSwaps(2, m1); SwapSwaps(4, m2); SwapSwaps(8, m4);
    FourSwaps(g, m1, m2, m4, m8, i + 1);
    ShrBit(m8, 1, i);
  }

  lemma Rev15High(g: nat)
    ensures Rev15(g) < Pow2(15)
  {
    var x := Swap(4, Swap(2, Swap(1, g)));
    forall i: nat | 15 <= i ensures !BitAt(Rev15(g), i) {
      ShrBit(Swap(8, x), 1, i);
      HighSwap(x, UpperMask(8), LowerMask(8), i + 1);
    }
    BitsBound(Rev15(g), 15);
  }

  lemma HighSwap(x: nat, hi: nat, lo: nat, i: nat)
    requires i >= 16 && hi == UpperMask(8) && lo == LowerMask(8)
    ensures !BitAt(Or(Shr(And(hi, x), 8), Shl(And(lo, x), 8)), i)
  {
    hide And, Or, Shr, Shl, BitAt, UpperMask, LowerMask;
    OrBit(Shr(And(hi, x), 8), Shl(And(lo, x), 8), i);
    ShrBit(And(hi, x), 8, i);
    ShlBit(And(lo, x), 8, i);
    AndBit(hi, x, i + 8);
    AndBit(lo, x, i - 8);
    MaskBit(8, i + 8);
    MaskBit(8, i - 8);
  }

  /** The t low bits of g in reverse order, as the code reads them off its 15-bit table. */
  function Rev(g: nat, t: nat): nat
    requires t <= 15
  {
    Shr(Rev15(g), 15 - t)
  }

  lemma RevBit(g: nat, t: nat, i: nat)
    requires t <= 15 && i < t
    ensures BitAt(Rev(g, t), i) == BitAt(g, t - 1 - i)
  {
    ShrBit(Rev15(g), 15 - t, i);
    Rev15Bit(g, i + 15 - t);
  }

  lemma RevBound(g: nat, t: nat)
    requires t <= 15
    ensures Rev(g, t) < Pow2(t)
  {
    Rev15High(g);
    ShrBound(Rev15(g), 15, 15 - t);
  }

  /** Reversing t bits twice gives them back. */
  lemma RevTwice(g: nat, t: nat)
    requires t <= 15 && g < Pow2(t)
    ensures Rev(Rev(g, t), t) == g
  {
    hide BitAt, Rev, Pow2;
    RevBound(Rev(g, t), t);
    forall i | 0 <= i < t ensures BitAt(Rev(Rev(g, t), t), i) == BitAt(g, i) {
      RevBit(Rev(g, t), t, i);
      RevBit(g, t, t - 1 - i);
    }
    SameBits(Rev(Rev(g, t), t), g, t);
  }

  lemma {:induction false} ShlMono(x: nat, y: nat, k: nat)
    requires x <= y
    ensures Shl(x, k) <= Shl(y, k)
  {
    if k > 0 { ShlMono(x, y, k - 1); }
  }

  lemma {:induction false} ShlShl(x: nat, i: nat, j: nat)
    ensures Shl(Shl(x, i), j) == Shl(x, i + j)
  {
    if j > 0 { ShlShl(x, i, j - 1); }
  }

  lemma {:induction false} ShlNext(x: nat, k: nat)
    ensures Shl(x + 1, k) == Shl(x, k) + Pow2(k)
  {
    if k > 0 { ShlNext(x, k - 1); }
  }

  /** Shifting h bits out leaves x exactly on the interval [x << h, (x + 1) << h). */
  lemma {:induction false} ShrInterval(g: nat, x: nat, h: nat)
    ensures Shr(g, h) == x <==> Shl(x, h) <= g < Shl(x + 1, h)
    decreases h
  {
    if h > 0 { ShrInterval(g / 2, x, h - 1); }
  }

  /** A t-bit window that begins, lowest bit first, with the k bits of c in sending order:
      reversed, its k highest bits are c. */
  lemma RevLeading(w: nat, t: nat, c: nat, k: nat)
    requires k <= t <= 15 && w < Pow2(t) && c < Pow2(k)
    requires forall i :: 0 <= i < k ==> BitAt(w, i) == MsbBits(c, k)[i]
    ensures Shr(Rev(w, t), t - k) == c
  {
    hide BitAt, Rev, Shr, Pow2;
    var g := Rev(w, t);
    RevBound(w, t);
    ShrBound(g, t, t - k);
    forall j | 0 <= j < k ensures BitAt(Shr(g, t - k), j) == BitAt(c, j) {
      RevLeadingBit(w, t, k, j);
      assert BitAt(w, k - 1 - j) == MsbBits(c, k)[k - 1 - j];
    }
    SameBits(Shr(g, t - k), c, k);
  }

  lemma RevLeadingBit(w: nat, t: nat, k: nat, j: nat)
    requires j < k <= t <= 15
    ensures BitAt(Shr(Rev(w, t), t - k), j) == BitAt(w, k - 1 - j)
  {
    ShrBit(Rev(w, t), t - k, j);
    RevBit(w, t, j + (t - k));
  }

  lemma MsbPrefix(c: nat, j: nat, g: nat, k: nat)
    requires j <= k && c < Pow2(j) && g < Pow2(k) && MsbBits(c, j) <= MsbBits(g, k)
    ensures Shr(g, k - j) == c
  {
    ShrBound(g, k, k - j);
    forall i | 0 <= i < j ensures BitAt(Shr(g, k - j), i) == BitAt(c, i) {
      ShrBit(g, k - j, i);
      assert MsbBits(c, j)[j - 1 - i] == MsbBits(g, k)[j - 1 - i];
    }
    SameBits(Shr(g, k - j), c, j);
  }

  lemma {:induction false} ShlPlus(x: nat, y: nat, k: nat)
    ensures Shl(x + y, k) == Shl(x, k) + Shl(y, k)
  {
    if k > 0 { ShlPlus(x, y, k - 1); }
  }

  lemma {:induction false} ShrShl(x: nat, k: nat)
    ensures Shr(Shl(x, k), k) == x
  {
    if k > 0 {
      assert Shl(x, k) / 2 == Shl(x, k - 1);
      ShrShl(x, k - 1);
    }
  }

  lemma {:induction false} ShlPow2(a: nat, k: nat)
    ensures Shl(Pow2(a), k) == Pow2(a + k)
  {
    if k > 0 { ShlPow2(a, k - 1); }
  }

  lemma Pow2Fifteen()
    ensures Pow2(15) == 32768
  {
    assert Pow2(5) == 32 && Pow2(10) == 1024;
  }
}
