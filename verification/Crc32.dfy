/**
 CRC-32 by table (section 8 of RFC 1952), against the division one bit at a time.
 */
module Crc32 {

  // The word operations, named so that proofs can treat them as algebra.

  function Xor(x: bv32, y: bv32): bv32 { x ^ y }

  function Low(x: bv32): bv32 { x & 1 }

  function Half(x: bv32): bv32 { x >> 1 }

  /** The polynomial, where a bit falls out. */
  function Tap(bit: bv32): bv32 {
    if bit == 1 then 0xEDB88320 else 0
  }

  /** One bit of the division. */
  function Step(n: bv32): bv32 {
    Xor(Tap(Low(n)), Half(n))
  }

  function Steps(n: bv32, k: nat): bv32 {
    if k == 0 then n else Step(Steps(n, k - 1))
  }

  /** The register after one more byte, and after data from a given state. */
  function Absorb(n: bv32, b: bv8): bv32 {
    Steps(Xor(n, b as bv32), 8)
  }

  function Register(n: bv32, data: seq<bv8>): bv32 {
    if data == [] then n else Absorb(Register(n, data[..|data| - 1]), data[|data| - 1])
  }

  /** CRC-32 as the standard defines it. */
  function Crc(data: seq<bv8>): bv32 {
    !Register(0xFFFFFFFF, data)
  }

  // -------- the table ------------------------------------------------------------------

  lemma ShiftXor(x: bv32, y: bv32)
    ensures Half(Xor(x, y)) == Xor(Half(x), Half(y)) && Low(Xor(x, y)) == Xor(Low(x), Low(y))
    ensures (Low(x) == 0 || Low(x) == 1) && (Low(y) == 0 || Low(y) == 1)
  {
  }

  lemma TapXor(a: bv32, b: bv32)
    requires (a == 0 || a == 1) && (b == 0 || b == 1)
    ensures Tap(Xor(a, b)) == Xor(Tap(a), Tap(b))
  {
  }

  lemma Interchange(a: bv32, b: bv32, c: bv32, d: bv32)
    ensures Xor(Xor(a, b), Xor(c, d)) == Xor(Xor(a, c), Xor(b, d))
  {
    hide Xor;
    Associative(a, b, Xor(c, d));
    Associative(b, c, d);
    Associative(c, b, d);
    Associative(a, c, Xor(b, d));
    Commutative(b, c);
  }

  lemma Associative(a: bv32, b: bv32, c: bv32)
    ensures Xor(Xor(a, b), c) == Xor(a, Xor(b, c))
  {
  }

  lemma Commutative(a: bv32, b: bv32)
    ensures Xor(a, b) == Xor(b, a)
  {
  }

  /** Division is linear. */
  lemma StepLinear(x: bv32, y: bv32)
    ensures Step(Xor(x, y)) == Xor(Step(x), Step(y))
  {
    hide Tap, Xor, Low, Half;
    ShiftXor(x, y);
    TapXor(Low(x), Low(y));
    Interchange(Tap(Low(x)), Tap(Low(y)), Half(x), Half(y));
  }

  lemma {:induction false} StepsLinear(x: bv32, y: bv32, k: nat)
    ensures Steps(Xor(x, y), k) == Xor(Steps(x, k), Steps(y, k))
  {
    hide Step, Xor;
    if k > 0 {
      StepsLinear(x, y, k - 1);
      StepLinear(Steps(x, k - 1), Steps(y, k - 1));
    }
  }

  /** A byte of zeros falls out without a trace. */
  lemma EightEven(x: bv32)
    requires x & 0xFF == 0
    ensures Steps(x, 8) == x >> 8
  {
    hide Step, Steps;
    EightSteps(x);
    StepsEven(x);
  }

  lemma StepEven(x: bv32)
    requires Low(x) == 0
    ensures Step(x) == Half(x)
  {
  }

  lemma Even1(x: bv32)
    requires x & 0xFF == 0
    ensures Low(x) == 0 && Half(x) & 0x7F == 0
  {
  }

  lemma Even2(x: bv32)
    requires x & 0x7F == 0
    ensures Low(x) == 0 && Half(x) & 0x3F == 0
  {
  }

  lemma Even3(x: bv32)
    requires x & 0x3F == 0
    ensures Low(x) == 0 && Half(x) & 0x1F == 0
  {
  }

  lemma Even4(x: bv32)
    requires x & 0x1F == 0
    ensures Low(x) == 0 && Half(x) & 0x0F == 0
  {
  }

  lemma Even5(x: bv32)
    requires x & 0x0F == 0
    ensures Low(x) == 0 && Half(x) & 0x07 == 0
  {
  }

  lemma Even6(x: bv32)
    requires x & 0x07 == 0
    ensures Low(x) == 0 && Half(x) & 0x03 == 0
  {
  }

  lemma Even7(x: bv32)
    requires x & 0x03 == 0
    ensures Low(x) == 0 && Half(x) & 0x01 == 0
  {
  }

  lemma Even8(x: bv32)
    requires x & 0x01 == 0
    ensures Low(x) == 0
  {
  }

  lemma EightHalves(x: bv32)
    ensures Half(Half(Half(Half(Half(Half(Half(Half(x)))))))) == x >> 8
  {
  }

  lemma StepsEven(x: bv32)
    requires x & 0xFF == 0
    ensures Step(Step(Step(Step(Step(Step(Step(Step(x)))))))) == x >> 8
  {
    hide Step, Low, Half;
    var h1 := Half(x);
    var h2 := Half(h1);
    var h3 := Half(h2);
    var h4 := Half(h3);
    var h5 := Half(h4);
    var h6 := Half(h5);
    var h7 := Half(h6);
    Even1(x);
    StepEven(x);
    Even2(h1);
    StepEven(h1);
    Even3(h2);
    StepEven(h2);
    Even4(h3);
    StepEven(h3);
    Even5(h4);
    StepEven(h4);
    Even6(h5);
    StepEven(h5);
    Even7(h6);
    StepEven(h6);
    Even8(h7);
    StepEven(h7);
    EightHalves(x);
  }

  lemma EightSteps(x: bv32)
    ensures Steps(x, 8) == Step(Step(Step(Step(Step(Step(Step(Step(x))))))))
  {
    hide Step;
    assert Steps(x, 1) == Step(Steps(x, 0)) == Step(x);
    assert Steps(x, 2) == Step(Step(x));
    assert Steps(x, 4) == Step(Step(Steps(x, 2)));
    assert Steps(x, 6) == Step(Step(Steps(x, 4)));
    assert Steps(x, 8) == Step(Step(Steps(x, 6)));
  }

  /** Why a table of bytes is enough: the low byte is looked up, the rest only moves down. */
  lemma ByTable(n: bv32, b: bv8)
    ensures Absorb(n, b) == Xor(Steps(Xor(255 & n, b as bv32), 8), n >> 8)
  {
    hide Steps, Xor;
    Halves(n, b);
    StepsLinear(Xor(255 & n, b as bv32), n & 0xFFFFFF00, 8);
    EightEven(n & 0xFFFFFF00);
  }

  lemma Halves(n: bv32, b: bv8)
    ensures Xor(n, b as bv32) == Xor(Xor(255 & n, b as bv32), n & 0xFFFFFF00)
    ensures (n & 0xFFFFFF00) & 0xFF == 0 && (n & 0xFFFFFF00) >> 8 == n >> 8
  {
  }

  ghost predicate IsTable(e: seq<bv32>) {
    |e| == 256 && forall i: nat :: i < 256 ==> e[i] == Steps(i as bv32, 8)
  }

  /** The table: eight steps from every byte. */
  method MakeTable() returns (e: array<bv32>)
    ensures fresh(e) && IsTable(e[..])
  {
    hide Steps;
    e := new bv32[256](_ => 0);
    for t := 0 to 256
      invariant forall i: nat :: i < t ==> e[i] == Steps(i as bv32, 8)
    {
      var n := Entry(t);
      e[t] := n;
    }
  }

  method Entry(t: nat) returns (n: bv32)
    requires t < 256
    ensures n == Steps(t as bv32, 8)
  {
    n := t as bv32;
    var r := 9 - 1;
    while r != 0
      invariant 0 <= r <= 8 && n == Steps(t as bv32, 8 - r)
    {
      n := Xor(if n & 1 == 1 then 0xEDB88320 else 0, n >> 1);
      r := r - 1;
    }
  }

  lemma Index(x: bv32)
    requires x <= 255
    ensures x as nat < 256 && x as nat as bv32 == x
  {
  }

  lemma SmallIndex(n: bv32, b: bv8)
    ensures Xor(255 & n, b as bv32) <= 255
  {
  }

  lemma Lookup(e: seq<bv32>, n: bv32, b: bv8, at: bv32)
    requires IsTable(e) && at == Xor(255 & n, b as bv32)
    ensures at as nat < 256 && Absorb(n, b) == Xor(e[at as nat], n >> 8)
  {
    hide Xor, Steps, Absorb;
    SmallIndex(n, b);
    ByTable(n, b);
    Index(at);
  }

  class Sum32 {
    var state: bv32
    const table: array<bv32>
    /** Everything pushed so far. */
    ghost var seen: seq<bv8>

    ghost predicate Valid()
      reads this, table
    {
      IsTable(table[..]) && state == Register(0xFFFFFFFF, seen)
    }

    constructor ()
      ensures Valid() && seen == [] && fresh(table)
    {
      state, seen := 0xFFFFFFFF, [];
      var w := MakeTable();
      table := w;
    }

    /** Add data, in pieces of any size. */
    method Push(data: seq<bv8>)
      requires Valid()
      modifies this
      ensures Valid() && seen == old(seen) + data
    {
      hide Steps, Absorb, Xor;
      var n := state;
      assert seen + data[..0] == seen;
      for r := 0 to |data|
        invariant n == Register(0xFFFFFFFF, seen + data[..r]) && IsTable(table[..]) && seen == old(seen)
      {
        var at := Xor(255 & n, data[r] as bv32);
        Lookup(table[..], n, data[r], at);
        assert seen + data[..r + 1] == (seen + data[..r]) + [data[r]];
        n := Xor(table[at as nat], n >> 8);
      }
      assert data[..|data|] == data;
      state, seen := n, seen + data;
    }

    method Digest() returns (d: bv32)
      requires Valid()
      ensures d == Crc(seen) && Coefficients(d, 32) == Flipped(Remainder(Flipped(Sent(seen) + Zeros(32))))
    {
      d := !state;
      CrcIsRemainder(seen);
    }
  }

  // -------- division of polynomials ----------------------------------------------------

  /** The powers of x in the polynomial of the standard, below its leading x^32. */
  predicate Power(d: int) {
    d in [26, 23, 22, 16, 12, 11, 10, 8, 7, 5, 4, 2, 1, 0]
  }

  /** Coefficient k of a register: its lowest bit stands for the highest power, x^31. */
  predicate Coefficient(n: bv32, k: nat) {
    if k == 0 then Low(n) == 1 else Coefficient(Half(n), k - 1)
  }

  /** The first coefficients of a register. */
  function Coefficients(n: bv32, count: nat): (c: seq<bool>)
    ensures |c| == count && forall k :: 0 <= k < count ==> c[k] == Coefficient(n, k)
  {
    seq(count, k requires 0 <= k => Coefficient(n, k))
  }

  /** Its coefficients from the highest power down. */
  function Polynomial(n: nat): (c: seq<bool>)
    ensures |c| == n && forall k :: 0 <= k < n ==> c[k] == Power(n - 1 - k)
  {
    seq(n, k => Power(n - 1 - k))
  }

  /** Coefficients with those of another polynomial added to the first ones. */
  function Added(m: seq<bool>, p: seq<bool>): (c: seq<bool>)
    requires |p| <= |m|
    ensures |c| == |m|
  {
    seq(|m|, k requires 0 <= k < |m| => if k < |p| then m[k] != p[k] else m[k])
  }

  /** The remainder of a polynomial, its coefficients from the highest power down, by long
      division with coefficients modulo 2. */
  function Remainder(m: seq<bool>): (r: seq<bool>)
    requires |m| >= 32
    ensures |r| == 32
    decreases |m|
  {
    if |m| == 32 then m
    else if m[0] then Remainder(Added(m[1..], Polynomial(32)))
    else Remainder(m[1..])
  }

  /** The bits of data in the order they are sent: those of a byte from the lowest up. */
  function Sent(data: seq<bv8>): (m: seq<bool>)
    ensures |m| == 8 * |data|
  {
    if data == [] then [] else Coefficients(data[0] as bv32, 8) + Sent(data[1..])
  }

  function Zeros(n: nat): (m: seq<bool>)
    ensures |m| == n
  {
    seq(n, _ => false)
  }

  lemma {:induction false} CoefficientXor(x: bv32, y: bv32, k: nat)
    ensures Coefficient(Xor(x, y), k) == (Coefficient(x, k) != Coefficient(y, k))
    decreases k
  {
    hide Xor, Low, Half;
    ShiftXor(x, y);
    LowXor(Low(x), Low(y));
    if k > 0 { CoefficientXor(Half(x), Half(y), k - 1); }
  }

  lemma LowXor(x: bv32, y: bv32)
    requires (x == 0 || x == 1) && (y == 0 || y == 1)
    ensures Xor(x, y) == 1 <==> x != y
  {
  }

  function Down(n: bv32): bv32 { n >> 8 }

  lemma CoefficientLater(n: bv32, k: nat)
    ensures Coefficient(n, k + 8) == Coefficient(Down(n), k)
  {
    hide Half, Low;
    EightHalves(n);
    var h2 := Half(Half(n));
    var h4 := Half(Half(h2));
    var h6 := Half(Half(h4));
    assert Coefficient(n, k + 8) == Coefficient(h2, k + 6);
    assert Coefficient(h2, k + 6) == Coefficient(h4, k + 4);
    assert Coefficient(h4, k + 4) == Coefficient(h6, k + 2);
    assert Coefficient(h6, k + 2) == Coefficient(Half(Half(h6)), k);
  }

  /** A word has 32 coefficients. */
  lemma NoMoreCoefficients(n: bv32)
    ensures !Coefficient(n, 32)
  {
    hide *;
    CoefficientLater(n, 24);
    CoefficientLater(Down(n), 16);
    CoefficientLater(Down(Down(n)), 8);
    CoefficientLater(Down(Down(Down(n))), 0);
    AllGone(n);
  }

  lemma AllGone(n: bv32)
    ensures !Coefficient(Down(Down(Down(Down(n)))), 0)
  {
  }

  lemma FirstCoefficients(n: bv32)
    ensures Coefficient(n, 0) == (n & 1 == 1) && Coefficient(n, 1) == (n & 2 == 2) && Coefficient(n, 2) == (n & 4 == 4)
    ensures Coefficient(n, 3) == (n & 8 == 8) && Coefficient(n, 4) == (n & 16 == 16) && Coefficient(n, 5) == (n & 32 == 32)
    ensures Coefficient(n, 6) == (n & 64 == 64) && Coefficient(n, 7) == (n & 128 == 128)
  {
    hide Half, Low;
    FirstFour(n);
    var h := Half(Half(Half(Half(n))));
    FirstFour(h);
    assert Coefficient(n, 4) == Coefficient(Half(Half(n)), 2) == Coefficient(h, 0);
    assert Coefficient(n, 5) == Coefficient(Half(Half(n)), 3) == Coefficient(h, 1);
    assert Coefficient(n, 6) == Coefficient(Half(Half(n)), 4) == Coefficient(h, 2);
    assert Coefficient(n, 7) == Coefficient(Half(Half(n)), 5) == Coefficient(h, 3);
    FourHalves(n);
  }

  lemma FourHalves(n: bv32)
    ensures var h := Half(Half(Half(Half(n)))); (h & 1 == 1) == (n & 16 == 16) && (h & 2 == 2) == (n & 32 == 32)
    ensures var h := Half(Half(Half(Half(n)))); (h & 4 == 4) == (n & 64 == 64) && (h & 8 == 8) == (n & 128 == 128)
  {
  }

  lemma FirstFour(n: bv32)
    ensures Coefficient(n, 0) == (n & 1 == 1) && Coefficient(n, 1) == (n & 2 == 2)
    ensures Coefficient(n, 2) == (n & 4 == 4) && Coefficient(n, 3) == (n & 8 == 8)
  {
    hide Half, Low;
    assert Coefficient(n, 1) == Coefficient(Half(n), 0);
    assert Coefficient(n, 2) == Coefficient(Half(n), 1) == Coefficient(Half(Half(n)), 0);
    assert Coefficient(n, 3) == Coefficient(Half(n), 2) == Coefficient(Half(Half(n)), 1) == Coefficient(Half(Half(Half(n))), 0);
    LowBits(n);
  }

  lemma LowBits(n: bv32)
    ensures Low(n) == 1 <==> n & 1 == 1
    ensures Low(Half(n)) == 1 <==> n & 2 == 2
    ensures Low(Half(Half(n))) == 1 <==> n & 4 == 4
    ensures Low(Half(Half(Half(n)))) == 1 <==> n & 8 == 8
  {
  }

  lemma TapByte(n: bv32, top: int, k: nat)
    requires k < 8 && (n, top) in [(0xEDB88320, 31), (0xEDB883, 23), (0xEDB8, 15), (0xED, 7)]
    ensures Coefficient(n, k) == Power(top - k)
  {
    hide Coefficient;
    FirstCoefficients(n);
    if k == 0 {} else if k == 1 {} else if k == 2 {} else if k == 3 {} else if k == 4 {} else if k == 5 {} else if k == 6 {}
  }

  lemma TapDown()
    ensures Tap(1) == 0xEDB88320 && Tap(0) == 0
    ensures Down(0xEDB88320) == 0xEDB883 && Down(0xEDB883) == 0xEDB8 && Down(0xEDB8) == 0xED
  {
  }

  /** The word the register is combined with holds the coefficients of the polynomial. */
  lemma TapCoefficient(k: nat)
    requires k < 32
    ensures Coefficient(Tap(1), k) == Power(31 - k) == Polynomial(32)[k]
  {
    hide Coefficient, Tap, Down, Power;
    TapDown();
    var n := 0xEDB88320;
    if k < 8 {
      TapByte(n, 31, k);
    } else if k < 16 {
      CoefficientLater(n, k - 8);
      TapByte(0xEDB883, 23, k - 8);
    } else if k < 24 {
      CoefficientLater(n, k - 8);
      CoefficientLater(0xEDB883, k - 16);
      TapByte(0xEDB8, 15, k - 16);
    } else {
      CoefficientLater(n, k - 8);
      CoefficientLater(0xEDB883, k - 16);
      CoefficientLater(0xEDB8, k - 24);
      TapByte(0xED, 7, k - 24);
    }
  }

  lemma {:induction false} NoCoefficients(k: nat)
    ensures !Coefficient(0, k)
    decreases k
  {
    if k > 0 { NoCoefficients(k - 1); }
  }

  function Bit(b: bool): bv32 { if b then 1 else 0 }

  lemma BitCoefficient(b: bool, k: nat)
    ensures Coefficient(Bit(b), k) == (b && k == 0)
  {
    hide Coefficient;
    OneCoefficient(k);
    NoCoefficients(k);
  }

  lemma OneCoefficient(k: nat)
    ensures Coefficient(1, k) == (k == 0)
  {
    if k > 0 { NoCoefficients(k - 1); }
  }

  /** One step is one line of the long division. */
  lemma StepCoefficient(n: bv32, b: bool, k: nat)
    requires k < 32
    ensures Coefficient(Step(Xor(n, Bit(b))), k) == ((b != Coefficient(n, 0) && Power(31 - k)) != Coefficient(n, k + 1))
  {
    hide *;
    var m := Xor(n, Bit(b));
    StepParts(m, k);
    CoefficientXor(n, Bit(b), 0);
    CoefficientXor(n, Bit(b), k + 1);
    BitCoefficient(b, 0);
    BitCoefficient(b, k + 1);
    CoefficientXor(Tap(Low(m)), Half(m), k);
    TapCoefficient(k);
    NoCoefficients(k);
  }

  lemma StepParts(m: bv32, k: nat)
    ensures Step(m) == Xor(Tap(Low(m)), Half(m)) && Coefficient(Half(m), k) == Coefficient(m, k + 1)
    ensures if Coefficient(m, 0) then Low(m) == 1 else Tap(Low(m)) == 0
  {
    hide Half;
  }

  /** The register after some bits, one at a time. */
  function Fed(n: bv32, m: seq<bool>): bv32
    decreases |m|
  {
    if m == [] then n else Fed(Step(Xor(n, Bit(m[0]))), m[1..])
  }

  lemma OneLine(n: bv32, m: seq<bool>)
    requires |m| > 32
    ensures Remainder(Added(m, Coefficients(n, 32))) == Remainder(Added(m[1..], Coefficients(Step(Xor(n, Bit(m[0]))), 32)))
  {
    hide Coefficient, Power, Remainder, Step, Xor, Bit;
    var v := Added(m, Coefficients(n, 32));
    var w := Added(m[1..], Coefficients(Step(Xor(n, Bit(m[0]))), 32));
    NoMoreCoefficients(n);
    forall k | 0 <= k < |w| ensures w[k] == (v[k + 1] != (k < 32 && v[0] && Power(31 - k))) {
      if k < 32 { StepCoefficient(n, m[0], k); }
    }
    Line(v, w);
  }

  lemma Line(v: seq<bool>, w: seq<bool>)
    requires |v| > 32 && |w| == |v| - 1 && forall k :: 0 <= k < |w| ==> w[k] == (v[k + 1] != (k < 32 && v[0] && Power(31 - k)))
    ensures Remainder(v) == Remainder(w)
  {
    hide Power;
    if v[0] {
      assert Added(v[1..], Polynomial(32)) == w;
    } else {
      assert v[1..] == w;
    }
  }

  lemma {:induction false} FedRemainder(n: bv32, m: seq<bool>, tail: seq<bool>)
    requires |tail| == 32
    ensures Remainder(Added(m + tail, Coefficients(n, 32))) == Remainder(Added(tail, Coefficients(Fed(n, m), 32)))
    decreases |m|
  {
    hide Remainder, Step, Xor, Bit, Added, Coefficients;
    if m == [] {
      assert m + tail == tail;
    } else {
      OneLine(n, m + tail);
      assert (m + tail)[1..] == m[1..] + tail;
      FedRemainder(Step(Xor(n, Bit(m[0]))), m[1..], tail);
    }
  }

  lemma {:induction false} FedJoin(n: bv32, a: seq<bool>, b: seq<bool>)
    ensures Fed(n, a + b) == Fed(Fed(n, a), b)
    decreases |a|
  {
    hide Step, Xor, Bit;
    if a == [] {
      assert a + b == b;
    } else {
      assert (a + b)[1..] == a[1..] + b;
      FedJoin(Step(Xor(n, Bit(a[0]))), a[1..], b);
    }
  }

  lemma {:induction false} StepsFirst(n: bv32, k: nat)
    ensures Steps(Step(n), k) == Steps(n, k + 1)
    decreases k
  {
    hide Step;
    if k > 0 { StepsFirst(n, k - 1); } else { assert Steps(n, 1) == Step(Steps(n, 0)); }
  }

  function Halved(x: bv32, k: nat): bv32
    decreases k
  {
    if k == 0 then x else Halved(Half(x), k - 1)
  }

  /** A word may be combined with all its bits at once, or bit by bit before every step. */
  lemma StepTogether(n: bv32, x: bv32)
    ensures Step(Xor(n, x)) == Xor(Step(Xor(n, Bit(Coefficient(x, 0)))), Half(x))
  {
    hide *;
    var c := Bit(Coefficient(x, 0));
    LowCancels(x);
    Associative(n, c, Xor(c, x));
    Associative(c, c, x);
    Cancelled(c, x);
    StepLinear(Xor(n, c), Xor(c, x));
    StepEven(Xor(c, x));
  }

  lemma Cancelled(c: bv32, x: bv32)
    ensures Xor(Xor(c, c), x) == x
  {
  }

  lemma LowCancels(x: bv32)
    ensures var y := Xor(Bit(Coefficient(x, 0)), x); Low(y) == 0 && Half(y) == Half(x)
  {
  }

  lemma {:induction false} FedWord(n: bv32, x: bv32, k: nat)
    ensures Fed(n, Coefficients(x, k)) == Xor(Steps(Xor(n, x), k), Halved(x, k))
    decreases k
  {
    hide *;
    FedStart(n, x, k);
    if k == 0 {
      Cancel(n, x);
    } else {
      var first := Step(Xor(n, Bit(Coefficient(x, 0))));
      FedWord(first, Half(x), k - 1);
      StepTogether(n, x);
      StepsFirst(Xor(n, x), k - 1);
    }
  }

  lemma FedStart(n: bv32, x: bv32, k: nat)
    ensures Steps(Xor(n, x), 0) == Xor(n, x) && Halved(x, 0) == x && Fed(n, Coefficients(x, 0)) == n
    ensures k > 0 ==> Halved(x, k) == Halved(Half(x), k - 1)
    ensures k > 0 ==> Fed(n, Coefficients(x, k)) == Fed(Step(Xor(n, Bit(Coefficient(x, 0)))), Coefficients(Half(x), k - 1))
  {
    hide Half, Low, Xor, Step;
    if k > 0 {
      assert Coefficients(x, k)[1..] == Coefficients(Half(x), k - 1);
      assert Coefficients(x, k)[0] == Coefficient(x, 0);
    }
  }

  lemma FedByte(n: bv32, b: bv8)
    ensures Fed(n, Coefficients(b as bv32, 8)) == Absorb(n, b)
  {
    hide Fed, Coefficients, Steps, Halved, Xor;
    FedWord(n, b as bv32, 8);
    ByteGone(b);
    XorZero(Absorb(n, b));
  }

  lemma XorZero(n: bv32)
    ensures Xor(n, 0) == n
  {
  }

  lemma ByteGone(b: bv8)
    ensures Halved(b as bv32, 8) == 0
  {
    hide Half;
    var x := b as bv32;
    EightHalves(x);
    var h2 := Half(Half(x));
    var h4 := Half(Half(h2));
    var h6 := Half(Half(h4));
    assert Halved(x, 8) == Halved(h2, 6);
    assert Halved(h2, 6) == Halved(h4, 4);
    assert Halved(h4, 4) == Halved(h6, 2);
    assert Halved(h6, 2) == Halved(Half(Half(h6)), 0);
    ByteShifted(b);
  }

  lemma ByteShifted(b: bv8)
    ensures b as bv32 >> 8 == 0
  {
  }

  lemma {:induction false} FedData(n: bv32, data: seq<bv8>)
    ensures Fed(n, Sent(data)) == Register(n, data)
    decreases |data|
  {
    hide Fed, Coefficients, Absorb;
    if data == [] {
      NothingFed(n);
    } else {
      FedJoin(n, Coefficients(data[0] as bv32, 8), Sent(data[1..]));
      FedByte(n, data[0]);
      FedData(Absorb(n, data[0]), data[1..]);
      RegisterJoin(n, [data[0]], data[1..]);
      assert [data[0]] + data[1..] == data;
      assert Register(n, [data[0]]) == Absorb(n, data[0]);
    }
  }

  lemma NothingFed(n: bv32)
    ensures Fed(n, []) == n
  {
  }

  /** Coefficients with the first 32 turned over. */
  function Flipped(m: seq<bool>): (r: seq<bool>)
    requires |m| >= 32
    ensures |r| == |m| && forall k :: 0 <= k < |m| ==> r[k] == if k < 32 then !m[k] else m[k]
  {
    seq(|m|, k requires 0 <= k < |m| => if k < 32 then !m[k] else m[k])
  }

  lemma OnesDown()
    ensures Down(0xFFFFFFFF) == 0xFFFFFF && Down(0xFFFFFF) == 0xFFFF && Down(0xFFFF) == 0xFF
  {
  }

  lemma OnesByte(n: bv32, k: nat)
    requires k < 8 && n in [0xFFFFFFFF, 0xFFFFFF, 0xFFFF, 0xFF]
    ensures Coefficient(n, k)
  {
    hide Coefficient;
    FirstCoefficients(n);
    if k == 0 {} else if k == 1 {} else if k == 2 {} else if k == 3 {} else if k == 4 {} else if k == 5 {} else if k == 6 {}
  }

  lemma OnesCoefficient(k: nat)
    requires k < 32
    ensures Coefficient(0xFFFFFFFF, k)
  {
    hide Coefficient, Down;
    OnesDown();
    if k < 8 {
      OnesByte(0xFFFFFFFF, k);
    } else if k < 16 {
      CoefficientLater(0xFFFFFFFF, k - 8);
      OnesByte(0xFFFFFF, k - 8);
    } else if k < 24 {
      CoefficientLater(0xFFFFFFFF, k - 8);
      CoefficientLater(0xFFFFFF, k - 16);
      OnesByte(0xFFFF, k - 16);
    } else {
      CoefficientLater(0xFFFFFFFF, k - 8);
      CoefficientLater(0xFFFFFF, k - 16);
      CoefficientLater(0xFFFF, k - 24);
      OnesByte(0xFF, k - 24);
    }
  }

  lemma NotIsXor(n: bv32)
    ensures !n == Xor(n, 0xFFFFFFFF)
  {
  }

  lemma NotFlips(n: bv32)
    ensures Coefficients(!n, 32) == Flipped(Coefficients(n, 32))
  {
    hide Coefficient;
    forall k: nat | k < 32 ensures Coefficient(!n, k) == !Coefficient(n, k) {
      NotIsXor(n);
      CoefficientXor(n, 0xFFFFFFFF, k);
      OnesCoefficient(k);
    }
  }

  /** The sum is the remainder of the data, moved up by x^32, divided by the polynomial; the first
      32 coefficients of the data and all of the remainder are turned over. */
  lemma CrcIsRemainder(data: seq<bv8>)
    ensures Coefficients(Crc(data), 32) == Flipped(Remainder(Flipped(Sent(data) + Zeros(32))))
  {
    hide Coefficient, Remainder, Fed, Register, Sent;
    var m := Sent(data) + Zeros(32);
    var n := Register(0xFFFFFFFF, data);
    forall k: nat | k < 32 ensures Coefficient(0xFFFFFFFF, k) { OnesCoefficient(k); }
    assert Added(m, Coefficients(0xFFFFFFFF, 32)) == Flipped(m);
    FedRemainder(0xFFFFFFFF, Sent(data), Zeros(32));
    FedData(0xFFFFFFFF, data);
    assert Added(Zeros(32), Coefficients(n, 32)) == Coefficients(n, 32);
    NothingDivided(Coefficients(n, 32));
    NotFlips(n);
  }

  lemma NothingDivided(m: seq<bool>)
    requires |m| == 32
    ensures Remainder(m) == m
  {
  }

  // -------- what the sum is for --------------------------------------------------------

  /** No two registers step to the same one. */
  lemma StepInjective(x: bv32, y: bv32)
    requires Step(x) == Step(y)
    ensures x == y
  {
  }

  lemma {:induction false} StepsInjective(x: bv32, y: bv32, k: nat)
    requires Steps(x, k) == Steps(y, k)
    ensures x == y
  {
    hide Step;
    if k > 0 {
      StepInjective(Steps(x, k - 1), Steps(y, k - 1));
      StepsInjective(x, y, k - 1);
    }
  }

  lemma AbsorbInjective(x: bv32, y: bv32, b: bv8, c: bv8)
    requires Absorb(x, b) == Absorb(y, c)
    ensures b == c <==> x == y
  {
    hide Steps, Xor;
    StepsInjective(Xor(x, b as bv32), Xor(y, c as bv32), 8);
    XorCancels(x, y, b, c);
  }

  lemma XorCancels(x: bv32, y: bv32, b: bv8, c: bv8)
    requires Xor(x, b as bv32) == Xor(y, c as bv32)
    ensures b == c <==> x == y
  {
    hide Xor;
    var (v, w) := (b as bv32, c as bv32);
    Cancel(x, v);
    Cancel(y, w);
    Cancel(v, x);
    Cancel(w, y);
    Commutative(x, v);
    Commutative(y, w);
    Narrow(b, c);
  }

  lemma Cancel(x: bv32, b: bv32)
    ensures Xor(Xor(x, b), b) == x
  {
  }

  lemma Narrow(b: bv8, c: bv8)
    ensures b as bv32 == c as bv32 <==> b == c
  {
  }

  lemma {:induction false} SameTail(x: bv32, y: bv32, data: seq<bv8>)
    requires Register(x, data) == Register(y, data)
    ensures x == y
  {
    hide Absorb;
    if data != [] {
      var n := |data| - 1;
      AbsorbInjective(Register(x, data[..n]), Register(y, data[..n]), data[n], data[n]);
      SameTail(x, y, data[..n]);
    }
  }

  lemma {:induction false} RegisterJoin(n: bv32, a: seq<bv8>, b: seq<bv8>)
    ensures Register(n, a + b) == Register(Register(n, a), b)
  {
    hide Absorb;
    if b == [] {
      assert a + b == a;
    } else {
      var m := |b| - 1;
      assert (a + b)[..|a| + m] == a + b[..m];
      RegisterJoin(n, a, b[..m]);
    }
  }

  /** A single wrong byte never goes unnoticed. */
  lemma OneByteNoticed(head: seq<bv8>, b: bv8, c: bv8, tail: seq<bv8>)
    requires b != c
    ensures Crc(head + [b] + tail) != Crc(head + [c] + tail)
  {
    hide Absorb;
    var n := Register(0xFFFFFFFF, head);
    RegisterJoin(0xFFFFFFFF, head + [b], tail);
    RegisterJoin(0xFFFFFFFF, head + [c], tail);
    RegisterJoin(0xFFFFFFFF, head, [b]);
    RegisterJoin(0xFFFFFFFF, head, [c]);
    assert Register(n, [b]) == Absorb(n, b) && Register(n, [c]) == Absorb(n, c);
    if Absorb(n, b) == Absorb(n, c) { AbsorbInjective(n, n, b, c); }
    var x, y := Absorb(n, b), Absorb(n, c);
    if Register(x, tail) == Register(y, tail) { SameTail(x, y, tail); }
    NotInjective(Register(x, tail), Register(y, tail));
  }

  lemma NotInjective(x: bv32, y: bv32)
    requires x != y
    ensures !x != !y
  {
  }
}
