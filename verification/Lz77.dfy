/**
 The symbols of DEFLATE (section 3.2.5 of RFC 1951): literals and copies, the codes and extra
 bits that stand for copy lengths and distances, what replaying symbols yields, and the search
 for a copy along the chain of earlier positions with the same hash.
 */
module Lz77 {
  import opened Bits

  datatype Symbol = Lit(b: byte) | Copy(len: nat, dist: nat)

  // -------- length and distance codes --------------------------------------------------

  const LENGTH_EXTRA: seq<nat> :=
    [0, 0, 0, 0, 0, 0, 0, 0, 1, 1, 1, 1, 2, 2, 2, 2, 3, 3, 3, 3, 4, 4, 4, 4, 5, 5, 5, 5, 0, 0, 0, 0]

  const DIST_EXTRA: seq<nat> :=
    [0, 0, 0, 0, 1, 1, 2, 2, 3, 3, 4, 4, 5, 5, 6, 6, 7, 7, 8, 8, 9, 9, 10, 10, 11, 11, 12, 12, 13, 13, 0, 0]

  /** The two tables in closed form. */
  function LenExtra(a: nat): nat {
    if a < 8 || a >= 28 then 0 else (a - 4) / 4
  }

  function DistExtra(a: nat): nat {
    if a < 4 || a >= 30 then 0 else (a - 2) / 2
  }

  lemma ExtraTables(a: nat)
    requires a < 32
    ensures LENGTH_EXTRA[a] == LenExtra(a) && DIST_EXTRA[a] == DistExtra(a)
  {
  }

  /** The shortest length of code a.  Code 28 is for 258 alone: its entry is set after the
      others have been computed, so the two unused codes follow 259. */
  function LenBase(a: nat): nat {
    if a == 0 then 3
    else if a == 28 then 258
    else if a == 29 then 260
    else LenBase(a - 1) + Pow2(LenExtra(a - 1))
  }

  function DistBase(a: nat): nat {
    if a == 0 then 1 else DistBase(a - 1) + Pow2(DistExtra(a - 1))
  }

  /** The last code up to a whose range begins no later than the value. */
  function LenCodeFrom(len: nat, a: nat): nat {
    if a == 0 || LenBase(a) <= len then a else LenCodeFrom(len, a - 1)
  }

  function DistCodeFrom(dist: nat, a: nat): nat {
    if a == 0 || DistBase(a) <= dist then a else DistCodeFrom(dist, a - 1)
  }

  function LenCode(len: nat): nat { LenCodeFrom(len, 28) }

  function DistCode(dist: nat): nat { DistCodeFrom(dist, 29) }

  lemma {:induction false} LenCodeFound(len: nat, a: nat)
    requires 3 <= len && a <= 28 && len < LenBase(a) + Pow2(LenExtra(a))
    ensures var c := LenCodeFrom(len, a); c <= a && LenBase(c) <= len < LenBase(c) + Pow2(LenExtra(c))
  {
    if a > 0 && LenBase(a) > len {
      LenBaseStep(a - 1);
      LenCodeFound(len, a - 1);
    }
  }

  lemma LenBaseStep(a: nat)
    requires a < 28
    ensures LenBase(a + 1) <= LenBase(a) + Pow2(LenExtra(a))
  {
    if a == 27 {
      assert Pow2(1) == 2 && Pow2(2) == 4 && Pow2(3) == 8 && Pow2(4) == 16 && Pow2(5) == 32;
      assert LenBase(4) == 7;
      assert LenBase(8) == 11;
      assert LenBase(12) == 19;
      assert LenBase(16) == 35;
      assert LenBase(20) == 67;
      assert LenBase(24) == 131;
      assert LenBase(27) == 227;
    }
  }

  lemma {:induction false} DistCodeFound(dist: nat, a: nat)
    requires 1 <= dist && dist < DistBase(a) + Pow2(DistExtra(a))
    ensures var c := DistCodeFrom(dist, a); c <= a && DistBase(c) <= dist < DistBase(c) + Pow2(DistExtra(c))
  {
    if a > 0 && DistBase(a) > dist {
      DistCodeFound(dist, a - 1);
    }
  }

  lemma {:induction false} DistBaseEven(k: nat)
    requires 1 <= k <= 14
    ensures DistBase(2 * k) == Pow2(k) + 1
  {
    if k > 1 {
      DistBaseEven(k - 1);
      assert DistBase(2 * k - 1) == DistBase(2 * k - 2) + Pow2(DistExtra(2 * k - 2));
      if k > 2 { assert DistExtra(2 * k - 2) == k - 2 && DistExtra(2 * k - 1) == k - 2; }
    }
  }

  /** Every length of the format has a code whose extra bits can hold the rest. */
  lemma LenCodeOk(len: nat)
    requires 3 <= len <= 258
    ensures LenCode(len) <= 28 && LenBase(LenCode(len)) <= len
    ensures len - LenBase(LenCode(len)) < Pow2(LenExtra(LenCode(len))) <= 32
  {
    LenCodeFound(len, 28);
    Pow2Mono(LenExtra(LenCode(len)), 5);
    assert Pow2(5) == 32;
  }

  /** So does every distance. */
  lemma DistCodeOk(dist: nat)
    requires 1 <= dist <= 32768
    ensures DistCode(dist) <= 29 && DistBase(DistCode(dist)) <= dist
    ensures dist - DistBase(DistCode(dist)) < Pow2(DistExtra(DistCode(dist))) <= 8192
  {
    DistBaseEven(14);
    assert Pow2(10) == 1024;
    assert Pow2(12) == 4096 && Pow2(13) == 8192 && Pow2(14) == 16384;
    assert DistBase(29) == DistBase(28) + Pow2(13);
    DistCodeFound(dist, 29);
    Pow2Mono(DistExtra(DistCode(dist)), 13);
  }

  /** The first values of all codes, from the widths of their extra bits. */
  method BuildBases(eb: seq<nat>, start: nat) returns (b: array<nat>)
    requires |eb| >= 30
    ensures fresh(b) && b.Length == 31 && b[0] == start + 1
    ensures forall a :: 0 <= a < 30 ==> b[a + 1] == b[a] + Pow2(eb[a])
  {
    b := new nat[31](_ => 0);
    var t := start + 1;
    b[0] := t;
    for a := 1 to 31
      invariant t == b[a - 1] && b[0] == start + 1
      invariant forall k :: 0 <= k < a - 1 ==> b[k + 1] == b[k] + Pow2(eb[k])
    {
      t := t + Pow2(eb[a - 1]);
      b[a] := t;
    }
  }

  predicate InRange(b: seq<nat>, a: nat, v: nat)
    requires |b| == 31
  {
    a < 30 && b[a] <= v < b[a + 1]
  }

  /** The entries of the values of code a. */
  method FillRange(r: array<nat>, b: seq<nat>, a: nat)
    requires |b| == 31 && r.Length == b[30] && 1 <= a < 30 && b[a] <= b[a + 1] <= b[30]
    modifies r
    ensures forall v {:trigger InRange(b, a, v)} :: 0 <= v < r.Length ==>
      r[v] == if InRange(b, a, v) then (v - b[a]) * 32 + a else old(r[v])
  {
    var s := b[a];
    while s < b[a + 1]
      invariant b[a] <= s <= b[a + 1]
      invariant forall v {:trigger InRange(b, a, v)} :: 0 <= v < r.Length ==>
        r[v] == if InRange(b, a, v) && v < s then (v - b[a]) * 32 + a else old(r[v])
    {
      assert InRange(b, a, s);
      r[s] := (s - b[a]) * 32 + a;
      s := s + 1;
    }
    assert forall v :: 0 <= v < r.Length && InRange(b, a, v) ==> v < s;
  }

  /** The first values of all codes, and the table from values back to codes and extra values:
      one method for lengths (start 2) and distances (start 0). */
  method BuildRanges(eb: seq<nat>, start: nat) returns (b: array<nat>, r: array<nat>)
    requires |eb| >= 30
    ensures fresh(b) && fresh(r) && b.Length == 31 && b[0] == start + 1 && r.Length == b[30]
    ensures forall a :: 0 <= a < 30 ==> b[a + 1] == b[a] + Pow2(eb[a])
    ensures forall a, v {:trigger InRange(b[..], a, v)} :: 0 <= a < 30 && 0 <= v < r.Length && InRange(b[..], a, v) ==>
      r[v] == if a == 0 then 0 else (v - b[a]) * 32 + a
  {
    b := BuildBases(eb, start);
    ghost var bs := b[..];
    RangesMono(bs, eb);
    r := new nat[b[30]](_ => 0);
    for a := 1 to 30
      invariant b[..] == bs
      invariant forall c, v {:trigger InRange(bs, c, v)} :: 0 <= c < 30 && 0 <= v < r.Length && InRange(bs, c, v) ==>
        r[v] == if 1 <= c < a then (v - bs[c]) * 32 + c else 0
      modifies r
    {
      FillRange(r, b[..], a);
      forall c, v {:trigger InRange(bs, c, v)} | 0 <= c < 30 && 0 <= v < r.Length && InRange(bs, c, v)
        ensures InRange(bs, a, v) <==> a == c
      {
        if InRange(bs, a, v) { RangesApart(bs, eb, a, c, v); }
      }
    }
  }

  lemma RangesMono(b: seq<nat>, eb: seq<nat>)
    requires |b| == 31 && |eb| >= 30 && forall a :: 0 <= a < 30 ==> b[a + 1] == b[a] + Pow2(eb[a])
    ensures forall i, j :: 0 <= i <= j < 31 ==> b[i] <= b[j]
  {
    forall i, j | 0 <= i <= j < 31 ensures b[i] <= b[j] { RangeMono(b, eb, i, j); }
  }

  lemma {:induction false} RangeMono(b: seq<nat>, eb: seq<nat>, i: nat, j: nat)
    requires |b| == 31 && |eb| >= 30 && forall a :: 0 <= a < 30 ==> b[a + 1] == b[a] + Pow2(eb[a])
    requires i <= j < 31
    ensures b[i] <= b[j]
    decreases j
  {
    if i < j {
      RangeMono(b, eb, i, j - 1);
      assert b[(j - 1) + 1] == b[j - 1] + Pow2(eb[j - 1]);
    }
  }

  /** The last code of a value: its range, and only its range, contains it. */
  lemma RangesApart(b: seq<nat>, eb: seq<nat>, a: nat, c: nat, v: nat)
    requires |b| == 31 && |eb| >= 30 && forall k :: 0 <= k < 30 ==> b[k + 1] == b[k] + Pow2(eb[k])
    requires InRange(b, a, v) && InRange(b, c, v)
    ensures a == c
  {
    if a < c { RangeMono(b, eb, a + 1, c); }
    if c < a { RangeMono(b, eb, c + 1, a); }
  }

  function Entry(extra: nat, code: nat): (x: nat)
    requires code < 32
    ensures x % 32 == code && x / 32 == extra
  {
    extra * 32 + code
  }

  /** What the table holds for a length or a distance: extra value and code in one number. */
  function LenEntry(len: nat): (x: nat)
    requires 3 <= len <= 258
    ensures x < 1024 && x % 32 == LenCode(len) && LenBase(LenCode(len)) + x / 32 == len
  {
    LenCodeOk(len);
    var c := LenCode(len);
    Entry(len - LenBase(c), c)
  }

  function DistEntry(dist: nat): (x: nat)
    requires 1 <= dist <= 32768
    ensures x < 262144 && x % 32 == DistCode(dist) && DistBase(DistCode(dist)) + x / 32 == dist
  {
    DistCodeOk(dist);
    var c := DistCode(dist);
    Entry(dist - DistBase(c), c)
  }

  /** The computed first lengths are those of the format before code 28 is set apart. */
  lemma {:induction false} RawLengths(b: seq<nat>, a: nat)
    requires |b| == 31 && b[0] == 3 && (forall k :: 0 <= k < 30 ==> b[k + 1] == b[k] + Pow2(LENGTH_EXTRA[k])) && a < 31
    ensures b[a] == if a < 28 then LenBase(a) else a + 231
  {
    if a > 0 {
      RawLengths(b, a - 1);
      ExtraTables(a - 1);
      assert b[(a - 1) + 1] == b[a - 1] + Pow2(LENGTH_EXTRA[a - 1]);
      if a == 28 { LengthsEnd(); }
    }
  }

  lemma LengthsEnd()
    ensures LenBase(27) == 227 && Pow2(LenExtra(27)) == 32 && LenBase(28) == 258 && LenBase(29) == 260
  {
    assert Pow2(1) == 2 && Pow2(2) == 4 && Pow2(3) == 8 && Pow2(4) == 16 && Pow2(5) == 32;
    assert LenBase(4) == 7;
    assert LenBase(8) == 11;
    assert LenBase(12) == 19;
    assert LenBase(16) == 35;
    assert LenBase(20) == 67;
    assert LenBase(24) == 131;
  }

  lemma LengthInRange(b: seq<nat>, len: nat)
    requires |b| == 31 && b[0] == 3 && (forall k :: 0 <= k < 30 ==> b[k + 1] == b[k] + Pow2(LENGTH_EXTRA[k])) && 3 <= len < 258
    ensures var c := LenCode(len); c < 28 && InRange(b, c, len) && LenEntry(len) == if c == 0 then 0 else (len - b[c]) * 32 + c
  {
    var c := LenCode(len);
    LenCodeOk(len);
    LengthsEnd();
    RawLengths(b, c);
    ExtraTables(c);
    assert b[c + 1] == b[c] + Pow2(LENGTH_EXTRA[c]);
  }

  lemma DistanceInRange(b: seq<nat>, dist: nat)
    requires |b| == 31 && b[0] == 1 && (forall k :: 0 <= k < 30 ==> b[k + 1] == b[k] + Pow2(DIST_EXTRA[k])) && 1 <= dist <= 32768
    ensures var c := DistCode(dist); c < 30 && InRange(b, c, dist) && DistEntry(dist) == if c == 0 then 0 else (dist - b[c]) * 32 + c
  {
    hide *;
    var c := DistCode(dist);
    DistCodeOk(dist);
    RawDistances(b, c);
    DistanceNext(b, c);
    InRangeOf(b, c, dist);
    if c == 0 { EntryOfFirst(dist); }
    assert DistEntry(dist) == 32 * (DistEntry(dist) / 32) + c;
  }

  lemma DistanceNext(b: seq<nat>, c: nat)
    requires |b| == 31 && (forall k :: 0 <= k < 30 ==> b[k + 1] == b[k] + Pow2(DIST_EXTRA[k])) && c < 30
    ensures b[c + 1] == b[c] + Pow2(DistExtra(c))
  {
    hide DistExtra, Pow2;
    ExtraTables(c);
    assert b[c + 1] == b[c] + Pow2(DIST_EXTRA[c]);
  }

  lemma InRangeOf(b: seq<nat>, c: nat, v: nat)
    requires |b| == 31 && c < 30 && b[c] <= v < b[c + 1]
    ensures InRange(b, c, v)
  {
  }

  lemma EntryOfFirst(dist: nat)
    requires 1 <= dist <= 32768 && DistCode(dist) == 0
    ensures DistEntry(dist) == 0
  {
    hide DistCode;
    DistCodeOk(dist);
  }

  /** The length tables: first lengths by code, and the entry of every length. */
  method BuildLengths() returns (b: array<nat>, r: array<nat>)
    ensures fresh(b) && fresh(r) && b.Length == 31 && r.Length == 261
    ensures forall a :: 0 <= a < 30 ==> b[a] == LenBase(a)
    ensures forall len :: 3 <= len <= 258 ==> r[len] == LenEntry(len)
  {
    hide LenBase, LenCode, LenExtra, Pow2, LenEntry;
    b, r := BuildRanges(LENGTH_EXTRA, 2);
    ghost var raw := b[..];
    RawLengths(raw, 30);
    forall a | 0 <= a < 30 ensures raw[a] == if a < 28 then LenBase(a) else a + 231 { RawLengths(raw, a); }
    ghost var table := r[..];
    forall len | 3 <= len < 258 ensures table[len] == LenEntry(len) {
      LengthInRange(raw, len);
    }
    hide InRange;
    b[28] := 258;
    r[258] := 28;
    LengthsEnd();
    LastLength();
  }

  lemma LastLength()
    ensures LenEntry(258) == 28
  {
    LengthsEnd();
    LenCodeOk(258);
  }

  lemma {:induction false} RawDistances(b: seq<nat>, a: nat)
    requires |b| == 31 && b[0] == 1 && (forall k :: 0 <= k < 30 ==> b[k + 1] == b[k] + Pow2(DIST_EXTRA[k])) && a < 31
    ensures b[a] == DistBase(a)
  {
    if a > 0 {
      RawDistances(b, a - 1);
      ExtraTables(a - 1);
      assert b[(a - 1) + 1] == b[a - 1] + Pow2(DIST_EXTRA[a - 1]);
    }
  }

  /** The distance tables. */
  method BuildDistances() returns (b: array<nat>, r: array<nat>)
    ensures fresh(b) && fresh(r) && b.Length == 31 && r.Length == 32769
    ensures forall a :: 0 <= a < 30 ==> b[a] == DistBase(a)
    ensures forall dist :: 1 <= dist <= 32768 ==> r[dist] == DistEntry(dist)
  {
    hide DistBase, DistCode, DistExtra, Pow2, DistEntry;
    b, r := BuildRanges(DIST_EXTRA, 0);
    forall a | 0 <= a < 31 ensures b[a] == DistBase(a) { RawDistances(b[..], a); }
    DistancesEnd();
    forall dist | 1 <= dist <= 32768 ensures r[dist] == DistEntry(dist) {
      DistanceInRange(b[..], dist);
    }
  }

  // -------- both tables ----------------------------------------------------------------

  /** The tables that compressor and decompressor share. */
  datatype Tables = Tables(lenBase: seq<nat>, distBase: seq<nat>, lenEntry: seq<nat>, distEntry: seq<nat>)

  ghost predicate TablesOk(t: Tables) {
    && |t.lenBase| == 31 && |t.distBase| == 31 && |t.lenEntry| == 261 && |t.distEntry| == 32769
    && (forall a :: 0 <= a < 30 ==> t.lenBase[a] == LenBase(a) && t.distBase[a] == DistBase(a))
    && (forall len :: 3 <= len <= 258 ==> t.lenEntry[len] == LenEntry(len))
    && forall dist :: 1 <= dist <= 32768 ==> t.distEntry[dist] == DistEntry(dist)
  }

  method BuildTables() returns (t: Tables)
    ensures TablesOk(t)
  {
    hide LenBase, DistBase, LenEntry, DistEntry;
    var lenBase, lenEntry := BuildLengths();
    var distBase, distEntry := BuildDistances();
    t := Tables(lenBase[..], distBase[..], lenEntry[..], distEntry[..]);
  }

  /** What the tables hold for one copy. */
  lemma EntriesOf(t: Tables, len: nat, dist: nat)
    requires TablesOk(t) && 3 <= len <= 258 && 1 <= dist <= 32768
    ensures |t.lenEntry| == 261 && |t.distEntry| == 32769 && t.lenEntry[len] == LenEntry(len) && t.distEntry[dist] == DistEntry(dist)
  {
    hide LenBase, DistBase, LenEntry, DistEntry;
  }

  lemma BasesOf(t: Tables, code: nat)
    requires TablesOk(t)
    ensures |t.lenBase| == 31 && |t.distBase| == 31
    ensures code < 30 ==> t.lenBase[code] == LenBase(code) && t.distBase[code] == DistBase(code)
  {
    hide LenBase, DistBase, LenEntry, DistEntry;
  }

  lemma DistancesEnd()
    ensures DistBase(30) == 32769
  {
    DistBaseEven(14);
    assert Pow2(10) == 1024;
    assert Pow2(12) == 4096 && Pow2(13) == 8192 && Pow2(14) == 16384;
    assert DistBase(29) == DistBase(28) + Pow2(13);
  }

  // -------- packed symbols -------------------------------------------------------------

  ghost predicate SymbolOk(s: Symbol, before: nat) {
    s.Copy? ==> 3 <= s.len <= 258 && 1 <= s.dist <= 32768 && s.dist <= before
  }

  ghost predicate Sane(s: Symbol) {
    s.Copy? ==> 3 <= s.len <= 258 && 1 <= s.dist <= 32768
  }

  /** A symbol as one 29-bit number: a literal as itself; a copy with bit 28 set, the entry of
      its length above bit 18 and the entry of its distance below. */
  function Pack(s: Symbol): nat
    requires Sane(s)
  {
    match s
    case Lit(b) => b
    case Copy(len, dist) => 268435456 + LenEntry(len) * 262144 + DistEntry(dist)
  }

  /** The fields the block writer takes out of a packed copy. */
  lemma PackedFields(s: Symbol)
    requires Sane(s) && s.Copy?
    ensures Pack(s) > 255
    ensures Pack(s) / 262144 % 32 == LenCode(s.len)
    ensures Pack(s) / 8388608 % 32 == s.len - LenBase(LenCode(s.len))
    ensures Pack(s) % 32 == DistCode(s.dist)
    ensures Pack(s) / 32 % 8192 == s.dist - DistBase(DistCode(s.dist))
  {
    FieldSplit(LenEntry(s.len), DistEntry(s.dist));
  }

  lemma FieldSplit(x: nat, y: nat)
    requires x < 1024 && y < 262144
    ensures var z := 268435456 + x * 262144 + y;
            z / 262144 % 32 == x % 32 && z / 8388608 % 32 == x / 32 && z % 32 == y % 32 && z / 32 % 8192 == y / 32
  {
    var z := 268435456 + x * 262144 + y;
    assert z / 262144 == 1024 + x;
    assert z / 8388608 == 32 + x / 32;
    assert z / 32 == 8388608 + x * 8192 + y / 32;
  }

  // -------- replaying ------------------------------------------------------------------

  /** Append `len` bytes, each the one `dist` places back: the source may overlap its copy. */
  function CopyTo(out: seq<byte>, len: nat, dist: nat): (r: seq<byte>)
    decreases len
  {
    if len == 0 || dist == 0 || dist > |out| then out else CopyTo(out + [out[|out| - dist]], len - 1, dist)
  }

  function Play(out: seq<byte>, s: Symbol): seq<byte> {
    match s
    case Lit(b) => out + [b]
    case Copy(len, dist) => CopyTo(out, len, dist)
  }

  function Replay(out: seq<byte>, syms: seq<Symbol>): seq<byte> {
    if |syms| == 0 then out else Play(Replay(out, syms[..|syms| - 1]), syms[|syms| - 1])
  }

  /** Every copy reaches back into bytes that are there. */
  ghost predicate SymbolsOk(out: seq<byte>, syms: seq<Symbol>) {
    |syms| == 0 ||
    (SymbolsOk(out, syms[..|syms| - 1]) && SymbolOk(syms[|syms| - 1], |Replay(out, syms[..|syms| - 1])|))
  }

  lemma SymbolsNext(out: seq<byte>, syms: seq<Symbol>, s: Symbol)
    requires SymbolsOk(out, syms) && SymbolOk(s, |Replay(out, syms)|)
    ensures SymbolsOk(out, syms + [s]) && Replay(out, syms + [s]) == Play(Replay(out, syms), s)
  {
    assert (syms + [s])[..|syms|] == syms;
  }

  lemma {:induction false} SymbolsPrefix(out: seq<byte>, syms: seq<Symbol>, i: nat)
    requires SymbolsOk(out, syms) && i < |syms|
    ensures SymbolsOk(out, syms[..i]) && SymbolOk(syms[i], |Replay(out, syms[..i])|)
    decreases |syms|
  {
    var n := |syms| - 1;
    if i < n {
      SymbolsPrefix(out, syms[..n], i);
      assert syms[..n][..i] == syms[..i];
    }
  }

  lemma {:induction false} CopyLength(out: seq<byte>, len: nat, dist: nat)
    requires 1 <= dist <= |out|
    ensures |CopyTo(out, len, dist)| == |out| + len && out <= CopyTo(out, len, dist)
    decreases len
  {
    if len > 0 { CopyLength(out + [out[|out| - dist]], len - 1, dist); }
  }

  /** Bytes of the input that repeat those `dist` places back are replayed by a copy. */
  lemma {:induction false} CopyOfMatch(data: seq<byte>, d: nat, len: nat, dist: nat)
    requires 1 <= dist <= d && d + len <= |data|
    requires data[d..d + len] == data[d - dist..d - dist + len]
    ensures CopyTo(data[..d], len, dist) == data[..d + len]
    decreases len
  {
    if len > 0 {
      assert data[d..d + len][0] == data[d] == data[d - dist];
      assert data[..d] + [data[..d][d - dist]] == data[..d + 1];
      assert data[d + 1..d + len] == data[d..d + len][1..] == data[d - dist..d - dist + len][1..];
      CopyOfMatch(data, d + 1, len - 1, dist);
    }
  }

  // -------- searching ------------------------------------------------------------------

  function Min(a: int, b: int): (r: int)
    ensures r <= a && r <= b && (r == a || r == b)
  {
    if a <= b then a else b
  }

  function At(e: seq<byte>, i: int): byte { if 0 <= i < |e| then e[i] else 0 }

  /** The hash of the three bytes at t; x, the mask, is 2^bits - 1. */
  function Hash(e: seq<byte>, t: int, bits: nat): (h: nat)
    ensures h < Pow2(bits)
  {
    var m := (bits + 2) / 3;
    var x := Xor(Xor(At(e, t), Shl(At(e, t + 1), m)), Shl(At(e, t + 2), 2 * m));
    LowBound(x, bits);
    Low(x, bits)
  }

  /** Bit i of the hash is the sum of the bits i, i - m and i - 2m of the three bytes, where m is a
      third of the width, rounded up. */
  lemma HashBit(e: seq<byte>, t: int, bits: nat, i: nat)
    requires i < bits
    ensures var m := (bits + 2) / 3;
            BitAt(Hash(e, t, bits), i) ==
            ((BitAt(At(e, t), i) != (i >= m && BitAt(At(e, t + 1), i - m))) != (i >= 2 * m && BitAt(At(e, t + 2), i - 2 * m)))
  {
    hide BitAt, Xor, Shl, Low, At;
    var m := (bits + 2) / 3;
    var a, b, c := At(e, t), Shl(At(e, t + 1), m), Shl(At(e, t + 2), 2 * m);
    LowBit(Xor(Xor(a, b), c), bits, i);
    XorBit(Xor(a, b), c, i);
    XorBit(a, b, i);
    ShlBit(At(e, t + 1), m, i);
    ShlBit(At(e, t + 2), 2 * m, i);
  }

  /** A copy of length q from distance u that may stand at position d of the input. */
  ghost predicate IsMatch(e: seq<byte>, d: nat, q: nat, u: nat) {
    && 3 <= q <= 258 && d + q <= |e| && 1 <= u <= 32767 && u <= d
    && e[d..d + q] == e[d - u..d - u + q]
  }

  /** The n bytes at d repeat those z places back. */
  ghost predicate Common(e: seq<byte>, d: nat, z: nat, n: nat) {
    1 <= z <= d && d + n <= |e| && e[d..d + n] == e[d - z..d - z + n]
  }

  /** No copy from distance z, of the lengths a copy may have, is longer than q. */
  ghost predicate NoLonger(e: seq<byte>, d: nat, z: nat, q: nat) {
    forall n: nat :: n <= 258 && Common(e, d, z, n) ==> n <= q
  }

  lemma CommonAt(e: seq<byte>, d: nat, z: nat, n: nat, i: nat)
    requires Common(e, d, z, n) && i < n
    ensures e[d + i] == e[d + i - z]
  {
    assert e[d..d + n][i] == e[d - z..d - z + n][i];
  }

  lemma Differ(e: seq<byte>, d: nat, z: nat, q: nat, j: nat)
    requires 1 <= z <= d && d + j <= |e| && j == Min(258, |e| - d) && q <= j && (q < j ==> e[d + q] != e[d + q - z])
    ensures NoLonger(e, d, z, q)
  {
    forall n: nat | n <= 258 && Common(e, d, z, n) ensures n <= q {
      if n > q { CommonAt(e, d, z, n, q); }
    }
  }

  lemma NoLongerStill(e: seq<byte>, d: nat, z: nat, q: nat, n: nat)
    requires NoLonger(e, d, z, q) && q <= n
    ensures NoLonger(e, d, z, n)
  {
  }

  lemma SameHash(e: seq<byte>, d: nat, z: nat, bits: nat)
    requires Common(e, d, z, 3)
    ensures Hash(e, d, bits) == Hash(e, d - z, bits)
  {
    assert e[d..d + 3][0] == e[d - z..d - z + 3][0] && e[d..d + 3][1] == e[d - z..d - z + 3][1] && e[d..d + 3][2] == e[d - z..d - z + 3][2];
  }

  lemma OneMoreByte(e: seq<byte>, d: nat, q: nat)
    requires d + q < |e|
    ensures e[d..d + q + 1] == e[d..d + q] + [e[d + q]]
  {
  }

  /** How many bytes at d, at most j of them, equal those z places back. */
  method MatchLength(e: seq<byte>, d: nat, z: nat, j: nat) returns (q: nat)
    requires 1 <= z <= d && d + j <= |e|
    ensures q <= j && e[d..d + q] == e[d - z..d - z + q]
    ensures q < j ==> e[d + q] != e[d + q - z]
  {
    q := 0;
    while q < j && e[d + q] == e[d + q - z]
      invariant q <= j && e[d..d + q] == e[d - z..d - z + q]
    {
      OneMoreByte(e, d, q);
      OneMoreByte(e, d - z, q);
      q := q + 1;
    }
  }

  /** How far back, modulo 32768, the predecessor of a cell is. */
  function Gap(prev: seq<nat>, cell: nat): nat
    requires cell < |prev|
  {
    (cell - prev[cell]) % 32768
  }

  function CellOf(p: int): nat { p % 32768 }

  function GapAt(prev: seq<nat>, p: nat, g: int): nat
    requires |prev| == 32768
  {
    Gap(prev, CellOf(p + g))
  }

  /** Cell w is the first, among those of the m positions from p on, whose predecessor is farthest
      back; or w0, if none has a predecessor. */
  ghost predicate Rarest(prev: seq<nat>, p: nat, m: int, w0: nat, w: nat)
    requires |prev| == 32768
  {
    || (w == w0 && forall g :: 0 <= g < m ==> GapAt(prev, p, g) == 0)
    || exists g :: RarestAt(prev, p, m, w, g)
  }

  ghost predicate RarestAt(prev: seq<nat>, p: nat, m: int, w: nat, g: int)
    requires |prev| == 32768
  {
    && 0 <= g < m && w == CellOf(p + g) && Gap(prev, w) > 0
    && (forall k :: 0 <= k < m ==> GapAt(prev, p, k) <= Gap(prev, w))
    && (forall k :: 0 <= k < g ==> GapAt(prev, p, k) < Gap(prev, w))
  }

  /** Continue the search at the position, among those the match covers, whose own
      predecessor is farthest back. */
  method RarestStart(prev: array<nat>, d: nat, z: nat, q: nat, w0: nat) returns (w: nat)
    requires prev.Length == 32768 && w0 < 32768 && z <= d
    ensures w < 32768 && Rarest(prev[..], d - z, Min(z, q - 2), w0, w)
  {
    w := w0;
    var te, g := 0, 0;
    ghost var m, best, cells, p := Min(z, q - 2), -1, prev[..], d - z;
    while g < Min(z, q - 2)
      invariant g >= 0 && w < 32768 && (g <= m || g == 0)
      invariant forall k :: 0 <= k < g ==> GapAt(cells, p, k) <= te
      invariant if te == 0 then w == w0 else 0 <= best < g && w == CellOf(p + best) && te == Gap(cells, w)
      invariant te > 0 ==> forall k :: 0 <= k < best ==> GapAt(cells, p, k) < te
      invariant te >= 0
    {
      var ne := (d - z + g) % 32768;
      var re := (ne - prev[ne]) % 32768;
      assert re == GapAt(cells, p, g);
      if re > te { te, w := re, ne; best := g; }
      g := g + 1;
    }
    assert te > 0 ==> RarestAt(cells, p, m, w, best);
  }

  // -------- the walk along a chain -----------------------------------------------------

  /** A candidate: its cell in the table of predecessors, and its distance. */
  datatype Spot = Spot(cell: nat, dist: nat)

  /** Candidate i gives a copy of n bytes, longer than any candidate before it. */
  ghost predicate Better(e: seq<byte>, d: nat, tried: seq<Spot>, i: nat, n: nat)
    requires i < |tried|
  {
    && 3 <= n <= 258 && Common(e, d, tried[i].dist, n) && NoLonger(e, d, tried[i].dist, n)
    && forall k :: 0 <= k < i ==> NoLonger(e, d, tried[k].dist, n - 1)
  }

  /** The cell from which the walk goes on after candidate i: its own, or, if it was better, the
      one with the rarest predecessor that its copy covers. */
  ghost predicate GoesOn(e: seq<byte>, d: nat, prev: seq<nat>, tried: seq<Spot>, i: nat, v: nat)
    requires |prev| == 32768 && i < |tried|
  {
    && v < 32768 && tried[i].dist <= d
    && (forall n: nat :: Better(e, d, tried, i, n) ==> Rarest(prev, d - tried[i].dist, Min(tried[i].dist, n - 2), tried[i].cell, v))
    && ((forall n: nat :: !Better(e, d, tried, i, n)) ==> v == tried[i].cell)
  }

  /** The candidate after the first so many: the head of the chain, then each time the predecessor
      of the cell the walk goes on from. */
  ghost predicate Next(e: seq<byte>, d: nat, prev: seq<nat>, w0: nat, tried: seq<Spot>, i: nat, next: Spot)
    requires |prev| == 32768 && i <= |tried|
  {
    if i == 0 then next == Spot(w0, (d - w0) % 32768)
    else exists v: nat :: GoesOn(e, d, prev, tried, i - 1, v) && next == Spot(prev[v], tried[i - 1].dist + Gap(prev, v))
  }

  function Before(tried: seq<Spot>, i: nat): nat
    requires i <= |tried|
  {
    if i == 0 then 0 else tried[i - 1].dist
  }

  /** Farther than the candidate before, and near enough for a copy. */
  predicate InReach(d: nat, before: nat, next: Spot) {
    before < next.dist <= Min(32767, d)
  }

  /** The candidates tried, in order, each within reach. */
  ghost predicate Chained(e: seq<byte>, d: nat, prev: seq<nat>, w0: nat, tried: seq<Spot>)
    requires |prev| == 32768
  {
    forall i :: 0 <= i < |tried| ==> Link(e, d, prev, w0, tried, i)
  }

  ghost predicate Link(e: seq<byte>, d: nat, prev: seq<nat>, w0: nat, tried: seq<Spot>, i: nat)
    requires |prev| == 32768 && i < |tried|
  {
    Next(e, d, prev, w0, tried, i, tried[i]) && InReach(d, Before(tried, i), tried[i])
  }

  /** The walk ends when the chain's bound is reached, a copy is longer than nice, or the next
      candidate is out of reach. */
  ghost predicate Ended(e: seq<byte>, d: nat, prev: seq<nat>, w0: nat, nice: nat, chain: nat, tried: seq<Spot>, q: nat)
    requires |prev| == 32768
  {
    || |tried| == chain - 1
    || q > Min(nice, |e| - d) - 1
    || exists next :: Next(e, d, prev, w0, tried, |tried|, next) && !InReach(d, Before(tried, |tried|), next)
  }

  /** What a walk finds: of all candidates it tries, the nearest of the longest copies. */
  ghost predicate Found(e: seq<byte>, d: nat, tried: seq<Spot>, q: nat, u: nat) {
    && (forall i :: 0 <= i < |tried| ==> NoLonger(e, d, tried[i].dist, q))
    && (if u == 0 then q == 2 else exists i :: 0 <= i < |tried| && u == tried[i].dist && Better(e, d, tried, i, q))
  }

  /** Nothing is tried where a copy cannot begin, or where the head of the chain has another hash. */
  ghost predicate Worthwhile(e: seq<byte>, d: nat, w0: nat, bits: nat) {
    |e| - d > 2 && Hash(e, d, bits) == Hash(e, d - (d - w0) % 32768, bits)
  }

  /** One more candidate. */
  lemma TryOne(e: seq<byte>, d: nat, prev: seq<nat>, w0: nat, tried: seq<Spot>, s: Spot)
    requires |prev| == 32768 && Chained(e, d, prev, w0, tried) && Next(e, d, prev, w0, tried, |tried|, s) && InReach(d, Before(tried, |tried|), s)
    ensures Chained(e, d, prev, w0, tried + [s]) && Before(tried + [s], |tried| + 1) == s.dist
  {
    hide Next, InReach, Before;
    var all := tried + [s];
    forall i | 0 <= i < |all| ensures Link(e, d, prev, w0, all, i) {
      BeforeSame(tried, all, i);
      if i < |tried| { assert Link(e, d, prev, w0, tried, i) && all[i] == tried[i]; }
      NextSame(e, d, prev, w0, tried, all, i, all[i]);
    }
    BeforeLast(tried, s);
  }

  lemma BeforeSame(tried: seq<Spot>, all: seq<Spot>, i: nat)
    requires tried <= all && i <= |tried|
    ensures Before(tried, i) == Before(all, i)
  {
  }

  lemma BeforeLast(tried: seq<Spot>, s: Spot)
    ensures Before(tried + [s], |tried| + 1) == s.dist
  {
  }

  lemma NextSame(e: seq<byte>, d: nat, prev: seq<nat>, w0: nat, tried: seq<Spot>, all: seq<Spot>, i: nat, next: Spot)
    requires |prev| == 32768 && tried <= all && i <= |tried| && Next(e, d, prev, w0, tried, i, next)
    ensures Next(e, d, prev, w0, all, i, next)
  {
    hide NoLonger, Common, Rarest;
    if i > 0 {
      var p := i - 1;
      var v: nat :| GoesOn(e, d, prev, tried, p, v) && next == Spot(prev[v], tried[i - 1].dist + Gap(prev, v));
      forall n: nat ensures Better(e, d, tried, p, n) <==> Better(e, d, all, p, n) { }
      assert GoesOn(e, d, prev, all, p, v);
    }
  }

  /** The candidate just tried is no better than what was found before. */
  lemma NotBetter(e: seq<byte>, d: nat, tried: seq<Spot>, q: nat, u: nat, s: Spot)
    requires Found(e, d, tried, q, u) && NoLonger(e, d, s.dist, q) && 2 <= q
    ensures Found(e, d, tried + [s], q, u) && var last := |tried|; forall n: nat :: !Better(e, d, tried + [s], last, n)
  {
    hide Common, NoLonger;
    var all := tried + [s];
    if u != 0 {
      var i :| 0 <= i < |tried| && u == tried[i].dist && Better(e, d, tried, i, q);
      assert Better(e, d, all, i, q) && u == all[i].dist;
    }
    var last := |tried|;
    forall n: nat ensures !Better(e, d, all, last, n) { Beaten(e, d, tried, q, u, s, n); }
  }

  lemma Beaten(e: seq<byte>, d: nat, tried: seq<Spot>, q: nat, u: nat, s: Spot, n: nat)
    requires Found(e, d, tried, q, u) && NoLonger(e, d, s.dist, q) && 2 <= q
    ensures !Better(e, d, tried + [s], |tried|, n)
  {
    hide Common, NoLonger;
    var all := tried + [s];
    if Better(e, d, all, |tried|, n) {
      AtMost(e, d, s.dist, q, n);
      if u != 0 {
        var i :| 0 <= i < |tried| && u == tried[i].dist && Better(e, d, tried, i, q);
        AtMost(e, d, all[i].dist, n - 1, q);
      }
    }
  }

  lemma AtMost(e: seq<byte>, d: nat, z: nat, q: nat, n: nat)
    requires NoLonger(e, d, z, q) && Common(e, d, z, n) && n <= 258
    ensures n <= q
  {
  }

  /** The candidate just tried is better. */
  lemma IsBetter(e: seq<byte>, d: nat, tried: seq<Spot>, q: nat, u: nat, s: Spot, n: nat)
    requires Found(e, d, tried, q, u) && 2 <= q < n <= 258 && Common(e, d, s.dist, n) && NoLonger(e, d, s.dist, n)
    ensures Found(e, d, tried + [s], n, s.dist) && Better(e, d, tried + [s], |tried|, n)
    ensures var last := |tried|; forall k: nat :: Better(e, d, tried + [s], last, k) ==> k == n
  {
    var all := tried + [s];
    forall k | 0 <= k < |tried| ensures NoLonger(e, d, all[k].dist, n - 1) { NoLongerStill(e, d, tried[k].dist, q, n - 1); }
    forall i | 0 <= i < |all| ensures NoLonger(e, d, all[i].dist, n) { if i < |tried| { NoLongerStill(e, d, tried[i].dist, q, n); } }
    assert all[|tried|].dist == s.dist;
  }

  /** How to search: the length that is enough, the number of places to try, the width of the hash. */
  datatype Way = Way(nice: nat, chain: nat, bits: nat)

  /** No more places are tried than allowed, and none after a copy that is long enough. */
  ghost predicate Restrained(e: seq<byte>, d: nat, nice: nat, chain: nat, tried: seq<Spot>) {
    |tried| < chain && forall i :: 0 <= i < |tried| - 1 ==> Enough(e, d, tried[i].dist, Min(nice, |e| - d) - 1)
  }

  ghost predicate Enough(e: seq<byte>, d: nat, z: nat, y: int) {
    NoLonger(e, d, z, if y > 2 then y else 2)
  }

  lemma RestrainedNext(e: seq<byte>, d: nat, nice: nat, chain: nat, tried: seq<Spot>, q: nat, u: nat, s: Spot)
    requires Restrained(e, d, nice, chain, tried) && |tried| + 1 < chain && Found(e, d, tried, q, u)
    requires q == 2 || q <= Min(nice, |e| - d) - 1
    ensures Restrained(e, d, nice, chain, tried + [s])
  {
    hide Better;
    var y := Min(nice, |e| - d) - 1;
    forall i | 0 <= i < |tried| ensures Enough(e, d, (tried + [s])[i].dist, y) {
      NoLongerStill(e, d, tried[i].dist, q, if y > 2 then y else 2);
    }
  }

  /** The whole search for position d along the chains `prev` from w0: the places tried, and the
      copy found, of distance 0 if there is none. */
  ghost predicate Walked(e: seq<byte>, d: nat, prev: seq<nat>, w0: nat, way: Way, tried: seq<Spot>, q: nat, u: nat)
    requires |prev| == 32768
  {
    && Chained(e, d, prev, w0, tried) && Found(e, d, tried, q, u) && Restrained(e, d, way.nice, way.chain, tried)
    && if Worthwhile(e, d, w0, way.bits) then Ended(e, d, prev, w0, way.nice, way.chain, tried, q) else tried == []
  }

  /** Walk the chain from its head w0 and return the longest copy found for position d: its
      length and distance, or distance 0.  Nothing is assumed of the chain but that its cells
      hold 15-bit numbers; `nice` ends the walk early and `chain` bounds it. */
  method FindMatch(e: seq<byte>, d: nat, prev: array<nat>, w0: nat, nice: nat, chain: nat, bits: nat)
    returns (q: nat, u: nat, ghost tried: seq<Spot>)
    requires d < |e| && prev.Length == 32768 && (forall k :: 0 <= k < 32768 ==> prev[k] < 32768)
    requires w0 < 32768 && nice <= 258 && chain > 0
    ensures u != 0 ==> IsMatch(e, d, q, u)
    ensures Walked(e, d, prev[..], w0, Way(nice, chain, bits), tried, q, u)
  {
    hide *;
    var left := |e| - d;
    q, u := 2, 0;
    tried := [];
    ghost var cells := prev[..];
    NothingTried(e, d, cells, w0);
    NoneTried(e, d, nice, chain);
    var v, w, x := d % 32768, w0, chain - 1;
    var z := (v - w) % 32768;
    SameGap(d, w);
    Worth(e, d, w0, bits);
    if left > 2 && Hash(e, d, bits) == Hash(e, d - z, bits) {
      var y := Min(nice, left) - 1;
      var k, j := Min(32767, d), Min(258, left);
      while z <= k && x != 0 && v != w
        invariant w < 32768 && v < 32768 && z >= 0 && x >= 0 && x == chain - 1 - |tried|
        invariant z >= Before(tried, |tried|) && (z == Before(tried, |tried|) <==> v == w)
        invariant 2 <= q < left && (q == 2 || q <= y)
        invariant u != 0 ==> IsMatch(e, d, q, u)
        invariant Chained(e, d, cells, w0, tried) && Found(e, d, tried, q, u) && Restrained(e, d, nice, chain, tried)
        invariant Next(e, d, cells, w0, tried, |tried|, Spot(w, z))
        decreases x
      {
        ghost var s, was := Spot(w, z), tried;
        Reaches(d, Before(tried, |tried|), s);
        TryOne(e, d, cells, w0, tried, s);
        RestrainedNext(e, d, nice, chain, tried, q, u, s);
        tried := tried + [s];
        if e[d + q] == e[d + q - z] {
          var n := MatchLength(e, d, z, j);
          Differ(e, d, z, n, j);
          if n > q {
            Measured(e, d, z, n);
            IsBetter(e, d, was, q, u, s, n);
            IsCopy(e, d, n, z);
            q, u := n, z;
            if n > y { break; }
            w := RarestStart(prev, d, z, n, w);
            FromRarest(e, d, cells, tried, |was|, n, w);
          } else {
            NoLongerStill(e, d, z, n, q);
            NotBetter(e, d, was, q, u, s);
            FromSame(e, d, cells, tried, |was|);
          }
        } else {
          Stops(e, d, z, q);
          NotBetter(e, d, was, q, u, s);
          FromSame(e, d, cells, tried, |was|);
        }
        v := w;
        w := prev[v];
        NextFrom(e, d, cells, w0, tried, v);
        z := z + (v - w) % 32768;
        x := x - 1;
      }
      if q > y { LongEnough(e, d, cells, w0, nice, chain, tried, q); } else { Over(e, d, cells, w0, nice, chain, tried, q, Spot(w, z)); }
    }
    WalkedNow(e, d, cells, w0, Way(nice, chain, bits), tried, q, u);
  }

  lemma WalkedNow(e: seq<byte>, d: nat, prev: seq<nat>, w0: nat, way: Way, tried: seq<Spot>, q: nat, u: nat)
    requires |prev| == 32768 && Chained(e, d, prev, w0, tried) && Found(e, d, tried, q, u) && Restrained(e, d, way.nice, way.chain, tried)
    requires if Worthwhile(e, d, w0, way.bits) then Ended(e, d, prev, w0, way.nice, way.chain, tried, q) else tried == []
    ensures Walked(e, d, prev, w0, way, tried, q, u)
  {
    hide Chained, Found, Restrained, Worthwhile, Ended;
  }

  lemma NoneTried(e: seq<byte>, d: nat, nice: nat, chain: nat)
    requires chain > 0
    ensures Restrained(e, d, nice, chain, [])
  {
  }

  lemma SameGap(d: nat, w: nat)
    ensures (d % 32768 - w) % 32768 == (d - w) % 32768
    ensures w < 32768 ==> ((d - w) % 32768 == 0 <==> d % 32768 == w)
  {
  }

  lemma Worth(e: seq<byte>, d: nat, w0: nat, bits: nat)
    ensures Worthwhile(e, d, w0, bits) <==> |e| - d > 2 && Hash(e, d, bits) == Hash(e, d - (d - w0) % 32768, bits)
    ensures Before([], 0) == 0
  {
    hide Hash;
  }

  /** The bound is reached, or the next candidate is out of reach. */
  lemma Over(e: seq<byte>, d: nat, prev: seq<nat>, w0: nat, nice: nat, chain: nat, tried: seq<Spot>, q: nat, s: Spot)
    requires |prev| == 32768 && Next(e, d, prev, w0, tried, |tried|, s)
    requires |tried| == chain - 1 || !(Before(tried, |tried|) < s.dist <= Min(32767, d))
    ensures Ended(e, d, prev, w0, nice, chain, tried, q)
  {
    hide Next;
  }

  lemma Reaches(d: nat, before: nat, s: Spot)
    ensures InReach(d, before, s) <==> before < s.dist <= Min(32767, d)
  {
  }

  lemma IsCopy(e: seq<byte>, d: nat, q: nat, u: nat)
    requires 3 <= q <= 258 && d + q <= |e| && 1 <= u <= 32767 && u <= d && e[d..d + q] == e[d - u..d - u + q]
    ensures IsMatch(e, d, q, u)
  {
  }

  lemma LongEnough(e: seq<byte>, d: nat, prev: seq<nat>, w0: nat, nice: nat, chain: nat, tried: seq<Spot>, q: nat)
    requires |prev| == 32768 && q > Min(nice, |e| - d) - 1
    ensures Ended(e, d, prev, w0, nice, chain, tried, q)
  {
  }

  lemma NothingTried(e: seq<byte>, d: nat, prev: seq<nat>, w0: nat)
    requires |prev| == 32768
    ensures Chained(e, d, prev, w0, []) && Found(e, d, [], 2, 0) && Next(e, d, prev, w0, [], 0, Spot(w0, (d - w0) % 32768))
  {
  }

  lemma Measured(e: seq<byte>, d: nat, z: nat, n: nat)
    requires 1 <= z <= d && d + n <= |e| && e[d..d + n] == e[d - z..d - z + n]
    ensures Common(e, d, z, n)
  {
  }

  /** A different byte behind the longest copy so far: this candidate gives none longer. */
  lemma Stops(e: seq<byte>, d: nat, z: nat, q: nat)
    requires 1 <= z <= d && d + q < |e| && e[d + q] != e[d + q - z]
    ensures NoLonger(e, d, z, q)
  {
    forall n: nat | n <= 258 && Common(e, d, z, n) ensures n <= q {
      if n > q { CommonAt(e, d, z, n, q); }
    }
  }

  lemma FromRarest(e: seq<byte>, d: nat, prev: seq<nat>, tried: seq<Spot>, last: nat, n: nat, v: nat)
    requires |prev| == 32768 && last == |tried| - 1 && v < 32768
    requires var s := tried[last]; s.dist <= d && Rarest(prev, d - s.dist, Min(s.dist, n - 2), s.cell, v)
    requires Better(e, d, tried, last, n) && forall k: nat :: Better(e, d, tried, last, k) ==> k == n
    ensures GoesOn(e, d, prev, tried, last, v)
  {
    hide Better, Rarest;
  }

  lemma FromSame(e: seq<byte>, d: nat, prev: seq<nat>, tried: seq<Spot>, last: nat)
    requires |prev| == 32768 && last == |tried| - 1 && tried[last].cell < 32768 && tried[last].dist <= d
    requires forall n: nat :: !Better(e, d, tried, last, n)
    ensures GoesOn(e, d, prev, tried, last, tried[last].cell)
  {
    hide Better, Rarest;
  }

  lemma NextFrom(e: seq<byte>, d: nat, prev: seq<nat>, w0: nat, tried: seq<Spot>, v: nat)
    requires |prev| == 32768 && tried != [] && v < 32768 && GoesOn(e, d, prev, tried, |tried| - 1, v)
    ensures Next(e, d, prev, w0, tried, |tried|, Spot(prev[v], tried[|tried| - 1].dist + (v - prev[v]) % 32768))
  {
    hide GoesOn;
  }

  /** If the head of the chain repeats the three bytes at d within reach, a copy is found, and at
      least as long as that one would be. */
  lemma HeadFound(e: seq<byte>, d: nat, prev: seq<nat>, w0: nat, way: Way, tried: seq<Spot>, q: nat, u: nat)
    requires d < |e| && |prev| == 32768 && way.chain >= 2 && 3 <= way.nice <= 258 && Walked(e, d, prev, w0, way, tried, q, u)
    requires var z := (d - w0) % 32768; z <= Min(32767, d) && Common(e, d, z, 3)
    ensures u != 0 && NoLonger(e, d, (d - w0) % 32768, q)
  {
    hide Better, NoLonger, Hash;
    var z := (d - w0) % 32768;
    SameHash(e, d, z, way.bits);
    if tried == [] { assert false; }
    assert Link(e, d, prev, w0, tried, 0);
    HeadLong(e, d, z, q);
  }

  lemma HeadLong(e: seq<byte>, d: nat, z: nat, q: nat)
    requires NoLonger(e, d, z, q) && Common(e, d, z, 3)
    ensures q >= 3
  {
  }
}
