/**
 Counting what a block will send: how often each literal, length and distance code occurs, the
 extra bits, and the exact number of bits these counts predict.
 */
module Counts {
  import opened Bits
  import opened Canonical
  import opened Lz77
  import opened Format
  import Huffman
  import RunLength

  /** The code of the literal/length alphabet a symbol is sent with. */
  function LitCode(s: Symbol): (c: nat)
    requires Sane(s)
    ensures c < 286
  {
    match s
    case Lit(b) => b
    case Copy(len, _) => LenCodeOk(len); 257 + LenCode(len)
  }

  function Bump(f: seq<nat>, a: nat): seq<nat> {
    if a < |f| then f[a := f[a] + 1] else f
  }

  ghost predicate AllSane(syms: seq<Symbol>) {
    forall k :: 0 <= k < |syms| ==> Sane(syms[k])
  }

  /** How often each literal/length code occurs. */
  ghost function LitCounts(syms: seq<Symbol>): (f: seq<nat>)
    requires AllSane(syms)
    ensures |f| == 288
  {
    if |syms| == 0 then seq(288, _ => 0) else
      Bump(LitCounts(syms[..|syms| - 1]), LitCode(syms[|syms| - 1]))
  }

  /** How often each distance code occurs. */
  ghost function DistCounts(syms: seq<Symbol>): (f: seq<nat>)
    requires AllSane(syms)
    ensures |f| == 32
  {
    if |syms| == 0 then seq(32, _ => 0) else
      var s := syms[|syms| - 1];
      var f := DistCounts(syms[..|syms| - 1]);
      if s.Copy? then Bump(f, DistCode(s.dist)) else f
  }

  function SymExtra(s: Symbol): nat {
    match s
    case Lit(_) => 0
    case Copy(len, dist) => LenExtra(LenCode(len)) + DistExtra(DistCode(dist))
  }

  function ExtraBits(syms: seq<Symbol>): nat {
    if |syms| == 0 then 0 else ExtraBits(syms[..|syms| - 1]) + SymExtra(syms[|syms| - 1])
  }

  function Copies(syms: seq<Symbol>): nat {
    if |syms| == 0 then 0 else Copies(syms[..|syms| - 1]) + (if syms[|syms| - 1].Copy? then 1 else 0)
  }

  method WeighCounts(f: array<nat>, t: seq<nat>) returns (n: nat)
    requires |t| <= f.Length
    ensures n == Dot(f[..], t)
  {
    n := 0;
    for r := 0 to |t|
      invariant n == Dot(f[..], t[..r])
    {
      assert t[..r + 1][..r] == t[..r];
      n := n + f[r] * t[r];
    }
    assert t[..|t|] == t;
  }

  lemma {:induction false} DotBump(f: seq<nat>, t: seq<nat>, a: nat)
    requires a < |f|
    ensures Dot(Bump(f, a), t) == Dot(f, t) + (if a < |t| then t[a] else 0)
  {
    if |t| > 0 {
      var n := |t| - 1;
      DotBump(f, t[..n], a);
      if n == a { assert (f[a] + 1) * t[a] == f[a] * t[a] + t[a]; }
    }
  }

  lemma {:induction false} DotZero(n: nat, t: seq<nat>)
    ensures Dot(seq(n, _ => 0), t) == 0
  {
    if |t| > 0 { DotZero(n, t[..|t| - 1]); }
  }

  lemma {:induction false} SumBump(f: seq<nat>, a: nat)
    requires a < |f|
    ensures Huffman.Sum(Bump(f, a)) == Huffman.Sum(f) + 1
  {
    var n := |f| - 1;
    if a < n {
      assert Bump(f, a)[..n] == Bump(f[..n], a);
      SumBump(f[..n], a);
    } else {
      assert Bump(f, a)[..n] == f[..n];
    }
  }

  lemma {:induction false} SumZero(n: nat)
    ensures Huffman.Sum(seq(n, _ => 0)) == 0
  {
    if n > 0 {
      assert seq(n, _ => 0)[..n - 1] == seq(n - 1, _ => 0);
      SumZero(n - 1);
    }
  }

  /** One more symbol. */
  lemma CountsNext(syms: seq<Symbol>, s: Symbol)
    requires AllSane(syms) && Sane(s)
    ensures AllSane(syms + [s])
    ensures LitCounts(syms + [s]) == Bump(LitCounts(syms), LitCode(s))
    ensures DistCounts(syms + [s]) == if s.Copy? then Bump(DistCounts(syms), DistCode(s.dist)) else DistCounts(syms)
    ensures ExtraBits(syms + [s]) == ExtraBits(syms) + SymExtra(s)
    ensures Copies(syms + [s]) == Copies(syms) + (if s.Copy? then 1 else 0)
  {
    assert (syms + [s])[..|syms|] == syms;
  }

  lemma {:induction false} CountsSum(syms: seq<Symbol>)
    requires AllSane(syms)
    ensures Huffman.Sum(LitCounts(syms)) == |syms| && Huffman.Sum(DistCounts(syms)) == Copies(syms) <= |syms|
  {
    if |syms| == 0 {
      SumZero(288);
      SumZero(32);
    } else {
      var n := |syms| - 1;
      CountsSum(syms[..n]);
      SumBump(LitCounts(syms[..n]), LitCode(syms[n]));
      if syms[n].Copy? {
        DistCodeOk(syms[n].dist);
        SumBump(DistCounts(syms[..n]), DistCode(syms[n].dist));
      }
    }
  }

  /** Every code a symbol needs has been counted. */
  lemma {:induction false} Counted(syms: seq<Symbol>, k: nat)
    requires AllSane(syms) && k < |syms|
    ensures LitCounts(syms)[LitCode(syms[k])] > 0
    ensures syms[k].Copy? ==> DistCode(syms[k].dist) < 32 && DistCounts(syms)[DistCode(syms[k].dist)] > 0
    decreases |syms|
  {
    hide LenCode, DistCode;
    var n := |syms| - 1;
    if syms[k].Copy? { DistCodeOk(syms[k].dist); }
    if k < n { Counted(syms[..n], k); }
  }

  /** The cost test is exact: counts, lengths and extra bits give the number of bits sent. */
  lemma {:induction false} BitsCounted(lit: seq<nat>, dist: seq<nat>, syms: seq<Symbol>)
    requires AllSane(syms) && AllCoded(lit, dist, syms)
    ensures |SymsBits(lit, dist, syms)| == Dot(LitCounts(syms), lit) + Dot(DistCounts(syms), dist) + ExtraBits(syms)
  {
    hide LenCode, DistCode, LenBase, DistBase, LenExtra, DistExtra;
    if |syms| == 0 {
      DotZero(288, lit);
      DotZero(32, dist);
    } else {
      var n := |syms| - 1;
      var s := syms[n];
      BitsCounted(lit, dist, syms[..n]);
      DotBump(LitCounts(syms[..n]), lit, LitCode(s));
      if s.Copy? {
        DistCodeOk(s.dist);
        DotBump(DistCounts(syms[..n]), dist, DistCode(s.dist));
      }
    }
  }

  /** Extra bits and codes of one symbol under the fixed codes: 9 bits for a literal, 31 for a copy. */
  lemma FixedSymbol(s: Symbol)
    requires Sane(s)
    ensures Coded(FixedLit(), FixedDist(), s)
    ensures |SymBits(FixedLit(), FixedDist(), s)| <= if s.Copy? then 31 else 9
  {
    hide LenCode, DistCode, LenBase, DistBase;
    FixedComplete();
    if s.Copy? {
      LenCodeOk(s.len);
      DistCodeOk(s.dist);
      assert FixedLit()[257 + LenCode(s.len)] <= 8;
    }
  }

  lemma FixedAllCoded(syms: seq<Symbol>)
    requires AllSane(syms)
    ensures AllCoded(FixedLit(), FixedDist(), syms)
  {
    forall k | 0 <= k < |syms| ensures Coded(FixedLit(), FixedDist(), syms[k]) { FixedSymbol(syms[k]); }
  }

  lemma {:induction false} FixedBound(syms: seq<Symbol>)
    requires AllSane(syms) && AllCoded(FixedLit(), FixedDist(), syms)
    ensures |SymsBits(FixedLit(), FixedDist(), syms)| <= 9 * |syms| + 22 * Copies(syms)
  {
    if |syms| > 0 {
      var n := |syms| - 1;
      FixedBound(syms[..n]);
      FixedSymbol(syms[n]);
    }
  }

  // -------- the run-length code of the lengths -----------------------------------------

  /** How often each symbol of the code-length alphabet occurs. */
  function RleCounts(rle: seq<nat>): (f: seq<nat>)
    ensures |f| == 19
  {
    if |rle| == 0 then seq(19, _ => 0) else Bump(RleCounts(rle[..|rle| - 1]), RunLength.Sym(rle[|rle| - 1]))
  }

  lemma RleCountsNext(rle: seq<nat>, x: nat)
    ensures RleCounts(rle + [x]) == Bump(RleCounts(rle), RunLength.Sym(x))
  {
    assert (rle + [x])[..|rle|] == rle;
  }

  ghost predicate RleOk(rle: seq<nat>) {
    forall k :: 0 <= k < |rle| ==> RunLength.RunSymbolOk(rle[k])
  }

  lemma {:induction false} RleCountsSum(rle: seq<nat>)
    requires RleOk(rle)
    ensures Huffman.Sum(RleCounts(rle)) == |rle|
  {
    if |rle| == 0 {
      SumZero(19);
    } else {
      RleCountsSum(rle[..|rle| - 1]);
      SumBump(RleCounts(rle[..|rle| - 1]), RunLength.Sym(rle[|rle| - 1]));
    }
  }

  lemma {:induction false} RleCounted(rle: seq<nat>, k: nat)
    requires RleOk(rle) && k < |rle|
    ensures RleCounts(rle)[RunLength.Sym(rle[k])] > 0
    decreases |rle|
  {
    if k < |rle| - 1 { RleCounted(rle[..|rle| - 1], k); }
  }

  /** The header's share of the cost test is exact too. */
  lemma {:induction false} RleBitsCounted(cl: seq<nat>, rle: seq<nat>)
    requires |cl| == 19 && RleOk(rle)
    ensures var f := RleCounts(rle);
            |RleBits(cl, rle)| == Dot(f, cl) + 2 * f[16] + 3 * f[17] + 7 * f[18]
  {
    if |rle| == 0 {
      DotZero(19, cl);
    } else {
      var n := |rle| - 1;
      RleBitsCounted(cl, rle[..n]);
      DotBump(RleCounts(rle[..n]), cl, RunLength.Sym(rle[n]));
    }
  }
}
