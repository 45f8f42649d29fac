/**
 Run-length coding of code lengths (section 3.2.7 of RFC 1951).  A coded symbol is a number:
 the symbol 0 to 18 in its low 5 bits, the repeat field in the next 7, the width of that field
 above them.
 */
module RunLength {
  import opened Bits

  function Sym(x: nat): nat { x % 32 }

  function Field(x: nat): nat { x / 32 % 128 }

  function Width(x: nat): nat { x / 4096 }

  /** A symbol of the format whose repeat field fits its width. */
  predicate RunSymbolOk(x: nat) {
    && Sym(x) <= 18
    && Width(x) == (if Sym(x) == 16 then 2 else if Sym(x) == 17 then 3 else if Sym(x) == 18 then 7 else 0)
    && Field(x) < Pow2(Width(x))
  }

  function Rep(v: nat, n: nat): (r: seq<nat>)
    ensures |r| == n
  {
    seq(n, _ => v)
  }

  /** The lengths a symbol stands for, given those before it. */
  function Run(before: seq<nat>, x: nat): seq<nat> {
    if Sym(x) == 16 then Rep(if |before| > 0 then before[|before| - 1] else 0, 3 + Field(x))
    else if Sym(x) == 17 then Rep(0, 3 + Field(x))
    else if Sym(x) == 18 then Rep(0, 11 + Field(x))
    else [Sym(x)]
  }

  /** The lengths after a list of symbols has been carried out on those before it. */
  function Expand(before: seq<nat>, xs: seq<nat>): seq<nat> {
    if |xs| == 0 then before else
      var b := Expand(before, xs[..|xs| - 1]);
      b + Run(b, xs[|xs| - 1])
  }

  lemma ExpandNext(before: seq<nat>, xs: seq<nat>, x: nat)
    ensures Expand(before, xs + [x]) == Expand(before, xs) + Run(Expand(before, xs), x)
  {
    assert (xs + [x])[..|xs|] == xs;
  }

  lemma {:induction false} ExpandJoin(before: seq<nat>, xs: seq<nat>, ys: seq<nat>)
    ensures Expand(before, xs + ys) == Expand(Expand(before, xs), ys)
  {
    if |ys| == 0 {
      assert xs + ys == xs;
    } else {
      assert (xs + ys)[..|xs + ys| - 1] == xs + ys[..|ys| - 1];
      ExpandJoin(before, xs, ys[..|ys| - 1]);
    }
  }

  lemma RunSome(before: seq<nat>, x: nat)
    ensures |Run(before, x)| >= 1
  {
  }

  /** Every symbol stands for at least one length. */
  lemma {:induction false} ExpandGrows(before: seq<nat>, xs: seq<nat>, i: nat)
    requires i <= |xs|
    ensures |Expand(before, xs[..i])| + (|xs| - i) <= |Expand(before, xs)|
    ensures Expand(before, xs[..i]) <= Expand(before, xs)
    decreases |xs| - i
  {
    hide Expand, Run;
    if i < |xs| {
      ExpandGrows(before, xs, i + 1);
      assert xs[..i + 1] == xs[..i] + [xs[i]];
      RunSome(Expand(before, xs[..i]), xs[i]);
      ExpandNext(before, xs[..i], xs[i]);
    } else {
      assert xs[..i] == xs;
    }
  }

  /** The list without its trailing zeros, but never empty. */
  function Trimmed(e: seq<nat>): seq<nat> {
    if |e| == 0 then [0]
    else if |e| == 1 || e[|e| - 1] != 0 then e
    else Trimmed(e[..|e| - 1])
  }

  lemma {:induction false} TrimmedPrefix(e: seq<nat>)
    requires |e| > 0
    ensures 0 < |Trimmed(e)| <= |e| && Trimmed(e) == e[..|Trimmed(e)|]
    ensures forall k :: |Trimmed(e)| <= k < |e| ==> e[k] == 0
  {
    if |e| > 1 && e[|e| - 1] == 0 {
      TrimmedPrefix(e[..|e| - 1]);
    }
  }

  /** How many symbols a run of o times the length a takes: zeros go by 138 at a time, other lengths
      by 6 after the first one, and a rest of more than two is one symbol; short runs are sent as
      they are. */
  function Symbols(a: nat, o: nat): nat {
    if a == 0 && o > 2 then Repeats(o, 138) else if o > 3 then 1 + Repeats(o - 1, 6) else o
  }

  function Repeats(o: nat, most: nat): nat
    requires most > 0
  {
    o / most + if o % most > 2 then 1 else o % most
  }

  /** How long the last run of a list is. */
  function LastRun(t: seq<nat>): (n: nat)
    requires |t| > 0
    ensures 0 < n <= |t| && forall k :: |t| - n <= k < |t| ==> t[k] == t[|t| - 1]
    ensures n < |t| ==> t[|t| - n - 1] != t[|t| - 1]
  {
    if |t| == 1 || t[|t| - 2] != t[|t| - 1] then 1 else LastRun(t[..|t| - 1]) + 1
  }

  /** The symbols of all runs of a list. */
  function AllSymbols(t: seq<nat>): nat {
    if t == [] then 0 else AllSymbols(t[..|t| - LastRun(t)]) + Symbols(t[|t| - 1], LastRun(t))
  }

  lemma {:induction false} RunFound(t: seq<nat>, done: seq<nat>, a: nat, o: nat)
    requires o > 0 && t == done + Rep(a, o) && (|done| > 0 ==> done[|done| - 1] != a)
    ensures LastRun(t) == o
  {
    if o > 1 {
      assert t[..|t| - 1] == done + Rep(a, o - 1);
      RunFound(t[..|t| - 1], done, a, o - 1);
    }
  }

  /** A list with one more run. */
  lemma RunAdded(t: seq<nat>, done: seq<nat>, a: nat, o: nat)
    requires o > 0 && t == done + Rep(a, o) && (|done| > 0 ==> done[|done| - 1] != a)
    ensures AllSymbols(t) == AllSymbols(done) + Symbols(a, o)
  {
    hide Symbols, LastRun;
    RunFound(t, done, a, o);
    assert t[..|done|] == done;
  }

  lemma OneRepeat(o: nat, most: nat)
    requires most == 6 || most == 138
    ensures o > most ==> Repeats(o, most) == 1 + Repeats(o - most, most)
    ensures 2 < o <= most ==> Repeats(o, most) == 1
    ensures o <= 2 ==> Repeats(o, most) == o
  {
    if most == 6 {
      assert o > 6 ==> o / 6 == 1 + (o - 6) / 6 && o % 6 == (o - 6) % 6;
    } else {
      assert o > 138 ==> o / 138 == 1 + (o - 138) / 138 && o % 138 == (o - 138) % 138;
    }
  }

  /** What a symbol buffer holds so far: valid symbols that expand to `lens` after `before`. */
  ghost predicate Sofar(xs: seq<nat>, before: seq<nat>, lens: seq<nat>) {
    && (forall k :: 0 <= k < |xs| ==> RunSymbolOk(xs[k]))
    && Expand(before, xs) == before + lens
    && |xs| <= |lens|
  }

  /** Store one symbol. */
  method Push(r: array<nat>, i: nat, x: nat, ghost before: seq<nat>, ghost lens: seq<nat>) returns (j: nat)
    requires i < r.Length && RunSymbolOk(x) && Sofar(r[..i], before, lens)
    modifies r
    ensures j == i + 1
    ensures |Run(before + lens, x)| > 0 && Sofar(r[..j], before, lens + Run(before + lens, x))
  {
    ghost var xs := r[..i];
    r[i] := x;
    j := i + 1;
    ExpandNext(before, xs, x);
    assert r[..j] == xs + [x];
    assert before + (lens + Run(before + lens, x)) == (before + lens) + Run(before + lens, x);
  }

  lemma RepMore(lens: seq<nat>, a: nat, n: nat, k: nat)
    ensures lens + Rep(a, n) + Rep(a, k) == lens + Rep(a, n + k)
  {
  }

  /** The symbols the coder uses are valid, and stand for the run they are used for. */
  lemma ZeroRuns(n: nat, before: seq<nat>)
    ensures RunSymbolOk(32754) && Run(before, 32754) == Rep(0, 138)
    ensures 3 <= n <= 10 ==> RunSymbolOk((n - 3) * 32 + 12305) && Run(before, (n - 3) * 32 + 12305) == Rep(0, n)
    ensures 11 <= n <= 138 ==> RunSymbolOk((n - 11) * 32 + 28690) && Run(before, (n - 11) * 32 + 28690) == Rep(0, n)
  {
    assert Pow2(3) == 8 && Pow2(7) == 128;
  }

  lemma CopyRuns(n: nat, before: seq<nat>, lens: seq<nat>, a: nat, k: nat)
    requires 3 <= n <= 6 && k > 0
    ensures RunSymbolOk((n - 3) * 32 + 8208)
    ensures Run(before + (lens + Rep(a, k)), (n - 3) * 32 + 8208) == Rep(a, n)
  {
    assert Pow2(2) == 4;
    assert (before + (lens + Rep(a, k)))[|before + (lens + Rep(a, k))| - 1] == a;
  }

  lemma PlainRun(a: nat, before: seq<nat>)
    requires a <= 15
    ensures RunSymbolOk(a) && Run(before, a) == Rep(a, 1)
  {
    assert Pow2(0) == 1;
  }

  /** Code a run of o0 zeros, more than two of them. */
  method EmitZeros(r: array<nat>, i0: nat, o0: nat, ghost before: seq<nat>, ghost lens: seq<nat>) returns (i: nat, o: nat)
    requires o0 > 2 && i0 + o0 <= r.Length && i0 <= |lens| && Sofar(r[..i0], before, lens)
    modifies r
    ensures o <= o0 && i + o <= i0 + o0 && Sofar(r[..i], before, lens + Rep(0, o0 - o))
    ensures i + o == i0 + Repeats(o0, 138)
  {
    hide RunSymbolOk, Run, Sofar, Repeats;
    i, o := i0, o0;
    assert lens + Rep(0, 0) == lens;
    while o > 138
      invariant 0 < o <= o0 && i0 <= i && i + o <= i0 + o0 && Sofar(r[..i], before, lens + Rep(0, o0 - o))
      invariant i + Repeats(o, 138) == i0 + Repeats(o0, 138)
    {
      OneRepeat(o, 138);
      ZeroRuns(0, before + (lens + Rep(0, o0 - o)));
      RepMore(lens, 0, o0 - o, 138);
      i := Push(r, i, 32754, before, lens + Rep(0, o0 - o));
      o := o - 138;
    }
    OneRepeat(o, 138);
    if o > 2 {
      ZeroRuns(o, before + (lens + Rep(0, o0 - o)));
      RepMore(lens, 0, o0 - o, o);
      i := Push(r, i, if o > 10 then (o - 11) * 32 + 28690 else (o - 3) * 32 + 12305, before, lens + Rep(0, o0 - o));
      o := 0;
    }
  }

  /** Store a symbol that repeats the last length n times. */
  method PushCopy(r: array<nat>, i: nat, n: nat, ghost a: nat, ghost k: nat, ghost before: seq<nat>, ghost lens: seq<nat>)
    returns (j: nat)
    requires 3 <= n <= 6 && k > 0 && i < r.Length && Sofar(r[..i], before, lens + Rep(a, k))
    modifies r
    ensures j == i + 1 && Sofar(r[..j], before, lens + Rep(a, k + n))
  {
    CopyRuns(n, before, lens, a, k);
    RepMore(lens, a, k, n);
    j := Push(r, i, (n - 3) * 32 + 8208, before, lens + Rep(a, k));
  }

  /** Code a run of o0 times the length a, more than three of them. */
  method EmitCopies(r: array<nat>, i0: nat, a: nat, o0: nat, ghost before: seq<nat>, ghost lens: seq<nat>) returns (i: nat, o: nat)
    requires o0 > 3 && a <= 15 && i0 + o0 <= r.Length && Sofar(r[..i0], before, lens)
    modifies r
    ensures o <= o0 && i + o <= i0 + o0 && Sofar(r[..i], before, lens + Rep(a, o0 - o))
    ensures i + o == i0 + 1 + Repeats(o0 - 1, 6)
  {
    hide *;
    PlainRun(a, before + lens);
    i := Push(r, i0, a, before, lens);
    o := o0 - 1;
    while o > 6
      invariant 0 < o < o0 && i + o <= i0 + o0 && Sofar(r[..i], before, lens + Rep(a, o0 - o))
      invariant i + Repeats(o, 6) == i0 + 1 + Repeats(o0 - 1, 6)
    {
      OneRepeat(o, 6);
      i := PushCopy(r, i, 6, a, o0 - o, before, lens);
      o := o - 6;
    }
    OneRepeat(o, 6);
    if o > 2 {
      i := PushCopy(r, i, o, a, o0 - o, before, lens);
      o := 0;
    }
  }

  /** Store a length as it is. */
  method PushPlain(r: array<nat>, i: nat, a: nat, ghost k: nat, ghost before: seq<nat>, ghost lens: seq<nat>)
    returns (j: nat)
    requires a <= 15 && i < r.Length && Sofar(r[..i], before, lens + Rep(a, k))
    modifies r
    ensures j == i + 1 && Sofar(r[..j], before, lens + Rep(a, k + 1))
  {
    PlainRun(a, before + (lens + Rep(a, k)));
    RepMore(lens, a, k, 1);
    j := Push(r, i, a, before, lens + Rep(a, k));
  }

  lemma SymbolsOf(a: nat, o: nat)
    ensures Symbols(a, o) == if a == 0 && o > 2 then Repeats(o, 138) else if o > 3 then 1 + Repeats(o - 1, 6) else o
  {
  }

  lemma NoneMore(lens: seq<nat>, a: nat)
    ensures lens + Rep(a, 0) == lens
  {
  }

  lemma SofarShort(xs: seq<nat>, before: seq<nat>, lens: seq<nat>)
    requires Sofar(xs, before, lens)
    ensures |xs| <= |lens|
  {
  }

  /** Code a run of o0 times the length a. */
  method EmitRun(r: array<nat>, i0: nat, a: nat, o0: nat, ghost before: seq<nat>, ghost lens: seq<nat>) returns (i: nat)
    requires a <= 15 && i0 + o0 <= r.Length && Sofar(r[..i0], before, lens)
    modifies r
    ensures i <= i0 + o0 && Sofar(r[..i], before, lens + Rep(a, o0)) && i == i0 + Symbols(a, o0)
  {
    hide *;
    SymbolsOf(a, o0);
    i := i0;
    var o: nat := o0;
    NoneMore(lens, a);
    SofarShort(r[..i0], before, lens);
    if a == 0 && o > 2 {
      i, o := EmitZeros(r, i, o, before, lens);
    } else if o > 3 {
      i, o := EmitCopies(r, i, a, o, before, lens);
    }
    while o > 0
      invariant o <= o0 && i + o <= i0 + o0 && Sofar(r[..i], before, lens + Rep(a, o0 - o)) && i + o == i0 + Symbols(a, o0)
    {
      i := PushPlain(r, i, a, o0 - o, before, lens);
      o := o - 1;
    }
  }

  /** How many lengths are left without the trailing zeros; at least one. */
  method TrimmedLength(e: seq<nat>) returns (n: nat)
    ensures n == |Trimmed(e)| && (|e| > 0 ==> n <= |e| && Trimmed(e) == e[..n])
  {
    n := |e|;
    assert e[..n] == e;
    while n > 1 && e[n - 1] == 0
      invariant n <= |e| && (|e| > 0 ==> n > 0) && Trimmed(e[..n]) == Trimmed(e)
    {
      assert e[..n][..n - 1] == e[..n - 1];
      n := n - 1;
    }
    if n == 0 { n := 1; }
  }

  /** The list t is coded up to `done`, and a run of o times a goes on from there to place l. */
  ghost predicate Midway(t: seq<nat>, l: nat, done: seq<nat>, a: nat, o: nat) {
    0 < o && l <= |t| && t[..l] == done + Rep(a, o) && (|done| > 0 ==> done[|done| - 1] != a)
  }

  lemma RunGoesOn(t: seq<nat>, l: nat, done: seq<nat>, a: nat, o: nat)
    requires Midway(t, l, done, a, o) && l < |t| && t[l] == a
    ensures Midway(t, l + 1, done, a, o + 1)
  {
    assert t[..l + 1] == t[..l] + [a] == done + Rep(a, o + 1);
  }

  lemma RunBegins(t: seq<nat>, l: nat, done: seq<nat>, a: nat, o: nat)
    requires Midway(t, l, done, a, o) && l < |t| && t[l] != a
    ensures Midway(t, l + 1, t[..l], t[l], 1)
  {
    assert t[..l + 1] == t[..l] + Rep(t[l], 1);
    assert t[l - 1] == t[..l][l - 1] == a;
  }

  lemma RunEnds(t: seq<nat>, l: nat, done: seq<nat>, a: nat, o: nat)
    requires Midway(t, l, done, a, o)
    ensures l == |done| + o && t[..l] == done + Rep(a, o) && AllSymbols(t[..l]) == AllSymbols(done) + Symbols(a, o)
    ensures l == |t| ==> t[..l] == t
  {
    hide Symbols, AllSymbols;
    RunAdded(t[..l], done, a, o);
  }

  lemma FirstRun(t: seq<nat>, before: seq<nat>)
    requires |t| > 0
    ensures Midway(t, 1, [], t[0], 1) && Sofar([], before, []) && AllSymbols([]) == 0
  {
    assert t[..1] == [] + Rep(t[0], 1);
    assert before + [] == before;
  }

  lemma TrimmedStart(e: seq<nat>)
    ensures |Trimmed(e)| > 0 && Trimmed(e)[0] == if |e| > 0 then e[0] else 0
    ensures |e| > 0 ==> |Trimmed(e)| <= |e| && forall k :: 0 <= k < |Trimmed(e)| ==> Trimmed(e)[k] == e[k]
    ensures |e| == 0 ==> |Trimmed(e)| == 1
  {
    if |e| > 0 { TrimmedPrefix(e); }
  }

  /** The run-length code of a list of lengths without its trailing zeros; n is how many lengths
      it stands for.  Carrying the symbols out after any lengths gives back the list, and every run
      of it takes no more symbols than its repeats need. */
  method RunLengths(e: seq<nat>, ghost before: seq<nat>) returns (c: seq<nat>, n: nat)
    requires forall k :: 0 <= k < |e| ==> e[k] <= 15
    ensures n == |Trimmed(e)| && Sofar(c, before, Trimmed(e)) && |c| == AllSymbols(Trimmed(e))
  {
    hide *;
    n := TrimmedLength(e);
    ghost var t := Trimmed(e);
    TrimmedStart(e);
    FirstRun(t, before);
    var r := new nat[n](_ => 0);
    var i: nat, a: nat, o: nat := 0, if |e| > 0 then e[0] else 0, 1;
    ghost var done: seq<nat> := [];
    assert r[..i] == [];
    var l: nat := 1;
    while l <= n
      invariant 1 <= l <= n + 1 && r.Length == n == |t| && a <= 15
      invariant i <= |done| && i <= n && Sofar(r[..i], before, done) && i == AllSymbols(done)
      invariant if l <= n then Midway(t, l, done, a, o) else done == t
    {
      if l != n && e[l] == a {
        RunGoesOn(t, l, done, a, o);
        o := o + 1;
      } else {
        RunEnds(t, l, done, a, o);
        i := EmitRun(r, i, a, o, before, done);
        if l < n {
          RunBegins(t, l, done, a, o);
          a := e[l];
        }
        done := t[..l];
        o := 1;
      }
      l := l + 1;
    }
    c := r[..i];
  }
}
