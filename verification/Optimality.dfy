/**
 Why merging the two lightest nodes is best: among all lengths whose code fits, whatever their
 longest, none has a smaller weighted sum than what merging leads to.  Symbols of weight 0 are
 not used and have no part in a code.
 */
module Optimality {
  import opened Bits
  import opened Canonical

  /** The share of the code space, in units of 2^-m, of one symbol. */
  function Part(w: nat, d: nat, m: nat): nat {
    if w > 0 && d <= m then Pow2(m - d) else 0
  }

  function Space(ws: seq<nat>, ds: seq<nat>, m: nat): nat
    requires |ws| == |ds|
  {
    if ws == [] then 0 else
      var n := |ws| - 1;
      Space(ws[..n], ds[..n], m) + Part(ws[n], ds[n], m)
  }

  /** Lengths up to m for the used symbols, which do not overdraw the code space. */
  ghost predicate Fits(ws: seq<nat>, ds: seq<nat>, m: nat) {
    && |ws| == |ds| && (forall k :: 0 <= k < |ws| && ws[k] > 0 ==> ds[k] <= m)
    && Space(ws, ds, m) <= Pow2(m)
  }

  /** The weights that are not 0. */
  ghost function Used(ws: seq<nat>): multiset<nat> {
    multiset(ws)[0 := 0]
  }

  // -------- one entry changed ----------------------------------------------------------

  lemma {:induction false} SpaceUpdate(ws: seq<nat>, ds: seq<nat>, m: nat, k: nat, w: nat, d: nat)
    requires k < |ws| == |ds|
    ensures Space(ws[k := w], ds[k := d], m) + Part(ws[k], ds[k], m) == Space(ws, ds, m) + Part(w, d, m)
  {
    hide Part;
    var n := |ws| - 1;
    if k < n {
      assert ws[k := w][..n] == ws[..n][k := w] && ds[k := d][..n] == ds[..n][k := d];
      SpaceUpdate(ws[..n], ds[..n], m, k, w, d);
    } else {
      assert ws[k := w][..n] == ws[..n] && ds[k := d][..n] == ds[..n];
    }
  }

  lemma {:induction false} DotUpdate(ws: seq<nat>, ds: seq<nat>, k: nat, w: nat, d: nat)
    requires k < |ws| == |ds|
    ensures Dot(ws[k := w], ds[k := d]) + ws[k] * ds[k] == Dot(ws, ds) + w * d
  {
    var n := |ws| - 1;
    DotLast(ws, ds);
    DotLast(ws[k := w], ds[k := d]);
    if k < n {
      assert ws[k := w][..n] == ws[..n][k := w] && ds[k := d][..n] == ds[..n][k := d];
      DotUpdate(ws[..n], ds[..n], k, w, d);
    } else {
      assert ws[k := w][..n] == ws[..n] && ds[k := d][..n] == ds[..n];
    }
  }

  lemma {:induction false} DotSet(f: seq<nat>, t: seq<nat>, k: nat, d: nat)
    requires k < |t| <= |f|
    ensures Dot(f, t[k := d]) + f[k] * t[k] == Dot(f, t) + f[k] * d
  {
    var n := |t| - 1;
    if k < n {
      assert t[k := d][..n] == t[..n][k := d];
      DotSet(f, t[..n], k, d);
    } else {
      assert t[k := d][..n] == t[..n];
    }
  }

  lemma DotLast(ws: seq<nat>, ds: seq<nat>)
    requires |ws| == |ds| > 0
    ensures var n := |ws| - 1; Dot(ws, ds) == Dot(ws[..n], ds[..n]) + ws[n] * ds[n]
  {
    var n := |ws| - 1;
    DotBelow(ws, ws[..n], ds[..n]);
  }

  /** Only the weights below the number of lengths count. */
  lemma {:induction false} DotBelow(ws: seq<nat>, vs: seq<nat>, ds: seq<nat>)
    requires |ds| <= |ws| && |ds| <= |vs| && forall k :: 0 <= k < |ds| ==> ws[k] == vs[k]
    ensures Dot(ws, ds) == Dot(vs, ds)
  {
    if ds != [] { DotBelow(ws, vs, ds[..|ds| - 1]); }
  }

  /** With nothing at the greatest length, half the resolution is enough. */
  lemma {:induction false} SpaceEven(ws: seq<nat>, ds: seq<nat>, m: nat)
    requires |ws| == |ds| && m > 0 && forall k :: 0 <= k < |ws| && ws[k] > 0 ==> ds[k] < m
    ensures Space(ws, ds, m) == 2 * Space(ws, ds, m - 1)
  {
    if ws != [] {
      var n := |ws| - 1;
      SpaceEven(ws[..n], ds[..n], m);
      PartEven(ws[n], ds[n], m);
    }
  }

  lemma PartEven(w: nat, d: nat, m: nat)
    requires m > 0 && (w > 0 ==> d < m)
    ensures Part(w, d, m) == 2 * Part(w, d, m - 1)
  {
    if w > 0 { Doubled(m - d); }
  }

  lemma Doubled(k: nat)
    requires k > 0
    ensures Pow2(k) == 2 * Pow2(k - 1)
  {
  }

  lemma Lowered(ws: seq<nat>, ds: seq<nat>, m: nat)
    requires Fits(ws, ds, m) && m > 0 && forall k :: 0 <= k < |ws| && ws[k] > 0 ==> ds[k] < m
    ensures Fits(ws, ds, m - 1)
  {
    hide Space, Pow2;
    SpaceEven(ws, ds, m);
    Doubled(m);
  }

  // -------- two symbols of the greatest length -----------------------------------------

  ghost predicate At(ws: seq<nat>, ds: seq<nat>, m: nat, x: nat)
    requires |ws| == |ds|
  {
    x < |ws| && ws[x] > 0 && ds[x] == m
  }

  /** One symbol alone at the greatest length wastes space: it can be one shorter. */
  lemma Shortened(ws: seq<nat>, ds: seq<nat>, m: nat, x: nat)
    requires Fits(ws, ds, m) && m > 0 && At(ws, ds, m, x) && forall y :: At(ws, ds, m, y) ==> y == x
    ensures Fits(ws, ds[x := m - 1], m - 1) && Dot(ws, ds[x := m - 1]) <= Dot(ws, ds)
  {
    hide Space, Dot, Pow2;
    var ds2 := ds[x := m - 1];
    ShortenedSpace(ws, ds, m, x);
    assert ws[x := ws[x]] == ws;
    DotUpdate(ws, ds, x, ws[x], m - 1);
    Times(ws[x], m - 1, m);
    forall k | 0 <= k < |ws| && ws[k] > 0 ensures ds2[k] < m { assert !At(ws, ds, m, k) || k == x; }
    Lowered(ws, ds2, m);
  }

  lemma ShortenedSpace(ws: seq<nat>, ds: seq<nat>, m: nat, x: nat)
    requires Fits(ws, ds, m) && m > 0 && At(ws, ds, m, x) && forall y :: At(ws, ds, m, y) ==> y == x
    ensures Space(ws, ds[x := m - 1], m) <= Pow2(m)
  {
    hide Space, Part, Pow2;
    var vs, ds2 := ws[x := 0], ds[x := m - 1];
    forall k | 0 <= k < |vs| && vs[k] > 0 ensures ds2[k] < m { assert !At(ws, ds, m, k) || k == x; }
    SpaceEven(vs, ds2, m);
    assert ws[x := ws[x]] == ws;
    SpaceUpdate(ws, ds, m, x, ws[x], m - 1);
    SpaceUpdate(ws, ds, m, x, 0, m - 1);
    LastParts(ws[x], m);
    Doubled(m);
  }

  lemma LastParts(w: nat, m: nat)
    requires m > 0 && w > 0
    ensures Part(w, m, m) == 1 && Part(w, m - 1, m) == 2 && Part(0, m - 1, m) == 0
  {
    assert Pow2(0) == 1 && Pow2(1) == 2;
  }

  lemma Times(w: nat, d: nat, e: nat)
    requires d <= e
    ensures w * d <= w * e
  {
  }

  /** The lighter of two symbols may as well have the longer code. */
  lemma Swapped(ws: seq<nat>, ds: seq<nat>, m: nat, p: nat, x: nat)
    requires Fits(ws, ds, m) && p < |ws| && x < |ws| && 0 < ws[p] <= ws[x] && ds[p] <= ds[x]
    ensures Fits(ws, ds[p := ds[x]][x := ds[p]], m) && Dot(ws, ds[p := ds[x]][x := ds[p]]) <= Dot(ws, ds)
  {
    hide Space, Dot, Pow2;
    var d1 := ds[p := ds[x]];
    assert ws[p := ws[p]] == ws && ws[x := ws[x]] == ws;
    if p == x {
      assert d1[x := ds[p]] == ds;
    } else {
      SpaceUpdate(ws, ds, m, p, ws[p], ds[x]);
      SpaceUpdate(ws, d1, m, x, ws[x], ds[p]);
      DotUpdate(ws, ds, p, ws[p], ds[x]);
      DotUpdate(ws, d1, x, ws[x], ds[p]);
      Crossed(ws[p], ws[x], ds[p], ds[x]);
    }
  }

  lemma Crossed(a: nat, b: nat, d: nat, e: nat)
    requires a <= b && d <= e
    ensures a * e + b * d <= a * d + b * e
  {
    assert (b - a) * (e - d) >= 0;
  }

  /** The two lightest used symbols, at p and q. */
  ghost predicate Lightest(ws: seq<nat>, p: nat, q: nat) {
    && p < |ws| && q < |ws| && p != q && 0 < ws[p] <= ws[q]
    && forall k :: 0 <= k < |ws| && k != p && k != q && ws[k] > 0 ==> ws[q] <= ws[k]
  }

  /** With two symbols at the greatest length, the two lightest may as well be there. */
  lemma BothDeep(ws: seq<nat>, ds: seq<nat>, m: nat, p: nat, q: nat, x: nat, y: nat) returns (ds2: seq<nat>)
    requires Fits(ws, ds, m) && Lightest(ws, p, q) && At(ws, ds, m, x) && At(ws, ds, m, y) && x != y
    ensures Fits(ws, ds2, m) && Dot(ws, ds2) <= Dot(ws, ds) && At(ws, ds2, m, p) && At(ws, ds2, m, q)
  {
    hide Space, Dot, Pow2;
    var x1 := if p == x || p == y then p else if q == x then y else x;
    var z := if x1 == x then y else x;
    Swapped(ws, ds, m, p, x1);
    var ds1 := ds[p := ds[x1]][x1 := ds[p]];
    Swapped(ws, ds1, m, q, z);
    ds2 := ds1[q := ds1[z]][z := ds1[q]];
  }

  /** Two of the greatest length joined: one of their weight together, one shorter. */
  lemma Joined(ws: seq<nat>, ds: seq<nat>, m: nat, p: nat, q: nat)
    requires Fits(ws, ds, m) && m > 0 && p != q && At(ws, ds, m, p) && At(ws, ds, m, q)
    ensures var vs, es := ws[p := ws[p] + ws[q]][q := 0], ds[p := m - 1];
            Fits(vs, es, m) && Dot(vs, es) + (ws[p] + ws[q]) == Dot(ws, ds)
  {
    hide Space, Dot;
    var ab := ws[p] + ws[q];
    var w1, es := ws[p := ab], ds[p := m - 1];
    assert es[q := m] == es;
    SpaceUpdate(ws, ds, m, p, ab, m - 1);
    SpaceUpdate(w1, es, m, q, 0, m);
    assert Pow2(0) == 1 && Pow2(1) == 2;
    DotUpdate(ws, ds, p, ab, m - 1);
    DotUpdate(w1, es, q, 0, m);
    JoinedProduct(ws[p], ws[q], m);
  }

  lemma JoinedProduct(a: nat, b: nat, m: nat)
    requires m > 0
    ensures a * m + b * m == (a + b) * (m - 1) + (a + b)
  {
  }

  /** Two used symbols cannot both have the empty code. */
  lemma RoomForTwo(ws: seq<nat>, ds: seq<nat>, m: nat, p: nat, q: nat)
    requires Fits(ws, ds, m) && p < |ws| && q < |ws| && p != q && ws[p] > 0 && ws[q] > 0
    ensures m > 0
  {
    hide Space, Part, Pow2;
    assert ds[p := ds[p]] == ds && ds[q := ds[q]] == ds;
    SpaceUpdate(ws, ds, m, p, 0, ds[p]);
    SpaceUpdate(ws[p := 0], ds, m, q, 0, ds[q]);
    SomePart(ws[p], ds[p], m);
    SomePart(ws[q], ds[q], m);
    assert Pow2(m) >= 2;
    OneAtZero();
  }

  lemma SomePart(w: nat, d: nat, m: nat)
    requires d <= m && w > 0
    ensures Part(w, d, m) >= 1 && Part(0, d, m) == 0
  {
    Pow2Mono(0, m - d);
  }

  lemma OneAtZero()
    ensures Pow2(0) == 1
  {
  }

  /** From any lengths that fit to lengths for the symbols with the two lightest joined, which
      save at least their weight. */
  lemma {:induction false} Reduced(ws: seq<nat>, ds: seq<nat>, m: nat, p: nat, q: nat) returns (es: seq<nat>, n: nat)
    requires Fits(ws, ds, m) && Lightest(ws, p, q)
    ensures var vs := ws[p := ws[p] + ws[q]][q := 0];
            Fits(vs, es, n) && Dot(vs, es) + (ws[p] + ws[q]) <= Dot(ws, ds)
    decreases m
  {
    hide Space, Dot, Pow2;
    RoomForTwo(ws, ds, m, p, q);
    if x: nat :| At(ws, ds, m, x) {
      if y: nat :| At(ws, ds, m, y) && y != x {
        var ds2 := BothDeep(ws, ds, m, p, q, x, y);
        Joined(ws, ds2, m, p, q);
        es, n := ds2[p := m - 1], m;
      } else {
        Shortened(ws, ds, m, x);
        es, n := Reduced(ws, ds[x := m - 1], m - 1, p, q);
      }
    } else {
      forall k | 0 <= k < |ws| && ws[k] > 0 ensures ds[k] < m { assert !At(ws, ds, m, k); }
      Lowered(ws, ds, m);
      es, n := Reduced(ws, ds, m - 1, p, q);
    }
  }

  // -------- bounds ---------------------------------------------------------------------

  /** No lengths that fit these weights have a weighted sum below v. */
  ghost predicate AtLeast(bag: multiset<nat>, v: nat) {
    forall ws: seq<nat>, ds: seq<nat>, m: nat :: Fits(ws, ds, m) && Used(ws) == bag ==> v <= Dot(ws, ds)
  }

  /** What bounds the codes for `bag` bounds, with `spent` added, those for `all`. */
  ghost predicate Leads(all: multiset<nat>, bag: multiset<nat>, spent: nat) {
    forall v: nat :: AtLeast(bag, v) ==> AtLeast(all, v + spent)
  }

  lemma LeadsNowhere(all: multiset<nat>)
    ensures Leads(all, all, 0)
  {
  }

  /** Two weights with none of the others below the second. */
  ghost predicate LightestOf(bag: multiset<nat>, a: nat, b: nat) {
    0 < a <= b && multiset{a, b} <= bag && forall w :: w in bag - multiset{a, b} ==> b <= w
  }

  lemma FindLightest(ws: seq<nat>, a: nat, b: nat) returns (p: nat, q: nat)
    requires LightestOf(Used(ws), a, b)
    ensures Lightest(ws, p, q) && ws[p] == a && ws[q] == b
  {
    assert a in multiset(ws);
    p :| 0 <= p < |ws| && ws[p] == a;
    var vs := ws[p := 0];
    assert multiset(vs)[b] > 0;
    q :| 0 <= q < |vs| && vs[q] == b;
    assert ws[q] == b;
    var us := vs[q := 0];
    forall k | 0 <= k < |ws| && k != p && k != q && ws[k] > 0 ensures b <= ws[k] {
      assert us[k] == ws[k] && us[k] in multiset(us);
      assert ws[k] in Used(ws) - multiset{a, b};
    }
  }

  lemma UsedJoined(ws: seq<nat>, p: nat, q: nat)
    requires p < |ws| && q < |ws| && p != q && ws[p] > 0 && ws[q] > 0
    ensures Used(ws[p := ws[p] + ws[q]][q := 0]) == Used(ws) - multiset{ws[p], ws[q]} + multiset{ws[p] + ws[q]}
  {
    hide *;
    var ab := ws[p] + ws[q];
    var w1 := ws[p := ab];
    Replaced(ws, p, ab);
    Replaced(w1, q, 0);
    var w2 := w1[q := 0];
    var x: multiset<nat>, y: multiset<nat>, z: multiset<nat> := multiset(ws), multiset(w1), multiset(w2);
    UsedIs(ws, x);
    UsedIs(w2, z);
    BagJoined(x, y, z, ws[p], ws[q], ab);
  }

  lemma Replaced(ws: seq<nat>, k: nat, w: nat)
    requires k < |ws|
    ensures ws[k] in multiset(ws) && multiset(ws[k := w]) == multiset(ws) - multiset{ws[k]} + multiset{w}
  {
  }

  lemma BagJoined(x: multiset<nat>, y: multiset<nat>, z: multiset<nat>, a: nat, b: nat, ab: nat)
    requires a > 0 && b > 0 && ab == a + b && a in x && b in y && y == x - multiset{a} + multiset{ab} && z == y - multiset{b} + multiset{0}
    ensures z[0 := 0] == x[0 := 0] - multiset{a, b} + multiset{ab}
  {
    assert multiset{a, b} == multiset{a} + multiset{b};
  }

  lemma UsedIs(ws: seq<nat>, bag: multiset<nat>)
    requires bag == multiset(ws)
    ensures Used(ws) == bag[0 := 0]
  {
  }

  lemma UsedMore(ws: seq<nat>)
    requires ws != []
    ensures var n := |ws| - 1; Used(ws) == Used(ws[..n]) + if ws[n] > 0 then multiset{ws[n]} else multiset{}
  {
    hide Used;
    var n := |ws| - 1;
    assert ws == ws[..n] + [ws[n]];
    var x: multiset<nat>, y: multiset<nat> := multiset(ws), multiset(ws[..n]);
    UsedIs(ws, x);
    UsedIs(ws[..n], y);
    BagMore(x, y, ws[n]);
  }

  lemma BagMore(x: multiset<nat>, y: multiset<nat>, w: nat)
    requires x == y + multiset{w}
    ensures x[0 := 0] == y[0 := 0] + if w > 0 then multiset{w} else multiset{}
  {
  }

  lemma NoneUsed()
    ensures Used([]) == multiset{}
  {
  }

  /** Joining the two lightest costs their weight, and no code can save more. */
  lemma JoinBounds(bag: multiset<nat>, a: nat, b: nat, v: nat)
    requires LightestOf(bag, a, b) && AtLeast(bag - multiset{a, b} + multiset{a + b}, v)
    ensures AtLeast(bag, v + (a + b))
  {
    hide Fits, Dot, LightestOf;
    forall ws: seq<nat>, ds: seq<nat>, m: nat | Fits(ws, ds, m) && Used(ws) == bag ensures v + (a + b) <= Dot(ws, ds) {
      OneBound(ws, ds, m, a, b, v);
    }
  }

  lemma OneBound(ws: seq<nat>, ds: seq<nat>, m: nat, a: nat, b: nat, v: nat)
    requires Fits(ws, ds, m) && LightestOf(Used(ws), a, b) && AtLeast(Used(ws) - multiset{a, b} + multiset{a + b}, v)
    ensures v + (a + b) <= Dot(ws, ds)
  {
    hide Fits, Dot, LightestOf, Used;
    var p, q := FindLightest(ws, a, b);
    UsedJoined(ws, p, q);
    var es, n := Reduced(ws, ds, m, p, q);
  }

  lemma LeadsOn(all: multiset<nat>, bag: multiset<nat>, spent: nat, a: nat, b: nat)
    requires Leads(all, bag, spent) && LightestOf(bag, a, b)
    ensures Leads(all, bag - multiset{a, b} + multiset{a + b}, spent + (a + b))
  {
    hide AtLeast, LightestOf;
    var joined := bag - multiset{a, b} + multiset{a + b};
    forall v: nat | AtLeast(joined, v) ensures AtLeast(all, v + (spent + (a + b))) {
      JoinBounds(bag, a, b, v);
      assert v + (a + b) + spent == v + (spent + (a + b));
    }
  }

  /** So what has been spent when one node is left bounds every code. */
  lemma Bounded(all: multiset<nat>, bag: multiset<nat>, spent: nat)
    requires Leads(all, bag, spent)
    ensures AtLeast(all, spent)
  {
    assert AtLeast(bag, 0);
    hide AtLeast;
    assert 0 + spent == spent;
  }
}
