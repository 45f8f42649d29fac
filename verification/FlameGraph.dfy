/**
 From the profile format to the flame graph and back to levels: rows of cells with relative offsets
 become a tree, the tree a preorder table with a level column, and that table the levels that are
 drawn.  The drawn levels are the rows, with the same parents.
 */
module FlameGraph {

  // -------- shapes ---------------------------------------------------------------------

  /** The parent of every cell, row by row, as a place in the row above; the first row is the
      root alone. */
  type Shape = seq<seq<nat>>

  predicate Rising(s: seq<nat>) {
    forall i, j :: 0 <= i <= j < |s| ==> s[i] <= s[j]
  }

  ghost predicate RowOk(p: Shape, n: nat)
    requires 0 < n < |p|
  {
    Rising(p[n]) && forall i :: 0 <= i < |p[n]| ==> p[n][i] < |p[n - 1]|
  }

  ghost predicate ShapeOk(p: Shape) {
    |p| > 0 && |p[0]| == 1 && forall n :: 0 < n < |p| ==> RowOk(p, n)
  }

  function CountBelow(s: seq<nat>, i: nat): (r: nat)
    ensures r <= |s|
  {
    if s == [] then 0 else CountBelow(s[..|s| - 1], i) + if s[|s| - 1] < i then 1 else 0
  }

  /** In a rising row the cells with a parent before i come first. */
  lemma {:induction false} Boundary(s: seq<nat>, i: nat)
    requires Rising(s)
    ensures forall j :: 0 <= j < |s| ==> (s[j] < i <==> j < CountBelow(s, i))
  {
    if s != [] {
      var n := |s| - 1;
      Boundary(s[..n], i);
      var c := CountBelow(s[..n], i);
      if c < n { assert s[..n][c] == s[c] && s[c] <= s[n]; }
      forall j | 0 <= j < n ensures s[j] < i <==> j < c { assert s[..n][j] == s[j]; }
    }
  }

  lemma BoundaryAt(s: seq<nat>, i: nat, j: nat)
    requires Rising(s)
    ensures j < |s| ==> (s[j] < i <==> j < CountBelow(s, i))
  {
    Boundary(s, i);
  }

  /** Where the children of cell i of row n begin in the row below. */
  function First(p: Shape, n: nat, i: nat): (r: nat)
    ensures if n + 1 < |p| then r <= |p[n + 1]| else r == 0
  {
    if n + 1 < |p| then CountBelow(p[n + 1], i) else 0
  }

  lemma FirstMono(p: Shape, n: nat, i: nat, j: nat)
    requires ShapeOk(p) && i <= j
    ensures First(p, n, i) <= First(p, n, j)
  {
    if n + 1 < |p| {
      assert RowOk(p, n + 1);
      BoundaryAt(p[n + 1], i, First(p, n, j));
      BoundaryAt(p[n + 1], j, First(p, n, j));
    }
  }

  // -------- preorder -------------------------------------------------------------------

  /** The cells a..b of row n with everything below them, parents first. */
  function Preorder(p: Shape, n: nat, a: nat, b: nat): seq<(nat, nat)>
    decreases if n < |p| then |p| - n else 0, if a < b then b - a else 0
  {
    if n >= |p| || a >= b then []
    else [(n, a)] + Preorder(p, n + 1, First(p, n, a), First(p, n, a + 1)) + Preorder(p, n, a + 1, b)
  }

  /** The second components of the pairs of one level. */
  function OfLevel(l: seq<(nat, nat)>, m: nat): seq<nat> {
    if l == [] then [] else
      OfLevel(l[..|l| - 1], m) + if l[|l| - 1].0 == m then [l[|l| - 1].1] else []
  }

  lemma {:induction false} OfLevelJoin(a: seq<(nat, nat)>, b: seq<(nat, nat)>, m: nat)
    ensures OfLevel(a + b, m) == OfLevel(a, m) + OfLevel(b, m)
  {
    if b == [] {
      assert a + b == a;
    } else {
      var n := |b| - 1;
      OfLevelJoin(a, b[..n], m);
      assert (a + b)[..|a| + n] == a + b[..n];
    }
  }

  function Range(a: nat, b: nat): (r: seq<nat>)
    ensures |r| == if a <= b then b - a else 0
    ensures forall i :: 0 <= i < |r| ==> r[i] == a + i
  {
    if a < b then seq(b - a, i => a + i) else []
  }

  /** The first cell of row m below the cells from a on of row n. */
  function Down(p: Shape, n: nat, m: nat, a: nat): nat
    requires n <= m
    decreases m - n
  {
    if n == m then a else Down(p, n + 1, m, First(p, n, a))
  }

  lemma {:induction false} DownMono(p: Shape, n: nat, m: nat, a: nat, b: nat)
    requires ShapeOk(p) && n <= m && a <= b
    ensures Down(p, n, m, a) <= Down(p, n, m, b)
    decreases m - n
  {
    if n < m {
      FirstMono(p, n, a, b);
      DownMono(p, n + 1, m, First(p, n, a), First(p, n, b));
    }
  }

  lemma RangeJoin(a: nat, b: nat, c: nat)
    requires a <= b <= c
    ensures Range(a, b) + Range(b, c) == Range(a, c)
  {
  }

  /** Preorder visits the cells of every row from left to right, without a gap. */
  lemma {:induction false} PreorderRows(p: Shape, n: nat, a: nat, b: nat, m: nat)
    requires ShapeOk(p) && n < |p| && a <= b && n <= m < |p|
    ensures OfLevel(Preorder(p, n, a, b), m) == Range(Down(p, n, m, a), Down(p, n, m, b))
    decreases |p| - n, b - a
  {
    hide *;
    if a == b {
      NothingBetween(p, n, a, m);
    } else {
      var f, f2 := First(p, n, a), First(p, n, a + 1);
      Unrolled(p, n, a, b);
      HeadLevel(n, a, Preorder(p, n + 1, f, f2), Preorder(p, n, a + 1, b), m);
      PreorderRows(p, n, a + 1, b, m);
      if n == m {
        OwnLevel(p, n, a, b);
      } else {
        FirstMono(p, n, a, a + 1);
        PreorderRows(p, n + 1, f, f2, m);
        LowerLevel(p, n, a, b, m);
      }
    }
  }

  lemma NothingBetween(p: Shape, n: nat, a: nat, m: nat)
    requires n <= m
    ensures OfLevel(Preorder(p, n, a, a), m) == [] == Range(Down(p, n, m, a), Down(p, n, m, a))
  {
  }

  lemma Unrolled(p: Shape, n: nat, a: nat, b: nat)
    requires n < |p| && a < b
    ensures Preorder(p, n, a, b) == [(n, a)] + Preorder(p, n + 1, First(p, n, a), First(p, n, a + 1)) + Preorder(p, n, a + 1, b)
  {
  }

  lemma OwnLevel(p: Shape, n: nat, a: nat, b: nat)
    requires a < b
    ensures OfLevel(Preorder(p, n + 1, First(p, n, a), First(p, n, a + 1)), n) == []
    ensures [a] + [] + Range(Down(p, n, n, a + 1), Down(p, n, n, b)) == Range(Down(p, n, n, a), Down(p, n, n, b))
  {
    hide Preorder, OfLevel, First, Range;
    DeeperOnly(p, n + 1, First(p, n, a), First(p, n, a + 1), n);
    OneRange(a);
    RangeJoin(a, a + 1, b);
  }

  lemma LowerLevel(p: Shape, n: nat, a: nat, b: nat, m: nat)
    requires ShapeOk(p) && n < m && a < b
    ensures [] + Range(Down(p, n + 1, m, First(p, n, a)), Down(p, n + 1, m, First(p, n, a + 1)))
      + Range(Down(p, n, m, a + 1), Down(p, n, m, b)) == Range(Down(p, n, m, a), Down(p, n, m, b))
  {
    hide First, Range, ShapeOk;
    DownMono(p, n, m, a, a + 1);
    DownMono(p, n, m, a + 1, b);
    RangeJoin(Down(p, n, m, a), Down(p, n, m, a + 1), Down(p, n, m, b));
  }

  lemma HeadLevel(n: nat, a: nat, x: seq<(nat, nat)>, y: seq<(nat, nat)>, m: nat)
    ensures OfLevel([(n, a)] + x + y, m) == (if n == m then [a] else []) + OfLevel(x, m) + OfLevel(y, m)
  {
    OfLevelJoin([(n, a)] + x, y, m);
    OfLevelJoin([(n, a)], x, m);
    assert OfLevel([(n, a)], m) == (if n == m then [a] else []) by { assert OfLevel([], m) == []; }
  }

  lemma OneRange(a: nat)
    ensures Range(a, a + 1) == [a]
  {
  }

  lemma {:induction false} LevelsFrom(p: Shape, n: nat, a: nat, b: nat)
    ensures forall t :: 0 <= t < |Preorder(p, n, a, b)| ==> n <= Preorder(p, n, a, b)[t].0 < |p|
    decreases if n < |p| then |p| - n else 0, if a < b then b - a else 0
  {
    if n < |p| && a < b {
      LevelsFrom(p, n + 1, First(p, n, a), First(p, n, a + 1));
      LevelsFrom(p, n, a + 1, b);
    }
  }

  lemma {:induction false} NoneOfLevel(l: seq<(nat, nat)>, m: nat)
    requires forall t :: 0 <= t < |l| ==> l[t].0 != m
    ensures OfLevel(l, m) == []
  {
    if l != [] { NoneOfLevel(l[..|l| - 1], m); }
  }

  lemma DeeperOnly(p: Shape, n: nat, a: nat, b: nat, m: nat)
    requires m < n
    ensures OfLevel(Preorder(p, n, a, b), m) == []
  {
    LevelsFrom(p, n, a, b);
    NoneOfLevel(Preorder(p, n, a, b), m);
  }

  lemma {:induction false} DownAll(p: Shape, n: nat, m: nat)
    requires ShapeOk(p) && n <= m < |p|
    ensures Down(p, n, m, 0) == 0 && Down(p, n, m, |p[n]|) == |p[m]|
    decreases m - n
  {
    if n < m {
      assert RowOk(p, n + 1);
      BoundaryAt(p[n + 1], 0, 0);
      BoundaryAt(p[n + 1], |p[n]|, First(p, n, |p[n]|));
      DownAll(p, n + 1, m);
    }
  }

  /** The whole graph, from the root. */
  function Table(p: Shape): seq<(nat, nat)> {
    Preorder(p, 0, 0, 1)
  }

  /** Every cell is in the table once, and those of a row in their order. */
  lemma TableRows(p: Shape, m: nat)
    requires ShapeOk(p) && m < |p|
    ensures OfLevel(Table(p), m) == Range(0, |p[m]|)
  {
    PreorderRows(p, 0, 0, 1, m);
    DownAll(p, 0, m);
  }

  /** Going down the table the level rises by one at most; and the last cell seen one row up is
      the parent. */
  ghost predicate Follows(p: Shape, l: seq<(nat, nat)>, n: nat, t: nat)
    requires t < |l|
  {
    && n <= l[t].0 < |p|
    && (t > 0 ==> l[t].0 <= l[t - 1].0 + 1)
    && (l[t].0 > n ==> l[t].1 < |p[l[t].0]| && LastIs(OfLevel(l[..t], l[t].0 - 1), p[l[t].0][l[t].1]))
  }

  predicate LastIs(s: seq<nat>, x: nat) {
    s != [] && s[|s| - 1] == x
  }

  lemma {:induction false} PreorderFollows(p: Shape, n: nat, a: nat, b: nat, t: nat)
    requires ShapeOk(p) && n < |p| && b <= |p[n]| && t < |Preorder(p, n, a, b)|
    ensures Follows(p, Preorder(p, n, a, b), n, t) && Preorder(p, n, a, b)[0] == (n, a)
    decreases |p| - n, b - a
  {
    hide *;
    var f, f2 := First(p, n, a), First(p, n, a + 1);
    NotEmpty(p, n, a, b);
    Unrolled(p, n, a, b);
    var head, x, y := [(n, a)], Preorder(p, n + 1, f, f2), Preorder(p, n, a + 1, b);
    var l := head + x + y;
    if t == 0 {
      Head(p, n, l);
    } else if t <= |x| {
      FewRows(p, n + 1, f, f2);
      FirstInside(p, n, a + 1);
      PreorderFollows(p, n + 1, f, f2, t - 1);
      InBranch(p, n, a, t, x);
      FollowsSame(p, head + x, l, n, t);
    } else {
      PreorderFollows(p, n, a + 1, b, t - 1 - |x|);
      LevelsFrom(p, n + 1, f, f2);
      InRest(p, n, head + x, y, t - 1 - |x|);
    }
  }

  lemma NotEmpty(p: Shape, n: nat, a: nat, b: nat)
    requires Preorder(p, n, a, b) != []
    ensures a < b
  {
  }

  lemma FirstInside(p: Shape, n: nat, i: nat)
    requires n + 1 < |p|
    ensures First(p, n, i) <= |p[n + 1]|
  {
  }

  lemma Head(p: Shape, n: nat, l: seq<(nat, nat)>)
    requires n < |p| && l != [] && l[0].0 == n
    ensures Follows(p, l, n, 0)
  {
  }

  lemma FewRows(p: Shape, n: nat, a: nat, b: nat)
    requires Preorder(p, n, a, b) != []
    ensures n < |p|
  {
  }

  lemma FollowsSame(p: Shape, l: seq<(nat, nat)>, l2: seq<(nat, nat)>, n: nat, t: nat)
    requires t < |l| && t < |l2| && l[..t + 1] == l2[..t + 1] && Follows(p, l, n, t)
    ensures Follows(p, l2, n, t)
  {
    assert l2[t] == l2[..t + 1][t] == l[t] && l2[..t] == l2[..t + 1][..t] == l[..t];
    if t > 0 { assert l2[t - 1] == l2[..t + 1][t - 1] == l[t - 1]; }
  }

  lemma InRest(p: Shape, n: nat, before: seq<(nat, nat)>, y: seq<(nat, nat)>, u: nat)
    requires u < |y| && Follows(p, y, n, u) && y[0].0 == n && before != [] && before[|before| - 1].0 >= n
    ensures Follows(p, before + y, n, |before| + u)
  {
    hide OfLevel;
    var l, t := before + y, |before| + u;
    assert l[..t] == before + y[..u] && l[t] == y[u];
    if y[u].0 > n { OfLevelJoin(before, y[..u], y[u].0 - 1); }
    if u > 0 { assert l[t - 1] == y[u - 1]; }
  }

  lemma InBranch(p: Shape, n: nat, a: nat, t: nat, x: seq<(nat, nat)>)
    requires ShapeOk(p) && n + 1 < |p| && x == Preorder(p, n + 1, First(p, n, a), First(p, n, a + 1)) && 0 < t <= |x|
    requires Follows(p, x, n + 1, t - 1) && x[0].0 == n + 1
    ensures var l := [(n, a)] + x; Follows(p, l, n, t)
  {
    hide Preorder, OfLevel, ShapeOk, First;
    var head := [(n, a)];
    var l, u := head + x, t - 1;
    assert l[..t] == head + x[..u];
    BranchLast(p, n, a, x, u);
    hide LastIs;
    if u > 0 { assert l[t - 1] == x[u - 1]; }
  }

  /** The last cell seen a row up, inside a branch. */
  lemma BranchLast(p: Shape, n: nat, a: nat, x: seq<(nat, nat)>, u: nat)
    requires ShapeOk(p) && n + 1 < |p| && x == Preorder(p, n + 1, First(p, n, a), First(p, n, a + 1)) && u < |x|
    requires Follows(p, x, n + 1, u)
    ensures var d := x[u].0; n < d < |p| && x[u].1 < |p[d]| && LastIs(OfLevel([(n, a)] + x[..u], d - 1), p[d][x[u].1])
  {
    hide Preorder, OfLevel, ShapeOk, First;
    var d := x[u].0;
    OfLevelJoin([(n, a)], x[..u], d - 1);
    if d == n + 1 {
      LevelsFrom(p, n + 1, First(p, n, a), First(p, n, a + 1));
      OneOfLevel(n, a);
      NoneOfLevel(x[..u], n);
      InRange(p, n, a, x, u);
    }
  }

  lemma OneOfLevel(n: nat, a: nat)
    ensures OfLevel([(n, a)], n) == [a]
  {
    assert OfLevel([], n) == [];
  }

  /** A cell one row below is among the children. */
  lemma InRange(p: Shape, n: nat, a: nat, x: seq<(nat, nat)>, u: nat)
    requires ShapeOk(p) && n + 1 < |p| && x == Preorder(p, n + 1, First(p, n, a), First(p, n, a + 1)) && u < |x| && x[u].0 == n + 1
    ensures x[u].1 < |p[n + 1]| && p[n + 1][x[u].1] == a
  {
    var f, f2 := First(p, n, a), First(p, n, a + 1);
    FirstMono(p, n, a, a + 1);
    PreorderRows(p, n + 1, f, f2, n + 1);
    OfLevelHas(x, u);
    assert x[u].1 in Range(f, f2);
    assert RowOk(p, n + 1);
    Boundary(p[n + 1], a);
    Boundary(p[n + 1], a + 1);
  }

  lemma {:induction false} OfLevelHas(l: seq<(nat, nat)>, u: nat)
    requires u < |l|
    ensures l[u].1 in OfLevel(l, l[u].0)
    decreases |l|
  {
    if u < |l| - 1 { OfLevelHas(l[..|l| - 1], u); }
  }

  // -------- rebuilding the levels from the table ---------------------------------------

  /** The rows of the table with level d, in order. */
  function Where(col: seq<nat>, d: int): (r: seq<nat>)
    ensures forall i :: 0 <= i < |r| ==> r[i] < |col| && col[r[i]] == d
  {
    if col == [] then [] else
      var n := |col| - 1;
      Where(col[..n], d) + if col[n] == d then [n] else []
  }

  /** A level column: one root, and never more than one level down at a time. */
  ghost predicate LevelColumn(col: seq<nat>) {
    col != [] && col[0] == 0 && forall t :: 0 < t < |col| ==> 1 <= col[t] <= col[t - 1] + 1
  }

  /** A node of the graph that is drawn. */
  datatype Built = Built(start: int, value: int, level: nat, parent: int, children: seq<nat>)

  function Above(level: nat): int { level - 1 }

  function ValueAt(values: seq<int>, t: nat): int { if t < |values| then values[t] else 0 }

  function ChildSum(values: seq<int>, ids: seq<nat>): int {
    if ids == [] then 0 else ChildSum(values, ids[..|ids| - 1]) + ValueAt(values, ids[|ids| - 1])
  }

  lemma NoChildren(values: seq<int>)
    ensures ChildSum(values, []) == 0
  {
  }

  function Last(s: seq<nat>): int {
    if s == [] then -1 else s[|s| - 1]
  }

  ghost predicate BuiltOk(col: seq<nat>, values: seq<int>, nodes: seq<Built>, t: nat)
    requires t < |nodes| <= |col| == |values|
  {
    && nodes[t].level == col[t] && nodes[t].value == values[t]
    && (if t == 0 then nodes[t].parent == -1 && nodes[t].start == 0
        else nodes[t].parent == Last(Where(col[..t], Above(col[t]))) && 0 <= nodes[t].parent < t)
    && nodes[t].children == RowsBelow(nodes, t, |nodes|)
    && (forall j :: 0 <= j < |nodes[t].children| ==> t < nodes[t].children[j] < |nodes|)
    && forall j :: 0 <= j < |nodes[t].children| ==> SideBySide(values, nodes, t, j)
  }

  /** The rows of the table, up to row n, whose parent is row t. */
  function RowsBelow(nodes: seq<Built>, t: nat, n: nat): seq<nat>
    requires n <= |nodes|
  {
    if n == 0 then [] else RowsBelow(nodes, t, n - 1) + if nodes[n - 1].parent == t then [n - 1] else []
  }

  lemma {:induction false} RowsBelowSame(nodes: seq<Built>, nodes2: seq<Built>, t: nat, n: nat)
    requires n <= |nodes| && n <= |nodes2| && forall i :: 0 <= i < n ==> nodes2[i].parent == nodes[i].parent
    ensures RowsBelow(nodes2, t, n) == RowsBelow(nodes, t, n)
  {
    if n > 0 { RowsBelowSame(nodes, nodes2, t, n - 1); }
  }

  lemma {:induction false} NoRowsBelow(nodes: seq<Built>, t: nat, n: nat)
    requires n <= |nodes| && forall i :: 0 <= i < n ==> nodes[i].parent < t
    ensures RowsBelow(nodes, t, n) == []
  {
    if n > 0 { NoRowsBelow(nodes, t, n - 1); }
  }

  /** Children stand side by side from where their parent starts. */
  ghost predicate SideBySide(values: seq<int>, nodes: seq<Built>, t: nat, j: nat)
    requires t < |nodes| <= |values| && j < |nodes[t].children| && forall i :: 0 <= i < |nodes[t].children| ==> nodes[t].children[i] < |nodes|
  {
    var child := nodes[nodes[t].children[j]];
    child.parent == t && child.start == nodes[t].start + ChildSum(values, nodes[t].children[..j])
  }

  ghost predicate RowsOk(col: seq<nat>, rows: seq<seq<nat>>) {
    && (forall d :: 0 <= d < |rows| ==> RowOf(col, rows, d))
    && forall t :: 0 <= t < |col| ==> col[t] < |rows|
  }

  ghost predicate RowOf(col: seq<nat>, rows: seq<seq<nat>>, d: nat)
    requires d < |rows|
  {
    rows[d] == Where(col, d) && rows[d] != []
  }

  /** The last node of every level down to the current one is the last child of the one above. */
  ghost predicate Spine(rows: seq<seq<nat>>, nodes: seq<Built>, level: nat) {
    && level < |rows| && (forall d :: 0 <= d <= level ==> rows[d] != [] && Last(rows[d]) < |nodes|)
    && forall d :: 0 < d <= level ==> OnSpine(rows, nodes, d)
  }

  ghost predicate OnSpine(rows: seq<seq<nat>>, nodes: seq<Built>, d: nat)
    requires 0 < d < |rows|
  {
    && 0 <= Last(rows[d]) < |nodes| && 0 <= Last(rows[d - 1]) < |nodes|
    && nodes[Last(rows[d])].parent == Last(rows[d - 1]) && Last(nodes[Last(rows[d - 1])].children) == Last(rows[d])
  }

  /** The state of the loop before row t of the table. */
  ghost predicate Rebuilding(col: seq<nat>, values: seq<int>, rows: seq<seq<nat>>, nodes: seq<Built>, t: nat) {
    && |nodes| == t <= |col| == |values| && RowsOk(col[..t], rows)
    && (forall k :: 0 <= k < t ==> BuiltOk(col, values, nodes, k))
    && (t > 0 ==> Spine(rows, nodes, col[t - 1]) && Last(rows[col[t - 1]]) == t - 1 && nodes[t - 1].children == [])
  }

  function Attached(nodes: seq<Built>, parent: int, node: Built): seq<Built>
    requires -1 <= parent < |nodes|
  {
    if parent < 0 then nodes + [node]
    else nodes[parent := nodes[parent].(children := nodes[parent].children + [|nodes|])] + [node]
  }

  lemma {:induction false} NoneThere(col: seq<nat>, d: nat)
    requires forall t :: 0 <= t < |col| ==> col[t] < d
    ensures Where(col, d) == []
  {
    if col != [] { NoneThere(col[..|col| - 1], d); }
  }

  lemma RowsNext(col: seq<nat>, t: nat, rows: seq<seq<nat>>, rows2: seq<seq<nat>>)
    requires t < |col| && RowsOk(col[..t], rows) && col[t] <= |rows|
    requires rows2 == (if col[t] == |rows| then rows + [[t]] else rows[col[t] := rows[col[t]] + [t]])
    ensures RowsOk(col[..t + 1], rows2)
  {
    hide RowOf;
    var next := col[..t + 1];
    assert next[..t] == col[..t];
    forall d | 0 <= d < |rows2| ensures RowOf(next, rows2, d) {
      if d < |rows| { assert RowOf(col[..t], rows, d); }
      RowNext(col, t, rows, rows2, d);
    }
    forall k | 0 <= k < |next| ensures next[k] < |rows2| { if k < t { assert next[k] == col[..t][k]; } }
  }

  lemma RowNext(col: seq<nat>, t: nat, rows: seq<seq<nat>>, rows2: seq<seq<nat>>, d: nat)
    requires t < |col| && col[t] <= |rows| && d < |rows2|
    requires if d < |rows| then RowOf(col[..t], rows, d) else forall k :: 0 <= k < t ==> col[k] < d
    requires rows2 == (if col[t] == |rows| then rows + [[t]] else rows[col[t] := rows[col[t]] + [t]])
    ensures RowOf(col[..t + 1], rows2, d)
  {
    assert col[..t + 1][..t] == col[..t];
    if d == |rows| { NoneThere(col[..t], d); }
    assert Where(col[..t], d) + [] == Where(col[..t], d);
  }

  /** The new node is placed behind the children its parent already has. */
  lemma AttachedOld(col: seq<nat>, values: seq<int>, nodes: seq<Built>, parent: int, node: Built, k: nat)
    requires k < |nodes| < |col| == |values| && -1 <= parent < |nodes| && BuiltOk(col, values, nodes, k)
    requires node.parent == parent && (parent == k ==> node.start == nodes[k].start + ChildSum(values, nodes[k].children))
    ensures BuiltOk(col, values, Attached(nodes, parent, node), k)
  {
    hide Where, Last, ChildSum, SideBySide, RowsBelow;
    var nodes2 := Attached(nodes, parent, node);
    var kids := nodes[k].children;
    assert |nodes2| == |nodes| + 1;
    RowsBelowNext(nodes2, k, |nodes|);
    RowsBelowSame(nodes, nodes2, k, |nodes|);
    forall j | 0 <= j < |nodes2[k].children| ensures nodes2[k].children[j] < |nodes2| && SideBySide(values, nodes2, k, j) {
      if j < |kids| { KidKept(values, nodes, parent, node, k, j); } else { KidPlaced(values, nodes, node, k); }
    }
  }

  lemma RowsBelowNext(nodes: seq<Built>, t: nat, n: nat)
    requires n < |nodes|
    ensures RowsBelow(nodes, t, n + 1) == RowsBelow(nodes, t, n) + if nodes[n].parent == t then [n] else []
  {
  }

  lemma KidPlaced(values: seq<int>, nodes: seq<Built>, node: Built, k: nat)
    requires k < |nodes| < |values| && node.parent == k && forall i :: 0 <= i < |nodes[k].children| ==> nodes[k].children[i] < |nodes|
    requires node.start == nodes[k].start + ChildSum(values, nodes[k].children)
    ensures var nodes2 := Attached(nodes, k, node); var j := |nodes[k].children|;
            && |nodes2| == |nodes| + 1 && j < |nodes2[k].children|
            && (forall i :: 0 <= i < |nodes2[k].children| ==> nodes2[k].children[i] < |nodes2|) && SideBySide(values, nodes2, k, j)
  {
    hide ChildSum;
    assert Attached(nodes, k, node)[k].children[..|nodes[k].children|] == nodes[k].children;
  }

  lemma KidKept(values: seq<int>, nodes: seq<Built>, parent: int, node: Built, k: nat, j: nat)
    requires k < |nodes| < |values| && -1 <= parent < |nodes| && j < |nodes[k].children|
    requires (forall i :: 0 <= i < |nodes[k].children| ==> k < nodes[k].children[i] < |nodes|) && SideBySide(values, nodes, k, j)
    ensures var nodes2 := Attached(nodes, parent, node);
            && |nodes2| == |nodes| + 1 && j < |nodes2[k].children|
            && (forall i :: 0 <= i < |nodes2[k].children| ==> nodes2[k].children[i] < |nodes2|) && SideBySide(values, nodes2, k, j)
  {
    hide ChildSum;
    var nodes2 := Attached(nodes, parent, node);
    assert nodes2[k].children[..j] == nodes[k].children[..j];
  }

  lemma AttachedNew(col: seq<nat>, values: seq<int>, nodes: seq<Built>, parent: int, node: Built)
    requires |nodes| < |col| == |values| && -1 <= parent < |nodes|
    requires node.level == col[|nodes|] && node.value == values[|nodes|] && node.parent == parent && node.children == []
    requires if |nodes| == 0 then node.start == 0 else parent >= 0 && parent == Last(Where(col[..|nodes|], Above(col[|nodes|])))
    requires forall i :: 0 <= i < |nodes| ==> nodes[i].parent < |nodes|
    ensures |Attached(nodes, parent, node)| == |nodes| + 1 && BuiltOk(col, values, Attached(nodes, parent, node), |nodes|)
  {
    hide Where, Last, ChildSum;
    NoRowsBelow(Attached(nodes, parent, node), |nodes|, |nodes| + 1);
  }

  /** After the new node the spine ends at it. */
  lemma SpineNext(rows: seq<seq<nat>>, nodes: seq<Built>, level: nat, o: nat, rows2: seq<seq<nat>>, nodes2: seq<Built>, node: Built)
    requires Spine(rows, nodes, level) && 0 < o <= level + 1 && o <= |rows|
    requires rows2 == (if o == |rows| then rows + [[|nodes|]] else rows[o := rows[o] + [|nodes|]])
    requires node.parent == Last(rows[o - 1]) >= 0 && nodes2 == Attached(nodes, node.parent, node)
    requires forall d, e :: 0 <= d < e < o ==> Last(rows[d]) != Last(rows[e])
    ensures Spine(rows2, nodes2, o) && Last(rows2[o]) == |nodes|
  {
    forall d | 0 <= d <= o ensures rows2[d] != [] && Last(rows2[d]) < |nodes2| { if d < o { assert rows2[d] == rows[d]; } }
    forall d | 0 < d <= o ensures OnSpine(rows2, nodes2, d) {
      if d < o {
        assert OnSpine(rows, nodes, d);
        assert rows2[d] == rows[d] && rows2[d - 1] == rows[d - 1];
      }
    }
  }

  lemma RowsApart(col: seq<nat>, rows: seq<seq<nat>>, n: nat)
    requires RowsOk(col, rows) && n <= |rows| && forall d :: 0 <= d < n ==> rows[d] != []
    ensures forall d, e :: 0 <= d < e < n ==> Last(rows[d]) != Last(rows[e])
  {
    forall d, e | 0 <= d < e < n ensures Last(rows[d]) != Last(rows[e]) {
      assert RowOf(col, rows, d) && RowOf(col, rows, e);
      assert col[Last(rows[d])] == d && col[Last(rows[e])] == e;
    }
  }

  /** Which node is the parent of row t, and where it starts: below the node just made, or beside
      the last one of its level. */
  lemma Anchor(col: seq<nat>, values: seq<int>, rows: seq<seq<nat>>, nodes: seq<Built>, t: nat)
    requires LevelColumn(col) && 0 < t < |col| && Rebuilding(col, values, rows, nodes, t)
    ensures 0 < col[t] <= |rows| && rows[col[t] - 1] != [] && col[t - 1] < |rows|
    ensures var parent := Last(rows[col[t] - 1]); 0 <= parent < t && parent == Last(Where(col[..t], Above(col[t])))
    ensures col[t] > col[t - 1] ==> Last(rows[col[t] - 1]) == t - 1 && nodes[t - 1].children == []
    ensures col[t] <= col[t - 1] ==> rows[col[t]] != [] && Last(rows[col[t]]) < t && OnSpine(rows, nodes, col[t])
  {
    hide Where, BuiltOk;
    var o := col[t];
    assert Spine(rows, nodes, col[t - 1]);
    assert RowOf(col[..t], rows, o - 1);
    if o <= col[t - 1] { assert OnSpine(rows, nodes, o); }
  }

  /** A sibling ends where the next one starts. */
  lemma SiblingEnd(col: seq<nat>, values: seq<int>, nodes: seq<Built>, parent: nat, child: nat)
    requires parent < |nodes| <= |col| == |values| && BuiltOk(col, values, nodes, parent) && child < |nodes| && BuiltOk(col, values, nodes, child)
    requires nodes[parent].children != [] && Last(nodes[parent].children) == child
    ensures nodes[child].start + nodes[child].value == nodes[parent].start + ChildSum(values, nodes[parent].children)
  {
    var j := |nodes[parent].children| - 1;
    assert SideBySide(values, nodes, parent, j);
  }

  method InitLevels(col: seq<nat>, values: seq<int>) returns (rows: seq<seq<nat>>, nodes: seq<Built>)
    requires LevelColumn(col) && |values| == |col|
    ensures RowsOk(col, rows) && |nodes| == |col| && forall t :: 0 <= t < |nodes| ==> BuiltOk(col, values, nodes, t)
  {
    rows, nodes := [], [];
    var parent, start := -1, 0;
    for t := 0 to |col|
      invariant Rebuilding(col, values, rows, nodes, t)
      invariant t == 0 ==> parent == -1 && start == 0 && rows == []
      invariant t > 0 ==> parent == t - 1 && start == nodes[t - 1].start
    {
      parent, start, rows, nodes := AddRow(col, values, rows, nodes, t, parent, start);
    }
    assert col[..|col|] == col;
  }

  /** One row of the table becomes a node. */
  method AddRow(col: seq<nat>, values: seq<int>, rows0: seq<seq<nat>>, nodes0: seq<Built>, t: nat, parent0: int, start0: int)
    returns (parent: int, start: int, rows: seq<seq<nat>>, nodes: seq<Built>)
    requires LevelColumn(col) && t < |col| && Rebuilding(col, values, rows0, nodes0, t)
    requires t == 0 ==> parent0 == -1 && start0 == 0 && rows0 == []
    requires t > 0 ==> parent0 == t - 1 && start0 == nodes0[t - 1].start
    ensures Rebuilding(col, values, rows, nodes, t + 1) && parent == t && start == nodes[t].start
  {
    hide Where, BuiltOk, Spine, OnSpine, RowsOk, ChildSum;
    parent, start, rows := parent0, start0, rows0;
    var o := col[t];
    if t > 0 { Anchor(col, values, rows0, nodes0, t); }
    if o == |rows| { rows := rows + [[]]; }
    if t > 0 && col[t - 1] > 0 && col[t - 1] >= o {
      var sibling := rows[o][|rows[o]| - 1];
      SiblingOf(col, values, rows0, nodes0, t, sibling);
      start := nodes0[sibling].start + nodes0[sibling].value;
      parent := nodes0[sibling].parent;
    }
    var node := Built(start, values[t], o, parent, []);
    nodes := Attached(nodes0, parent, node);
    rows := rows[o := rows[o] + [t]];
    parent := t;
    if o == |rows0| { assert rows[o] == [t] && rows == rows0 + [[t]]; }
    NoChildren(values);
    StepKeeps(col, values, rows0, nodes0, t, node, rows, nodes);
  }

  lemma SiblingOf(col: seq<nat>, values: seq<int>, rows: seq<seq<nat>>, nodes: seq<Built>, t: nat, sibling: nat)
    requires LevelColumn(col) && 0 < t < |col| && Rebuilding(col, values, rows, nodes, t) && col[t] <= col[t - 1] < |rows|
    requires rows[col[t]] != [] && sibling == Last(rows[col[t]])
    ensures sibling < t && nodes[sibling].level == col[t] && nodes[sibling].value == values[sibling]
    ensures nodes[sibling].parent == Last(rows[col[t] - 1])
    ensures 0 <= nodes[sibling].parent < t
    ensures var p := nodes[sibling].parent;
            nodes[sibling].start + values[sibling] == nodes[p].start + ChildSum(values, nodes[p].children)
  {
    hide Where, RowsBelow, ChildSum, SideBySide, Spine, RowsOk;
    Anchor(col, values, rows, nodes, t);
    assert OnSpine(rows, nodes, col[t]);
    assert BuiltOk(col, values, nodes, sibling);
    var p := nodes[sibling].parent;
    assert BuiltOk(col, values, nodes, p);
    SiblingEnd(col, values, nodes, p, sibling);
  }

  /** The node of row t, hung below its parent behind its siblings, keeps everything. */
  lemma StepKeeps(col: seq<nat>, values: seq<int>, rows: seq<seq<nat>>, nodes: seq<Built>, t: nat, node: Built,
                  rows2: seq<seq<nat>>, nodes2: seq<Built>)
    requires Stepping(col, values, rows, nodes, t, node, rows2, nodes2)
    ensures Rebuilding(col, values, rows2, nodes2, t + 1)
  {
    StepRows(col, values, rows, nodes, t, node, rows2, nodes2);
    StepSpine(col, values, rows, nodes, t, node, rows2, nodes2);
    forall k | 0 <= k < t + 1 ensures k < |nodes2| && BuiltOk(col, values, nodes2, k) {
      StepBuilt(col, values, rows, nodes, t, node, rows2, nodes2, k);
    }
    hide BuiltOk, Spine, RowsOk, Where, Last, Attached, ChildSum;
  }

  /** Row t, whose node and place have been worked out, on top of a state of the loop. */
  ghost predicate Stepping(col: seq<nat>, values: seq<int>, rows: seq<seq<nat>>, nodes: seq<Built>, t: nat, node: Built,
                           rows2: seq<seq<nat>>, nodes2: seq<Built>) {
    && LevelColumn(col) && t < |col| && Rebuilding(col, values, rows, nodes, t) && (t == 0 ==> rows == [])
    && -1 <= node.parent < |nodes| && nodes2 == Attached(nodes, node.parent, node)
    && col[t] <= |rows| && rows2 == (if col[t] == |rows| then rows + [[t]] else rows[col[t] := rows[col[t]] + [t]])
    && node.level == col[t] && node.value == values[t] && node.children == []
    && if t == 0 then node.parent == -1 && node.start == 0
       else col[t] > 0 && node.parent == Last(rows[col[t] - 1]) && node.parent >= 0
            && node.start == nodes[node.parent].start + ChildSum(values, nodes[node.parent].children)
  }

  lemma StepRows(col: seq<nat>, values: seq<int>, rows: seq<seq<nat>>, nodes: seq<Built>, t: nat, node: Built,
                 rows2: seq<seq<nat>>, nodes2: seq<Built>)
    requires Stepping(col, values, rows, nodes, t, node, rows2, nodes2)
    ensures |nodes2| == t + 1 <= |col| == |values| && RowsOk(col[..t + 1], rows2)
  {
    hide BuiltOk, Spine, RowsOk, Where, Last, ChildSum;
    RowsNext(col, t, rows, rows2);
  }

  lemma StepBuilt(col: seq<nat>, values: seq<int>, rows: seq<seq<nat>>, nodes: seq<Built>, t: nat, node: Built,
                  rows2: seq<seq<nat>>, nodes2: seq<Built>, k: nat)
    requires Stepping(col, values, rows, nodes, t, node, rows2, nodes2) && k <= t
    ensures |nodes2| == t + 1 <= |col| == |values| && BuiltOk(col, values, nodes2, k)
  {
    StepRows(col, values, rows, nodes, t, node, rows2, nodes2);
    if k < t {
      hide BuiltOk, Spine, RowsOk, Where, Last, Attached, ChildSum;
      AttachedOld(col, values, nodes, node.parent, node, k);
    } else {
      hide Spine, OnSpine, RowsOk, Where, Last, Attached, ChildSum;
      if t > 0 { Anchor(col, values, rows, nodes, t); }
      forall i | 0 <= i < t ensures nodes[i].parent < t { assert BuiltOk(col, values, nodes, i); }
      AttachedNew(col, values, nodes, node.parent, node);
    }
  }

  lemma StepSpine(col: seq<nat>, values: seq<int>, rows: seq<seq<nat>>, nodes: seq<Built>, t: nat, node: Built,
                  rows2: seq<seq<nat>>, nodes2: seq<Built>)
    requires Stepping(col, values, rows, nodes, t, node, rows2, nodes2)
    ensures |nodes2| == t + 1 && col[t] < |rows2| && Spine(rows2, nodes2, col[t]) && Last(rows2[col[t]]) == t && nodes2[t].children == []
  {
    hide BuiltOk, Spine, OnSpine, RowsOk, Where, Last, ChildSum;
    if t > 0 {
      Anchor(col, values, rows, nodes, t);
      SpineRows(rows, nodes, col[t - 1]);
      RowsApart(col[..t], rows, col[t]);
      SpineNext(rows, nodes, col[t - 1], col[t], rows2, nodes2, node);
    } else {
      SpineFirst(rows2, nodes2);
    }
  }

  lemma {:induction false} RowsBelowHas(nodes: seq<Built>, t: nat, n: nat, k: nat)
    requires k < n <= |nodes| && nodes[k].parent == t
    ensures k in RowsBelow(nodes, t, n)
    decreases n
  {
    if k < n - 1 { RowsBelowHas(nodes, t, n - 1, k); }
  }

  /** Every node but the root has its place among its parent's children. */
  lemma HasPlace(col: seq<nat>, values: seq<int>, nodes: seq<Built>, t: nat) returns (j: nat)
    requires |nodes| == |col| == |values| && 0 < t < |nodes|
    requires forall k :: 0 <= k < |nodes| ==> BuiltOk(col, values, nodes, k)
    ensures 0 <= nodes[t].parent < t && j < |nodes[nodes[t].parent].children| && nodes[nodes[t].parent].children[j] == t
    ensures nodes[t].start == nodes[nodes[t].parent].start + ChildSum(values, nodes[nodes[t].parent].children[..j])
  {
    hide Where, ChildSum, RowsBelow;
    assert BuiltOk(col, values, nodes, t);
    var p := nodes[t].parent;
    assert BuiltOk(col, values, nodes, p);
    RowsBelowHas(nodes, p, |nodes|, t);
    j :| 0 <= j < |nodes[p].children| && nodes[p].children[j] == t;
    assert SideBySide(values, nodes, p, j);
  }

  lemma SameParts(col: seq<nat>, values: seq<int>, nodes: seq<Built>, nodes2: seq<Built>, t: nat)
    requires |nodes| == |nodes2| == |col| == |values| && t < |nodes|
    requires forall k :: 0 <= k < |nodes| ==> BuiltOk(col, values, nodes, k) && BuiltOk(col, values, nodes2, k)
    ensures nodes2[t].(start := nodes[t].start) == nodes[t]
  {
    hide Where, ChildSum, RowsBelow, Last;
    forall i | 0 <= i < |nodes| ensures nodes2[i].parent == nodes[i].parent {
      assert BuiltOk(col, values, nodes, i) && BuiltOk(col, values, nodes2, i);
    }
    RowsBelowSame(nodes, nodes2, t, |nodes|);
    assert BuiltOk(col, values, nodes, t) && BuiltOk(col, values, nodes2, t);
  }

  lemma {:induction false} SameStart(col: seq<nat>, values: seq<int>, nodes: seq<Built>, nodes2: seq<Built>, t: nat)
    requires |nodes| == |nodes2| == |col| == |values| && t < |nodes|
    requires forall k :: 0 <= k < |nodes| ==> BuiltOk(col, values, nodes, k) && BuiltOk(col, values, nodes2, k)
    ensures nodes2[t].start == nodes[t].start
  {
    hide Where, ChildSum, RowsBelow, Last;
    if t == 0 {
      assert BuiltOk(col, values, nodes, 0) && BuiltOk(col, values, nodes2, 0);
    } else {
      var j := HasPlace(col, values, nodes, t);
      var p := nodes[t].parent;
      SameParts(col, values, nodes, nodes2, t);
      SameParts(col, values, nodes, nodes2, p);
      SameStart(col, values, nodes, nodes2, p);
      assert BuiltOk(col, values, nodes2, p) && SideBySide(values, nodes2, p, j);
    }
  }

  /** A table can be rebuilt in one way only. */
  lemma OneRebuilding(col: seq<nat>, values: seq<int>, nodes: seq<Built>, nodes2: seq<Built>, rows: seq<seq<nat>>, rows2: seq<seq<nat>>)
    requires |nodes| == |nodes2| == |col| == |values| && RowsOk(col, rows) && RowsOk(col, rows2)
    requires forall k :: 0 <= k < |nodes| ==> BuiltOk(col, values, nodes, k) && BuiltOk(col, values, nodes2, k)
    ensures nodes == nodes2 && rows == rows2
  {
    SameDepth(col, rows, rows2);
    SameDepth(col, rows2, rows);
    forall d | 0 <= d < |rows| ensures rows[d] == rows2[d] { assert RowOf(col, rows, d) && RowOf(col, rows2, d); }
    forall t | 0 <= t < |nodes| ensures nodes[t] == nodes2[t] {
      SameParts(col, values, nodes, nodes2, t);
      SameStart(col, values, nodes, nodes2, t);
    }
  }

  lemma SameDepth(col: seq<nat>, rows: seq<seq<nat>>, rows2: seq<seq<nat>>)
    requires RowsOk(col, rows) && RowsOk(col, rows2)
    ensures |rows| <= |rows2|
  {
    if rows != [] {
      var d := |rows| - 1;
      assert RowOf(col, rows, d);
      assert col[rows[d][0]] == d;
    }
  }

  lemma SpineRows(rows: seq<seq<nat>>, nodes: seq<Built>, level: nat)
    requires Spine(rows, nodes, level)
    ensures level < |rows| && forall d :: 0 <= d <= level ==> rows[d] != []
  {
  }

  lemma SpineFirst(rows: seq<seq<nat>>, nodes: seq<Built>)
    requires rows == [[0]] && |nodes| == 1
    ensures Spine(rows, nodes, 0) && Last(rows[0]) == 0
  {
  }

  // -------- from the profile format to a tree ------------------------------------------

  /** A cell of the profile format; the second half is for comparisons of two profiles. */
  datatype Cell = Cell(name: int, offset: int, val: int, self: int, offsetRight: int, valRight: int, selfRight: int) {
    function Offset(): int { offset + offsetRight }
    function Width(): int { val + valRight }
  }

  function Fields(diff: bool): nat { if diff then 7 else 4 }

  /** The numbers of a cell, in the order of the format. */
  function Encode(c: Cell, diff: bool): (r: seq<int>)
    ensures |r| == Fields(diff)
  {
    if diff then [c.offset, c.val, c.self, c.offsetRight, c.valRight, c.selfRight, c.name] else [c.offset, c.val, c.self, c.name]
  }

  function EncodeAll(cells: seq<Cell>, diff: bool): seq<int> {
    if cells == [] then [] else EncodeAll(cells[..|cells| - 1], diff) + Encode(cells[|cells| - 1], diff)
  }

  method DecodeCell(e: seq<int>, a: nat, diff: bool) returns (c: Cell)
    requires a + Fields(diff) <= |e|
    ensures Encode(c, diff) == e[a..a + Fields(diff)] && (diff || PlainCell(c))
  {
    c := if diff then Cell(e[a + 6], e[a], e[a + 1], e[a + 2], e[a + 3], e[a + 4], e[a + 5])
         else Cell(e[a + 3], e[a], e[a + 1], e[a + 2], 0, 0, 0);
  }

  predicate PlainCell(c: Cell) {
    c.offsetRight == 0 && c.valRight == 0 && c.selfRight == 0
  }

  /** A level of k cells is decoded cell by cell: what comes out is what was encoded. */
  method Decode(e: seq<int>, diff: bool, ghost k: nat) returns (cells: seq<Cell>)
    requires |e| == Fields(diff) * k
    ensures EncodeAll(cells, diff) == e && |cells| == k && (diff || forall i :: 0 <= i < |cells| ==> PlainCell(cells[i]))
  {
    hide Encode;
    cells := [];
    var a, step := 0, Fields(diff);
    while a < |e|
      invariant a == step * |cells| && |cells| <= k && EncodeAll(cells, diff) == e[..a]
      invariant diff || forall i :: 0 <= i < |cells| ==> PlainCell(cells[i])
      decreases k - |cells|
    {
      Room(step, |cells|, k);
      var c := DecodeCell(e, a, diff);
      assert (cells + [c])[..|cells|] == cells && e[..a] + e[a..a + step] == e[..a + step];
      cells := cells + [c];
      a := a + step;
    }
    Filled(step, |cells|, k);
    assert e[..a] == e;
  }

  lemma {:induction false} Difference(step: nat, n: nat, k: nat)
    requires n <= k
    ensures step * k == step * n + step * (k - n) && (n < k ==> step * (k - n) >= step)
    decreases k
  {
    if n < k {
      Difference(step, n, k - 1);
      OneMore(step, k - 1);
      OneMore(step, k - 1 - n);
    }
  }

  lemma OneMore(step: nat, k: nat)
    ensures step * (k + 1) == step * k + step && step * k >= 0
  {
  }

  lemma Room(step: nat, n: nat, k: nat)
    requires step * n < step * k && n <= k
    ensures n < k && step * n + step <= step * k && step * (n + 1) == step * n + step
  {
    Difference(step, n, k);
  }

  lemma Filled(step: nat, n: nat, k: nat)
    requires step > 0 && n <= k && step * n >= step * k
    ensures n == k && step * n == step * k
  {
    Difference(step, n, k);
  }

  type Row = seq<Cell>

  /** Everything before cell i of a row. */
  function Before(row: Row, i: nat): int
    requires i <= |row|
  {
    if i == 0 then 0 else Before(row, i - 1) + row[i - 1].Offset() + row[i - 1].Width()
  }

  function Start(row: Row, i: nat): int
    requires i < |row|
  {
    Before(row, i) + row[i].Offset()
  }

  predicate Holds(row: Row, q: nat, x: int)
    requires q < |row|
  {
    Start(row, q) <= x < Start(row, q) + row[q].Width()
  }

  /** The first cell from q on that holds position x. */
  function Holder(row: Row, x: int, q: nat): (r: nat)
    requires q <= |row|
    ensures q <= r <= |row| && (r < |row| ==> Holds(row, r, x)) && forall k :: q <= k < r ==> !Holds(row, k, x)
    decreases |row| - q
  {
    if q == |row| then q else if Holds(row, q, x) then q else Holder(row, x, q + 1)
  }

  ghost predicate Solid(row: Row) {
    forall i :: 0 <= i < |row| ==> row[i].Offset() >= 0 && row[i].Width() > 0
  }

  /** A graph as profiles have it: one root, cells of some width, each begun inside one above. */
  ghost predicate GraphOk(rows: seq<Row>) {
    && rows != [] && |rows[0]| == 1 && (forall n :: 0 <= n < |rows| ==> Solid(rows[n]))
    && forall n :: 0 < n < |rows| ==> Covered(rows[n - 1], rows[n])
  }

  ghost predicate Covered(above: Row, row: Row) {
    forall i :: 0 <= i < |row| ==> Holder(above, Start(row, i), 0) < |above|
  }

  function Parents(above: Row, row: Row): (r: seq<nat>)
    ensures |r| == |row| && forall i :: 0 <= i < |row| ==> r[i] == Holder(above, Start(row, i), 0)
  {
    seq(|row|, i requires 0 <= i < |row| => Holder(above, Start(row, i), 0))
  }

  function ShapeOf(rows: seq<Row>): (p: Shape)
    ensures |p| == |rows| && forall n :: 0 <= n < |rows| ==> |p[n]| == |rows[n]|
  {
    seq(|rows|, n requires 0 <= n < |rows| => if n == 0 then seq(|rows[0]|, _ => 0) else Parents(rows[n - 1], rows[n]))
  }

  lemma {:induction false} BeforeMono(row: Row, i: nat, j: nat)
    requires Solid(row) && i <= j <= |row|
    ensures Before(row, i) <= Before(row, j) && (i < j ==> Start(row, i) + row[i].Width() <= Before(row, j))
    decreases j
  {
    if i < j { BeforeMono(row, i, j - 1); }
  }

  lemma HolderMono(row: Row, x: int, y: int)
    requires Solid(row) && x <= y && Holder(row, x, 0) < |row| && Holder(row, y, 0) < |row|
    ensures Holder(row, x, 0) <= Holder(row, y, 0)
  {
    var q, r := Holder(row, x, 0), Holder(row, y, 0);
    if r < q { BeforeMono(row, r, q); }
  }

  /** Parents of a row rise from left to right. */
  lemma ParentsRise(above: Row, row: Row)
    requires Solid(above) && Solid(row) && Covered(above, row)
    ensures Rising(Parents(above, row)) && forall i :: 0 <= i < |row| ==> Parents(above, row)[i] < |above|
  {
    hide Holder, Before;
    var s := Parents(above, row);
    forall i, j | 0 <= i <= j < |s| ensures s[i] <= s[j] {
      BeforeMono(row, i, j);
      assert row[j].Offset() >= 0 && row[i].Width() > 0;
      HolderMono(above, Start(row, i), Start(row, j));
    }
  }

  lemma ShapeRow(rows: seq<Row>, n: nat)
    requires 0 < n < |rows|
    ensures ShapeOf(rows)[n] == Parents(rows[n - 1], rows[n])
  {
  }

  lemma GraphRow(rows: seq<Row>, n: nat)
    requires GraphOk(rows) && 0 < n < |rows|
    ensures Covered(rows[n - 1], rows[n]) && Solid(rows[n - 1]) && Solid(rows[n])
  {
  }

  lemma ShapeOfOk(rows: seq<Row>)
    requires GraphOk(rows)
    ensures ShapeOk(ShapeOf(rows))
  {
    hide Parents, Covered, Solid, Rising, ShapeOf;
    var p := ShapeOf(rows);
    forall n | 0 < n < |p| ensures RowOk(p, n) {
      ShapeRow(rows, n);
      GraphRow(rows, n);
      ParentsRise(rows[n - 1], rows[n]);
    }
  }

  lemma {:induction false} WhereRising(s: seq<nat>, q: nat)
    requires Rising(s)
    ensures Where(s, q) == Range(CountBelow(s, q), CountBelow(s, q + 1))
  {
    hide *;
    if s == [] {
      NothingThere(q);
    } else {
      var n := |s| - 1;
      var front := s[..n];
      RisingFront(s);
      WhereRising(front, q);
      LastCounted(s, q);
      LastCounted(s, q + 1);
      if s[n] <= q { FrontBelow(s, q + 1); }
      if s[n] < q { FrontBelow(s, q); }
      RangeEnds(CountBelow(front, q), n);
    }
  }

  lemma NothingThere(q: nat)
    ensures Where([], q) == [] == Range(CountBelow([], q), CountBelow([], q + 1))
  {
  }

  lemma RisingFront(s: seq<nat>)
    requires s != [] && Rising(s)
    ensures Rising(s[..|s| - 1])
  {
  }

  lemma LastCounted(s: seq<nat>, q: nat)
    requires s != []
    ensures var n := |s| - 1; CountBelow(s, q) == CountBelow(s[..n], q) + (if s[n] < q then 1 else 0) && CountBelow(s[..n], q) <= n
    ensures var n := |s| - 1; Where(s, q) == Where(s[..n], q) + if s[n] == q then [n] else []
  {
  }

  lemma FrontBelow(s: seq<nat>, i: nat)
    requires s != [] && Rising(s) && s[|s| - 1] < i
    ensures CountBelow(s[..|s| - 1], i) == |s| - 1
  {
    AllBelow(s[..|s| - 1], i);
  }

  lemma RangeEnds(c: nat, n: nat)
    requires c <= n
    ensures Range(c, n) + [n] == Range(c, n + 1) && Range(n, n) == [] == Range(n + 1, n + 1) && forall d :: Range(c, d) + [] == Range(c, d)
  {
  }

  lemma {:induction false} AllBelow(s: seq<nat>, i: nat)
    requires forall j :: 0 <= j < |s| ==> s[j] < i
    ensures CountBelow(s, i) == |s|
  {
    if s != [] { AllBelow(s[..|s| - 1], i); }
  }

  /** The children every cell has, as places in the row below. */
  ghost predicate ChildrenOf(p: Shape, children: seq<seq<seq<nat>>>) {
    |children| == |p| && forall n :: 0 <= n < |p| ==> KidsOf(p, children[n], n)
  }

  ghost predicate KidsOf(p: Shape, kids: seq<seq<nat>>, n: nat)
    requires n < |p|
  {
    |kids| == |p[n]| && forall q :: 0 <= q < |p[n]| ==> kids[q] == if n + 1 < |p| then Where(p[n + 1], q) else []
  }

  /** The position of cell i: what lies before it, and its own offset. */
  method Position(row: Row, i: nat) returns (x: int)
    requires i < |row|
    ensures x == Start(row, i)
  {
    x := 0;
    for j := 0 to i
      invariant x == Before(row, j)
    {
      x := x + row[j].Offset() + row[j].Width();
    }
    x := x + row[i].Offset();
  }

  method FindHolder(row: Row, x: int) returns (q: nat)
    ensures q == Holder(row, x, 0)
  {
    var o := 0;
    q := 0;
    while q < |row|
      invariant q <= |row| && o == Before(row, q) && Holder(row, x, q) == Holder(row, x, 0)
    {
      var begin := o + row[q].Offset();
      if begin <= x && begin + row[q].Width() > x { return; }
      o := o + row[q].Offset() + row[q].Width();
      q := q + 1;
    }
  }

  /** Hang the cells of one row below those of the row above. */
  method HangRow(above: Row, row: Row) returns (kids: seq<seq<nat>>)
    requires Covered(above, row)
    ensures |kids| == |above| && forall q :: 0 <= q < |above| ==> kids[q] == Where(Parents(above, row), q)
  {
    kids := seq(|above|, _ => []);
    var s := Parents(above, row);
    for i := 0 to |row|
      invariant |kids| == |above| && forall q :: 0 <= q < |above| ==> kids[q] == Where(s[..i], q)
    {
      var x := Position(row, i);
      var q := FindHolder(above, x);
      assert s[..i + 1][..i] == s[..i] && s[..i + 1][i] == q;
      forall k | 0 <= k < |above| ensures Where(s[..i + 1], k) == Where(s[..i], k) + if k == q then [i] else [] {}
      forall k | 0 <= k < |above| && k != q ensures Where(s[..i], k) + [] == Where(s[..i], k) {}
      kids := kids[q := kids[q] + [i]];
    }
    assert s[..|row|] == s;
  }

  ghost predicate NoKids(kids: seq<seq<nat>>, n: nat) {
    |kids| == n && forall q :: 0 <= q < n ==> kids[q] == []
  }

  method BuildTree(rows: seq<Row>) returns (children: seq<seq<seq<nat>>>)
    requires GraphOk(rows)
    ensures ChildrenOf(ShapeOf(rows), children)
  {
    hide Covered, Solid, Where, KidsOf, ShapeOf, GraphOk, Parents;
    ghost var p := ShapeOf(rows);
    children := [];
    SomeRow(rows);
    for n := 0 to |rows|
      invariant |children| == n
      invariant forall m :: 0 <= m < n - 1 ==> KidsOf(p, children[m], m)
      invariant n > 0 ==> NoKids(children[n - 1], |rows[n - 1]|)
    {
      if n > 0 {
        GraphRow(rows, n);
        var kids := HangRow(rows[n - 1], rows[n]);
        RowKids(rows, n, kids);
        children := children[n - 1 := kids];
      }
      children := children + [seq(|rows[n]|, _ => [])];
    }
    LastKids(rows, children[|rows| - 1]);
  }

  lemma SomeRow(rows: seq<Row>)
    requires GraphOk(rows)
    ensures rows != []
  {
  }

  lemma RowKids(rows: seq<Row>, n: nat, kids: seq<seq<nat>>)
    requires 0 < n < |rows| && |kids| == |rows[n - 1]|
    requires forall q :: 0 <= q < |kids| ==> kids[q] == Where(Parents(rows[n - 1], rows[n]), q)
    ensures KidsOf(ShapeOf(rows), kids, n - 1)
  {
    assert ShapeOf(rows)[n] == Parents(rows[n - 1], rows[n]);
  }

  lemma LastKids(rows: seq<Row>, kids: seq<seq<nat>>)
    requires rows != [] && NoKids(kids, |rows[|rows| - 1]|)
    ensures KidsOf(ShapeOf(rows), kids, |rows| - 1)
  {
  }

  // -------- the table ------------------------------------------------------------------

  function StackOrder(p: Shape, stack: seq<(nat, nat)>): seq<(nat, nat)> {
    if stack == [] then [] else Preorder(p, stack[0].0, stack[0].1, stack[0].1 + 1) + StackOrder(p, stack[1..])
  }

  function Pairs(n: nat, kids: seq<nat>): (r: seq<(nat, nat)>)
    ensures |r| == |kids| && forall i :: 0 <= i < |kids| ==> r[i] == (n, kids[i])
  {
    seq(|kids|, i requires 0 <= i < |kids| => (n, kids[i]))
  }

  lemma {:induction false} StackJoin(p: Shape, a: seq<(nat, nat)>, b: seq<(nat, nat)>)
    ensures StackOrder(p, a + b) == StackOrder(p, a) + StackOrder(p, b)
    decreases |a|
  {
    hide Preorder;
    if a == [] {
      assert a + b == b;
    } else {
      StackJoin(p, a[1..], b);
      assert (a + b)[1..] == a[1..] + b;
    }
  }

  lemma {:induction false} RunOrder(p: Shape, n: nat, a: nat, b: nat)
    ensures StackOrder(p, Pairs(n, Range(a, b))) == Preorder(p, n, a, b)
    decreases if a < b then b - a else 0
  {
    if a < b {
      RunOrder(p, n, a + 1, b);
      assert Pairs(n, Range(a, b))[1..] == Pairs(n, Range(a + 1, b));
      OneOrder(p, n, a, b);
    } else {
      assert Pairs(n, Range(a, b)) == [];
    }
  }

  lemma OneOrder(p: Shape, n: nat, a: nat, b: nat)
    requires a < b
    ensures Preorder(p, n, a, b) == Preorder(p, n, a, a + 1) + Preorder(p, n, a + 1, b)
    ensures n < |p| ==> Preorder(p, n, a, a + 1) == [(n, a)] + Preorder(p, n + 1, First(p, n, a), First(p, n, a + 1))
  {
    if n < |p| {
      var x := Preorder(p, n + 1, First(p, n, a), First(p, n, a + 1));
      assert Preorder(p, n, a + 1, a + 1) == [];
      assert [(n, a)] + x + [] == [(n, a)] + x;
    }
  }

  ghost predicate InShape(p: Shape, list: seq<(nat, nat)>) {
    forall k :: 0 <= k < |list| ==> list[k].0 < |p| && list[k].1 < |p[list[k].0]|
  }

  /** The children of a cell stand for what the table has below it. */
  lemma ListNext(p: Shape, list: seq<(nat, nat)>, kids: seq<nat>, rest: seq<(nat, nat)>)
    requires ShapeOk(p) && list != [] && InShape(p, list) && rest == Pairs(list[0].0 + 1, kids) + list[1..]
    requires kids == if list[0].0 + 1 < |p| then Where(p[list[0].0 + 1], list[0].1) else []
    ensures InShape(p, rest) && StackOrder(p, list) == [list[0]] + StackOrder(p, rest)
  {
    hide *;
    HeadInside(p, list);
    var n, i := list[0].0, list[0].1;
    var x, t := Preorder(p, n + 1, First(p, n, i), First(p, n, i + 1)), StackOrder(p, list[1..]);
    OneOrder(p, n, i, i + 1);
    NothingBeyond(p, n, i + 1);
    KidsOrder(p, n, i, kids);
    StackJoin(p, Pairs(n + 1, kids), list[1..]);
    StackHead(p, list);
    assert [(n, i)] + x + t == [(n, i)] + (x + t);
    ListShape(p, list, kids, rest);
  }

  lemma HeadInside(p: Shape, list: seq<(nat, nat)>)
    requires list != [] && InShape(p, list)
    ensures list[0].0 < |p|
  {
  }

  lemma ListShape(p: Shape, list: seq<(nat, nat)>, kids: seq<nat>, rest: seq<(nat, nat)>)
    requires list != [] && InShape(p, list) && rest == Pairs(list[0].0 + 1, kids) + list[1..]
    requires list[0].0 + 1 < |p| || kids == []
    requires list[0].0 + 1 < |p| ==> forall k :: 0 <= k < |kids| ==> kids[k] < |p[list[0].0 + 1]|
    ensures InShape(p, rest)
  {
    forall k | 0 <= k < |rest| ensures rest[k].0 < |p| && rest[k].1 < |p[rest[k].0]| {
      if k >= |kids| { assert rest[k] == list[k - |kids| + 1]; }
    }
  }

  lemma NothingBeyond(p: Shape, n: nat, a: nat)
    ensures Preorder(p, n, a, a) == []
  {
  }

  lemma StackHead(p: Shape, list: seq<(nat, nat)>)
    requires list != []
    ensures StackOrder(p, list) == Preorder(p, list[0].0, list[0].1, list[0].1 + 1) + StackOrder(p, list[1..])
  {
  }

  /** The work list: take the first cell, put its children in front. */
  method Flatten(children: seq<seq<seq<nat>>>, ghost p: Shape) returns (order: seq<(nat, nat)>)
    requires ShapeOk(p) && ChildrenOf(p, children)
    ensures order == Table(p)
  {
    order := [];
    var list: seq<(nat, nat)> := [(0, 0)];
    StackStart(p);
    while list != []
      invariant order + StackOrder(p, list) == Table(p) && InShape(p, list)
      decreases |StackOrder(p, list)|
    {
      hide StackOrder, Table, ShapeOk;
      var n, i := list[0].0, list[0].1;
      assert KidsOf(p, children[n], n);
      ghost var before := list;
      order := order + [list[0]];
      list := Pairs(n + 1, children[n][i]) + list[1..];
      ListNext(p, before, children[n][i], list);
    }
    NothingLeft(p);
  }

  lemma NothingLeft(p: Shape)
    ensures StackOrder(p, []) == []
  {
  }

  lemma StackStart(p: Shape)
    requires ShapeOk(p)
    ensures StackOrder(p, [(0, 0)]) == Table(p) && InShape(p, [(0, 0)])
  {
    assert StackOrder(p, []) == [];
  }

  lemma NothingOrder(p: Shape, n: nat, a: nat, b: nat)
    requires n >= |p|
    ensures Preorder(p, n, a, b) == [] && StackOrder(p, Pairs(n, [])) == []
  {
  }

  lemma KidsOrder(p: Shape, n: nat, i: nat, kids: seq<nat>)
    requires ShapeOk(p) && n < |p| && kids == if n + 1 < |p| then Where(p[n + 1], i) else []
    ensures StackOrder(p, Pairs(n + 1, kids)) == Preorder(p, n + 1, First(p, n, i), First(p, n, i + 1))
    ensures n + 1 < |p| || kids == []
    ensures n + 1 < |p| ==> forall k :: 0 <= k < |kids| ==> kids[k] < |p[n + 1]|
  {
    if n + 1 < |p| {
      assert RowOk(p, n + 1);
      hide ShapeOk, Preorder, StackOrder, Where, Rising, CountBelow, Pairs, Range;
      WhereRising(p[n + 1], i);
      RunOrder(p, n + 1, First(p, n, i), First(p, n, i + 1));
    } else {
      NothingOrder(p, n + 1, First(p, n, i), First(p, n, i + 1));
    }
  }

  // -------- there and back -------------------------------------------------------------

  function LevelsOf(l: seq<(nat, nat)>): (r: seq<nat>)
    ensures |r| == |l| && forall t :: 0 <= t < |l| ==> r[t] == l[t].0
  {
    seq(|l|, t requires 0 <= t < |l| => l[t].0)
  }

  /** The i-th row of level d in the table is the i-th cell of level d it mentions. */
  lemma {:induction false} WhereCells(l: seq<(nat, nat)>, d: nat)
    ensures |Where(LevelsOf(l), d)| == |OfLevel(l, d)|
    ensures forall i :: 0 <= i < |OfLevel(l, d)| ==> l[Where(LevelsOf(l), d)[i]] == (d, OfLevel(l, d)[i])
  {
    if l != [] {
      var n := |l| - 1;
      WhereCells(l[..n], d);
      assert LevelsOf(l)[..n] == LevelsOf(l[..n]);
    }
  }

  lemma {:induction false} WherePrefix(col: seq<nat>, t: nat, d: int)
    requires t <= |col|
    ensures Where(col[..t], d) <= Where(col, d)
    decreases |col|
  {
    if t == |col| {
      assert col[..t] == col;
    } else {
      WherePrefix(col[..|col| - 1], t, d);
      assert col[..|col| - 1][..t] == col[..t];
    }
  }

  lemma TableColumn(p: Shape)
    requires ShapeOk(p)
    ensures LevelColumn(LevelsOf(Table(p)))
  {
    var l := Table(p);
    assert l != [] by { TableRows(p, 0); assert OfLevel([], 0) == []; }
    PreorderFollows(p, 0, 0, 1, 0);
    forall t | 0 < t < |l| ensures 1 <= l[t].0 <= l[t - 1].0 + 1 {
      PreorderFollows(p, 0, 0, 1, t);
      OnlyOneRoot(p, t);
    }
  }

  lemma OnlyOneRoot(p: Shape, t: nat)
    requires ShapeOk(p) && 0 < t < |Table(p)|
    ensures Table(p)[t].0 > 0
  {
    NothingBeyond(p, 0, 1);
    var x := Preorder(p, 1, First(p, 0, 0), First(p, 0, 1));
    assert Table(p) == [(0, 0)] + x + [];
    LevelsFrom(p, 1, First(p, 0, 0), First(p, 0, 1));
    assert Table(p)[t] == x[t - 1];
  }

  /** Row d of the rebuilt levels has the cells of row d of the shape, in their order. */
  lemma RebuiltRow(p: Shape, rows: seq<seq<nat>>, d: nat, i: nat)
    requires ShapeOk(p) && RowsOk(LevelsOf(Table(p)), rows) && d < |p| && i < |p[d]|
    ensures d < |rows| && |rows[d]| == |p[d]| && rows[d][i] < |Table(p)| && Table(p)[rows[d][i]] == (d, i)
  {
    var l := Table(p);
    TableRows(p, d);
    WhereCells(l, d);
    var t := Where(LevelsOf(l), d)[i];
    assert LevelsOf(l)[t] == d;
    assert RowOf(LevelsOf(l), rows, d);
  }

  /** And its parent is the node of the cell's parent. */
  lemma RebuiltParent(p: Shape, rows: seq<seq<nat>>, d: nat, i: nat, parent: int)
    requires ShapeOk(p) && RowsOk(LevelsOf(Table(p)), rows) && 0 < d < |p| && i < |p[d]|
    requires d < |rows| && i < |rows[d]| && rows[d][i] < |Table(p)|
    requires parent == Last(Where(LevelsOf(Table(p))[..rows[d][i]], d - 1))
    ensures p[d][i] < |p[d - 1]| && |rows[d - 1]| == |p[d - 1]| && parent == rows[d - 1][p[d][i]]
  {
    hide OfLevel, Where, Preorder;
    var l := Table(p);
    var col := LevelsOf(l);
    var t := rows[d][i];
    RebuiltRow(p, rows, d, i);
    assert RowOk(p, d);
    PreorderFollows(p, 0, 0, 1, t);
    var q := p[d][i];
    RebuiltRow(p, rows, d - 1, q);
    WhereCells(l[..t], d - 1);
    assert LevelsOf(l[..t]) == col[..t];
    WherePrefix(col, t, d - 1);
    var seen := Where(col[..t], d - 1);
    var k := |seen| - 1;
    assert l[..t][seen[k]] == (d - 1, q);
    assert RowOf(col, rows, d - 1);
    assert seen[k] == Where(col, d - 1)[k] == rows[d - 1][k];
    RebuiltRow(p, rows, d - 1, k);
  }

  /** The drawn levels are the given ones: every row has its cells in their order, each with its
      width, below the node of the cell it begins in, side by side with its siblings. */
  ghost predicate Redrawn(rows: seq<Row>, order: seq<(nat, nat)>, drawn: seq<seq<nat>>, nodes: seq<Built>) {
    && |drawn| <= |rows| && (forall d :: 0 <= d < |drawn| ==> |drawn[d]| == |rows[d]|)
    && forall d, i :: 0 <= d < |rows| && 0 <= i < |rows[d]| ==> RedrawnAt(rows, order, drawn, nodes, d, i)
  }

  ghost predicate RedrawnAt(rows: seq<Row>, order: seq<(nat, nat)>, drawn: seq<seq<nat>>, nodes: seq<Built>, d: nat, i: nat)
    requires d < |rows| && i < |rows[d]|
  {
    && d < |drawn| && |drawn[d]| == |rows[d]| && drawn[d][i] < |nodes| == |order|
    && order[drawn[d][i]] == (d, i)
    && nodes[drawn[d][i]].level == d && nodes[drawn[d][i]].value == rows[d][i].Width()
    && if d == 0 then nodes[drawn[d][i]].parent == -1
       else var q := Holder(rows[d - 1], Start(rows[d], i), 0);
            q < |drawn[d - 1]| && nodes[drawn[d][i]].parent == drawn[d - 1][q]
  }

  /** The columns of the table, filled as the work list goes. */
  method Columns(rows: seq<Row>, order: seq<(nat, nat)>) returns (col: seq<nat>, values: seq<int>)
    requires forall t :: 0 <= t < |order| ==> order[t].0 < |rows| && order[t].1 < |rows[order[t].0]|
    ensures col == LevelsOf(order) && |values| == |order|
    ensures forall t :: 0 <= t < |order| ==> values[t] == rows[order[t].0][order[t].1].Width()
  {
    col, values := [], [];
    for t := 0 to |order|
      invariant |col| == |values| == t
      invariant forall k :: 0 <= k < t ==> col[k] == order[k].0 && values[k] == rows[order[k].0][order[k].1].Width()
    {
      col := col + [order[t].0];
      values := values + [rows[order[t].0][order[t].1].Width()];
    }
  }

  lemma TableInside(rows: seq<Row>, t: nat)
    requires GraphOk(rows) && ShapeOk(ShapeOf(rows)) && t < |Table(ShapeOf(rows))|
    ensures var c := Table(ShapeOf(rows))[t]; c.0 < |rows| && c.1 < |rows[c.0]|
  {
    var p := ShapeOf(rows);
    PreorderFollows(p, 0, 0, 1, t);
    TableRows(p, Table(p)[t].0);
    OfLevelHas(Table(p), t);
  }

  lemma {:induction false} OfLevelPlace(l: seq<(nat, nat)>, t: nat)
    requires t < |l|
    ensures var d := l[t].0; |OfLevel(l[..t], d)| < |OfLevel(l, d)| && OfLevel(l, d)[|OfLevel(l[..t], d)|] == l[t].1
    decreases |l|
  {
    if t < |l| - 1 {
      OfLevelPlace(l[..|l| - 1], t);
      assert l[..|l| - 1][..t] == l[..t];
    }
  }

  /** No cell is in the table twice. */
  lemma TableOnce(p: Shape, s: nat, t: nat)
    requires ShapeOk(p) && s < t < |Table(p)|
    ensures Table(p)[s] != Table(p)[t]
  {
    var l := Table(p);
    assert l[..t][..s] == l[..s] && l[..t][s] == l[s];
    if l[s] == l[t] {
      var d := l[t].0;
      PreorderFollows(p, 0, 0, 1, t);
      TableRows(p, d);
      OfLevelPlace(l, s);
      OfLevelPlace(l, t);
      OfLevelPlace(l[..t], s);
    }
  }

  /** From levels to a table and back to levels. */
  method Redraw(rows: seq<Row>)
    returns (order: seq<(nat, nat)>, values: seq<int>, drawn: seq<seq<nat>>, nodes: seq<Built>)
    requires GraphOk(rows)
    ensures Redrawn(rows, order, drawn, nodes)
    ensures |nodes| == |order| == |values| && forall t :: 0 <= t < |nodes| ==> BuiltOk(LevelsOf(order), values, nodes, t)
    ensures forall t :: 0 <= t < |order| ==> order[t].0 < |rows| && order[t].1 < |rows[order[t].0]|
    ensures forall s, t :: 0 <= s < t < |order| ==> order[s] != order[t]
  {
    ghost var p := ShapeOf(rows);
    ShapeOfOk(rows);
    var children := BuildTree(rows);
    order := Flatten(children, p);
    forall t | 0 <= t < |order| ensures order[t].0 < |rows| && order[t].1 < |rows[order[t].0]| { TableInside(rows, t); }
    var col;
    col, values := Columns(rows, order);
    TableColumn(p);
    forall s, t | 0 <= s < t < |order| ensures order[s] != order[t] { TableOnce(p, s, t); }
    drawn, nodes := InitLevels(col, values);
    NoMoreRows(p, drawn);
    forall d, i | 0 <= d < |rows| && 0 <= i < |rows[d]| ensures RedrawnAt(rows, order, drawn, nodes, d, i) {
      RedrawnCell(rows, order, values, drawn, nodes, d, i);
    }
  }

  /** The drawn levels end with the rows, and none has more cells. */
  lemma NoMoreRows(p: Shape, drawn: seq<seq<nat>>)
    requires ShapeOk(p) && RowsOk(LevelsOf(Table(p)), drawn)
    ensures |drawn| <= |p| && forall d :: 0 <= d < |drawn| ==> |drawn[d]| == |p[d]|
  {
    hide Preorder, Table;
    var l := Table(p);
    var col := LevelsOf(l);
    LevelsInside(p);
    if drawn != [] {
      var last := |drawn| - 1;
      assert RowOf(col, drawn, last);
      assert col[drawn[last][0]] == last;
    }
    forall d | 0 <= d < |drawn| ensures |drawn[d]| == |p[d]| {
      assert RowOf(col, drawn, d);
      TableRows(p, d);
      WhereCells(l, d);
    }
  }

  lemma LevelsInside(p: Shape)
    ensures forall t :: 0 <= t < |Table(p)| ==> Table(p)[t].0 < |p|
  {
    LevelsFrom(p, 0, 0, 1);
  }

  lemma RedrawnCell(rows: seq<Row>, order: seq<(nat, nat)>, values: seq<int>, drawn: seq<seq<nat>>, nodes: seq<Built>, d: nat, i: nat)
    requires GraphOk(rows) && ShapeOk(ShapeOf(rows)) && order == Table(ShapeOf(rows)) && d < |rows| && i < |rows[d]|
    requires RowsOk(LevelsOf(order), drawn) && |nodes| == |order| == |values|
    requires forall t :: 0 <= t < |order| ==> order[t].0 < |rows| && order[t].1 < |rows[order[t].0]|
    requires forall t :: 0 <= t < |order| ==> values[t] == rows[order[t].0][order[t].1].Width()
    requires forall t :: 0 <= t < |nodes| ==> BuiltOk(LevelsOf(order), values, nodes, t)
    ensures RedrawnAt(rows, order, drawn, nodes, d, i)
  {
    hide Where, RowsOk, ShapeOk, GraphOk, ShapeOf, Table, Holder, Start;
    var p := ShapeOf(rows);
    RebuiltRow(p, drawn, d, i);
    var t := drawn[d][i];
    assert BuiltOk(LevelsOf(order), values, nodes, t);
    if d > 0 {
      ShapeRow(rows, d);
      if t == 0 { RootFirst(p); }
      RebuiltParent(p, drawn, d, i, nodes[t].parent);
    } else {
      RootOnly(p, t);
    }
  }

  lemma RootFirst(p: Shape)
    requires ShapeOk(p)
    ensures Table(p) != [] && Table(p)[0] == (0, 0)
  {
    NothingBeyond(p, 0, 1);
  }

  lemma RootOnly(p: Shape, t: nat)
    requires ShapeOk(p) && t < |Table(p)| && Table(p)[t].0 == 0
    ensures t == 0
  {
    if t > 0 { OnlyOneRoot(p, t); }
  }

  ghost predicate CellsOf(levels: seq<seq<int>>, rows: seq<Row>, diff: bool) {
    |rows| == |levels| && forall n :: 0 <= n < |rows| ==> EncodeAll(rows[n], diff) == levels[n] && AllPlain(rows[n], diff)
  }

  ghost predicate AllPlain(row: Row, diff: bool) {
    diff || forall i :: 0 <= i < |row| ==> PlainCell(row[i])
  }

  lemma SuffixSame(x: seq<int>, u: seq<int>, y: seq<int>, v: seq<int>)
    requires x + u == y + v && |u| == |v|
    ensures x == y && u == v
  {
    assert |x| == |y|;
    assert x == (x + u)[..|x|] && y == (y + v)[..|y|];
    assert u == (x + u)[|x|..] && v == (y + v)[|y|..];
  }

  /** Two rows with the same numbers are the same. */
  lemma {:induction false} OneDecoding(a: Row, b: Row, diff: bool)
    requires EncodeAll(a, diff) == EncodeAll(b, diff) && AllPlain(a, diff) && AllPlain(b, diff)
    ensures a == b
  {
    hide *;
    if a != [] && b != [] {
      var m, n := |a| - 1, |b| - 1;
      LastEncoded(a, diff);
      LastEncoded(b, diff);
      SuffixSame(EncodeAll(a[..m], diff), Encode(a[m], diff), EncodeAll(b[..n], diff), Encode(b[n], diff));
      OneDecoding(a[..m], b[..n], diff);
      OneCell(a[m], b[n], diff);
      assert a == a[..m] + [a[m]] && b == b[..n] + [b[n]];
    } else {
      EncodedLength(a, diff);
      EncodedLength(b, diff);
      SameCount(|a|, |b|, diff);
    }
  }

  lemma SameCount(m: nat, n: nat, diff: bool)
    requires Fields(diff) * m == Fields(diff) * n
    ensures m == n
  {
    if diff { assert 7 * m == 7 * n; } else { assert 4 * m == 4 * n; }
  }

  lemma LastEncoded(a: Row, diff: bool)
    requires a != [] && AllPlain(a, diff)
    ensures var m := |a| - 1; EncodeAll(a, diff) == EncodeAll(a[..m], diff) + Encode(a[m], diff)
    ensures AllPlain(a[..|a| - 1], diff) && (diff || PlainCell(a[|a| - 1]))
  {
  }

  lemma OneCell(c: Cell, d: Cell, diff: bool)
    requires Encode(c, diff) == Encode(d, diff) && (diff || (PlainCell(c) && PlainCell(d)))
    ensures c == d
  {
    var x, y := Encode(c, diff), Encode(d, diff);
    assert x[0] == y[0] && x[1] == y[1] && x[2] == y[2] && x[3] == y[3];
    if diff { assert x[4] == y[4] && x[5] == y[5] && x[6] == y[6]; }
  }

  lemma {:induction false} EncodedLength(cells: Row, diff: bool)
    ensures |EncodeAll(cells, diff)| == Fields(diff) * |cells|
  {
    if cells != [] { EncodedLength(cells[..|cells| - 1], diff); }
  }

  // What the numbers of a row say of its cell i: in a comparison both halves count.

  function WidthAt(e: seq<int>, diff: bool, i: nat): int
    requires |e| >= Fields(diff) * (i + 1)
  {
    if diff then e[7 * i + 1] + e[7 * i + 4] else e[4 * i + 1]
  }

  function OffsetAt(e: seq<int>, diff: bool, i: nat): int
    requires |e| >= Fields(diff) * (i + 1)
  {
    if diff then e[7 * i] + e[7 * i + 3] else e[4 * i]
  }

  /** Where cell i begins: its own offset after everything that stands before it. */
  function StartAt(e: seq<int>, diff: bool, i: nat): int
    requires |e| >= Fields(diff) * (i + 1)
  {
    OffsetAt(e, diff, i) + if i == 0 then 0 else StartAt(e, diff, i - 1) + WidthAt(e, diff, i - 1)
  }

  predicate HoldsAt(e: seq<int>, diff: bool, q: nat, x: int)
    requires |e| >= Fields(diff) * (q + 1)
  {
    StartAt(e, diff, q) <= x < StartAt(e, diff, q) + WidthAt(e, diff, q)
  }

  /** A node has the width its numbers give, and hangs below the first cell above that holds the
      place where its numbers let it begin. */
  ghost predicate NumbersAt(levels: seq<seq<int>>, diff: bool, drawn: seq<seq<nat>>, nodes: seq<Built>, d: nat, i: nat)
    requires d < |drawn| && i < |drawn[d]| && SameRows(levels, diff, drawn)
  {
    && drawn[d][i] < |nodes| && nodes[drawn[d][i]].value == WidthAt(levels[d], diff, i)
    && (d > 0 ==> Hangs(levels[d - 1], diff, drawn[d - 1], nodes[drawn[d][i]].parent, StartAt(levels[d], diff, i)))
  }

  ghost predicate Hangs(e: seq<int>, diff: bool, above: seq<nat>, parent: int, x: int)
    requires |e| == Fields(diff) * |above|
  {
    exists q: nat :: q < |above| && parent == above[q] && FirstHolder(e, diff, q, x)
  }

  ghost predicate FirstHolder(e: seq<int>, diff: bool, q: nat, x: int)
    requires |e| >= Fields(diff) * (q + 1)
  {
    HoldsAt(e, diff, q, x) && forall k: nat :: k < q ==> !HoldsAt(e, diff, k, x)
  }

  /** As many nodes in every row as it has cells, and no cells beyond the last row drawn. */
  ghost predicate SameRows(levels: seq<seq<int>>, diff: bool, drawn: seq<seq<nat>>) {
    && |drawn| <= |levels| && (forall n :: 0 <= n < |drawn| ==> |levels[n]| == Fields(diff) * |drawn[n]|)
    && forall n :: |drawn| <= n < |levels| ==> levels[n] == []
  }

  ghost predicate NumbersDrawn(levels: seq<seq<int>>, diff: bool, drawn: seq<seq<nat>>, nodes: seq<Built>) {
    && SameRows(levels, diff, drawn)
    && forall d, i :: 0 <= d < |drawn| && 0 <= i < |drawn[d]| ==> NumbersAt(levels, diff, drawn, nodes, d, i)
  }

  lemma {:induction false} NumbersOfCell(a: Row, diff: bool, i: nat)
    requires i < |a| && AllPlain(a, diff)
    ensures |EncodeAll(a, diff)| == Fields(diff) * |a|
    ensures WidthAt(EncodeAll(a, diff), diff, i) == a[i].Width() && OffsetAt(EncodeAll(a, diff), diff, i) == a[i].Offset()
    decreases |a|
  {
    hide EncodeAll, AllPlain;
    LastEncoded(a, diff);
    var m := |a| - 1;
    EncodedLength(a, diff);
    EncodedLength(a[..m], diff);
    if i < m { NumbersOfCell(a[..m], diff, i); }
  }

  lemma {:induction false} StartOfCell(a: Row, diff: bool, i: nat)
    requires i < |a| && AllPlain(a, diff)
    ensures |EncodeAll(a, diff)| == Fields(diff) * |a| && StartAt(EncodeAll(a, diff), diff, i) == Start(a, i)
  {
    hide EncodeAll, AllPlain, WidthAt, OffsetAt;
    NumbersOfCell(a, diff, i);
    if i > 0 {
      StartOfCell(a, diff, i - 1);
      NumbersOfCell(a, diff, i - 1);
    }
  }

  lemma HolderOfNumbers(a: Row, diff: bool, x: int)
    requires AllPlain(a, diff) && Holder(a, x, 0) < |a|
    ensures |EncodeAll(a, diff)| == Fields(diff) * |a| && FirstHolder(EncodeAll(a, diff), diff, Holder(a, x, 0), x)
  {
    hide EncodeAll, AllPlain, WidthAt, OffsetAt, StartAt, Start;
    EncodedLength(a, diff);
    forall k: nat | k < |a| ensures HoldsAt(EncodeAll(a, diff), diff, k, x) == Holds(a, k, x) {
      StartOfCell(a, diff, k);
      NumbersOfCell(a, diff, k);
    }
  }

  lemma CellDrawn(levels: seq<seq<int>>, diff: bool, rows: seq<Row>, order: seq<(nat, nat)>, drawn: seq<seq<nat>>, nodes: seq<Built>, d: nat, i: nat)
    requires CellsOf(levels, rows, diff) && GraphOk(rows) && SameRows(levels, diff, drawn) && d < |drawn| && i < |drawn[d]| == |rows[d]|
    requires RedrawnAt(rows, order, drawn, nodes, d, i)
    ensures NumbersAt(levels, diff, drawn, nodes, d, i)
  {
    hide EncodeAll, AllPlain, WidthAt, OffsetAt, StartAt, Start, FirstHolder;
    assert EncodeAll(rows[d], diff) == levels[d] && AllPlain(rows[d], diff);
    NumbersOfCell(rows[d], diff, i);
    if d > 0 {
      assert EncodeAll(rows[d - 1], diff) == levels[d - 1] && AllPlain(rows[d - 1], diff);
      StartOfCell(rows[d], diff, i);
      GraphRow(rows, d);
      HolderOfNumbers(rows[d - 1], diff, Start(rows[d], i));
    }
  }

  /** What is drawn can be said of the numbers alone. */
  lemma DrawnByNumbers(levels: seq<seq<int>>, diff: bool, rows: seq<Row>, order: seq<(nat, nat)>, drawn: seq<seq<nat>>, nodes: seq<Built>)
    requires CellsOf(levels, rows, diff) && GraphOk(rows) && Redrawn(rows, order, drawn, nodes)
    ensures NumbersDrawn(levels, diff, drawn, nodes)
  {
    hide EncodeAll, AllPlain, GraphOk, RedrawnAt, NumbersAt;
    forall n | 0 <= n < |levels| ensures |levels[n]| == Fields(diff) * |rows[n]| && (n >= |drawn| ==> rows[n] == []) {
      assert EncodeAll(rows[n], diff) == levels[n];
      EncodedLength(rows[n], diff);
      if n >= |drawn| && rows[n] != [] { BeyondDrawn(rows, order, drawn, nodes, n); }
    }
    forall d, i | 0 <= d < |drawn| && 0 <= i < |drawn[d]| ensures NumbersAt(levels, diff, drawn, nodes, d, i) {
      CellDrawn(levels, diff, rows, order, drawn, nodes, d, i);
    }
  }

  lemma BeyondDrawn(rows: seq<Row>, order: seq<(nat, nat)>, drawn: seq<seq<nat>>, nodes: seq<Built>, n: nat)
    requires Redrawn(rows, order, drawn, nodes) && n < |rows| && rows[n] != []
    ensures n < |drawn|
  {
    assert RedrawnAt(rows, order, drawn, nodes, n, 0);
  }

  /** The whole way: a profile's levels of numbers are decoded, and what is drawn are their cells.
      `rows` are the cells they were made of. */
  method RedrawProfile(levels: seq<seq<int>>, diff: bool, ghost rows: seq<Row>)
    returns (order: seq<(nat, nat)>, values: seq<int>, drawn: seq<seq<nat>>, nodes: seq<Built>)
    requires CellsOf(levels, rows, diff) && GraphOk(rows)
    ensures Redrawn(rows, order, drawn, nodes) && NumbersDrawn(levels, diff, drawn, nodes)
    ensures |nodes| == |order| == |values| && forall t :: 0 <= t < |nodes| ==> BuiltOk(LevelsOf(order), values, nodes, t)
    ensures forall t :: 0 <= t < |order| ==> order[t].0 < |rows| && order[t].1 < |rows[order[t].0]|
    ensures forall s, t :: 0 <= s < t < |order| ==> order[s] != order[t]
  {
    hide EncodeAll, Redrawn, GraphOk, AllPlain;
    var decoded: seq<Row> := [];
    for n := 0 to |levels|
      invariant decoded == rows[..n]
    {
      assert EncodeAll(rows[n], diff) == levels[n] && AllPlain(rows[n], diff);
      EncodedLength(rows[n], diff);
      var row := Decode(levels[n], diff, |rows[n]|);
      DecodedPlain(row, diff);
      OneDecoding(row, rows[n], diff);
      decoded := decoded + [row];
    }
    assert decoded == rows;
    order, values, drawn, nodes := Redraw(decoded);
    DrawnByNumbers(levels, diff, rows, order, drawn, nodes);
  }

  lemma DecodedPlain(row: Row, diff: bool)
    requires diff || forall i :: 0 <= i < |row| ==> PlainCell(row[i])
    ensures AllPlain(row, diff)
  {
  }
}
