/**
 Balancing of syntax trees: long runs of children are grouped under anonymous nodes, and anonymous
 nodes that have grown too large are taken apart again.  No real node moves.
 */
module Balance {

  datatype Kind = Kind(id: nat, anonymous: bool)

  /** The type of nodes that only group others. */
  const NONE := Kind(0, true)

  /** A tree with its children at positions relative to its own, or a packed buffer of nodes. */
  datatype Node =
    | Tree(kind: Kind, children: seq<Node>, positions: seq<int>, length: int)
    | Buffer(kind: Kind, data: seq<int>, length: int)

  const BRANCH := 8

  ghost predicate WellFormed(node: Node) {
    node.Tree? ==> |node.children| == |node.positions| && forall i :: 0 <= i < |node.children| ==> WellFormed(node.children[i])
  }

  ghost predicate AllFormed(nodes: seq<Node>) {
    forall i :: 0 <= i < |nodes| ==> WellFormed(nodes[i])
  }

  /** What lies under groups of the given type, in order, with absolute positions: the nodes a
      reader of the tree sees. */
  ghost function Atoms(t: Kind, node: Node, at: int): seq<(Node, int)>
    requires WellFormed(node)
    decreases node, 0
  {
    if node.Tree? && node.kind == t then AtomsUnder(t, node, at, |node.children|) else [(node, at)]
  }

  ghost function AtomsUnder(t: Kind, node: Node, at: int, n: nat): seq<(Node, int)>
    requires WellFormed(node) && node.Tree? && n <= |node.children|
    decreases node, 0, n
  {
    if n == 0 then [] else AtomsUnder(t, node, at, n - 1) + Atoms(t, node.children[n - 1], at + node.positions[n - 1])
  }

  /** The same for a run of siblings. */
  ghost function AtomsOf(t: Kind, nodes: seq<Node>, positions: seq<int>, at: int): seq<(Node, int)>
    requires |nodes| == |positions| && AllFormed(nodes)
  {
    if nodes == [] then [] else
      var n := |nodes| - 1;
      AtomsOf(t, nodes[..n], positions[..n], at) + Atoms(t, nodes[n], at + positions[n])
  }

  lemma {:induction false} UnderIsOf(t: Kind, node: Node, at: int, n: nat)
    requires WellFormed(node) && node.Tree? && n <= |node.children|
    ensures AtomsUnder(t, node, at, n) == AtomsOf(t, node.children[..n], node.positions[..n], at)
  {
    if n > 0 {
      UnderIsOf(t, node, at, n - 1);
      assert node.children[..n][..n - 1] == node.children[..n - 1] && node.positions[..n][..n - 1] == node.positions[..n - 1];
    }
  }

  /** A group stands for its children. */
  lemma GroupAtoms(t: Kind, node: Node, at: int)
    requires WellFormed(node) && node.Tree? && node.kind == t
    ensures Atoms(t, node, at) == AtomsOf(t, node.children, node.positions, at)
  {
    UnderIsOf(t, node, at, |node.children|);
    assert node.children[..|node.children|] == node.children && node.positions[..|node.children|] == node.positions;
  }

  lemma {:induction false} AtomsJoin(t: Kind, a: seq<Node>, p: seq<int>, b: seq<Node>, q: seq<int>, at: int)
    requires |a| == |p| && |b| == |q| && AllFormed(a) && AllFormed(b)
    ensures AllFormed(a + b) && AtomsOf(t, a + b, p + q, at) == AtomsOf(t, a, p, at) + AtomsOf(t, b, q, at)
  {
    if b == [] {
      assert a + b == a && p + q == p;
    } else {
      var n := |b| - 1;
      AtomsJoin(t, a, p, b[..n], q[..n], at);
      assert (a + b)[..|a| + n] == a + b[..n] && (p + q)[..|a| + n] == p + q[..n];
    }
  }

  // -------- sizes ----------------------------------------------------------------------

  /** How many nodes count as groups under this one, itself included. */
  function Size(t: Kind, node: Node): (r: nat)
    ensures r >= 1
    ensures r > 1 ==> node.Tree? && node.kind == t
    decreases node, 0
  {
    if !t.anonymous || node.Buffer? || node.kind != t then 1
    else SizeUnder(t, node, |node.children|)
  }

  /** Counting stops, at one, at a child that is not such a group. */
  function SizeUnder(t: Kind, node: Node, n: nat): (r: nat)
    requires node.Tree? && n <= |node.children|
    ensures r >= 1
    decreases node, 0, n
  {
    if exists i :: 0 <= i < |node.children| && (node.children[i].Buffer? || node.children[i].kind != t) then 1
    else if n == 0 then 1
    else SizeUnder(t, node, n - 1) + Size(t, node.children[n - 1])
  }

  function SizeSum(t: Kind, nodes: seq<Node>): (r: nat)
    ensures r >= |nodes|
  {
    if nodes == [] then 0 else SizeSum(t, nodes[..|nodes| - 1]) + Size(t, nodes[|nodes| - 1])
  }

  lemma SizeSumMore(t: Kind, nodes: seq<Node>, from: nat, to: nat)
    requires from <= to < |nodes|
    ensures SizeSum(t, nodes[from..to + 1]) == SizeSum(t, nodes[from..to]) + Size(t, nodes[to])
  {
    hide Size;
    OneLonger(nodes, from, to);
  }

  lemma OneLonger<U>(s: seq<U>, from: nat, to: nat)
    requires from <= to < |s|
    ensures s[from..to + 1] != [] && |s[from..to + 1]| - 1 == to - from
    ensures s[from..to + 1][..to - from] == s[from..to] && s[from..to + 1][to - from] == s[to]
  {
  }

  // -------- narrowness -----------------------------------------------------------------

  /** No sibling in the range is a group. */
  ghost predicate Plain(t: Kind, nodes: seq<Node>, from: nat, to: nat)
    requires to <= |nodes|
  {
    forall i :: from <= i < to ==> nodes[i].Buffer? || nodes[i].kind != t
  }

  /** Groups have at most ten children, and so have the groups among those. */
  ghost predicate Narrow(t: Kind, node: Node) {
    node.Tree? && node.kind == t ==> |node.children| <= 10 && forall i :: 0 <= i < |node.children| ==> Narrow(t, node.children[i])
  }

  ghost predicate AllNarrow(t: Kind, nodes: seq<Node>) {
    forall i :: 0 <= i < |nodes| ==> Narrow(t, nodes[i])
  }

  lemma PlainPart(t: Kind, nodes: seq<Node>, from: nat, to: nat, s: nat, l: nat)
    requires from <= s < l <= to <= |nodes| && Plain(t, nodes, from, to)
    ensures Plain(t, nodes, s, l) && Plain(t, nodes, s, to) && Narrow(t, nodes[s]) && !(nodes[s].Tree? && nodes[s].kind == t)
  {
  }

  lemma NarrowMore(t: Kind, nodes: seq<Node>, node: Node)
    requires AllNarrow(t, nodes) && Narrow(t, node)
    ensures AllNarrow(t, nodes + [node])
  {
  }

  lemma NarrowGroup(t: Kind, node: Node)
    requires node.Tree? && |node.children| <= 10 && AllNarrow(t, node.children)
    ensures Narrow(t, node)
  {
  }

  /** How many plain siblings go into a group. */
  function Width(max: nat): (r: nat)
    ensures r >= 1
  {
    if max > 2 then max - 1 else 1
  }

  lemma {:induction false} PlainSize(t: Kind, nodes: seq<Node>, from: nat, to: nat)
    requires from <= to <= |nodes| && Plain(t, nodes, from, to)
    ensures SizeSum(t, nodes[from..to]) == to - from
  {
    if from < to {
      PlainSize(t, nodes, from, to - 1);
      SizeSumMore(t, nodes, from, to - 1);
    }
  }

  /** Whole groups so far, or all of the n siblings in groups of which only the last may be short. */
  ghost predicate Portioned(made: int, done: nat, n: nat, width: nat) {
    made >= 0 && (made * width == done || (done == n && (made - 1) * width < done))
  }

  lemma NoPortion(n: nat, width: nat)
    ensures Portioned(0, 0, n, width)
  {
  }

  lemma PortionMore(made: int, done: nat, n: nat, width: nat, more: nat)
    requires Portioned(made, done, n, width) && done < n && done + more <= n && 1 <= more
    requires more == width || (done + more == n && more < width)
    ensures Portioned(made + 1, done + more, n, width)
  {
    assert (made + 1) * width == made * width + width;
  }

  lemma AtMostTen(made: nat, n: nat, max: nat)
    requires n >= 1 && max == Largest(n) && Portioned(made, n, n, Width(max))
    ensures made <= 10
  {
    var w := Width(max);
    assert (made - 1) * w == made * w - w;
    if made >= 11 { Product(made - 1, w); }
  }

  lemma Product(a: nat, w: nat)
    requires a >= 10
    ensures a * w >= 10 * w
  {
  }

  // -------- shares ---------------------------------------------------------------------

  /** How many nodes a reader sees of this one. */
  ghost function Count(t: Kind, node: Node): nat
    requires WellFormed(node)
  {
    |Atoms(t, node, 0)|
  }

  lemma {:induction false} AtomsMoved(t: Kind, node: Node, a: int, b: int)
    requires WellFormed(node)
    ensures |Atoms(t, node, a)| == |Atoms(t, node, b)|
    decreases node, 0
  {
    if node.Tree? && node.kind == t { UnderMoved(t, node, a, b, |node.children|); }
  }

  lemma {:induction false} UnderMoved(t: Kind, node: Node, a: int, b: int, n: nat)
    requires WellFormed(node) && node.Tree? && n <= |node.children|
    ensures |AtomsUnder(t, node, a, n)| == |AtomsUnder(t, node, b, n)|
    decreases node, 0, n
  {
    if n > 0 {
      UnderMoved(t, node, a, b, n - 1);
      AtomsMoved(t, node.children[n - 1], a + node.positions[n - 1], b + node.positions[n - 1]);
    }
  }

  /** Of plain siblings a reader sees each. */
  lemma {:induction false} PlainAtoms(t: Kind, nodes: seq<Node>, positions: seq<int>, from: nat, to: nat, at: int)
    requires from <= to <= |nodes| == |positions| && AllFormed(nodes) && Plain(t, nodes, from, to)
    ensures |AtomsOf(t, nodes[from..to], positions[from..to], at)| == to - from
  {
    if from < to {
      PlainAtoms(t, nodes, positions, from, to - 1, at);
      OneLonger(nodes, from, to - 1);
      OneLonger(positions, from, to - 1);
    }
  }

  /** At most three sixteenths of n, or one alone. */
  ghost predicate SomeShare(k: nat, n: nat) {
    k >= 1 && (k == 1 || 16 * k < 3 * n)
  }

  /** And no greater number would be. */
  ghost predicate FullShare(k: nat, n: nat) {
    SomeShare(k, n) && 16 * (k + 1) >= 3 * n
  }

  /** Siblings under which n nodes are seen: each holds a share, and all but the last a full one. */
  ghost predicate Shared(t: Kind, nodes: seq<Node>, n: nat)
    requires AllFormed(nodes)
  {
    && (forall i :: 0 <= i < |nodes| ==> SomeShare(Count(t, nodes[i]), n))
    && (forall i :: 0 <= i < |nodes| - 1 ==> FullShare(Count(t, nodes[i]), n))
  }

  /** A group holds more than one node, its children share them, and so in the groups below it. */
  ghost predicate Even(t: Kind, node: Node)
    requires WellFormed(node)
  {
    node.Tree? && node.kind == t ==>
      Count(t, node) >= 2 && Shared(t, node.children, Count(t, node)) && forall i :: 0 <= i < |node.children| ==> Even(t, node.children[i])
  }

  ghost predicate AllEven(t: Kind, nodes: seq<Node>)
    requires AllFormed(nodes)
  {
    forall i :: 0 <= i < |nodes| ==> Even(t, nodes[i])
  }

  /** From the k-th on, the siblings hold w nodes each; only the last may hold fewer, once all n
      siblings are done. */
  ghost predicate Portions(t: Kind, nodes: seq<Node>, k: nat, w: nat, all: bool)
    requires AllFormed(nodes)
  {
    forall i :: k <= i < |nodes| ==> Portion(t, nodes[i], w, all && i == |nodes| - 1)
  }

  ghost predicate Portion(t: Kind, node: Node, w: nat, short: bool)
    requires WellFormed(node)
  {
    Even(t, node) && 1 <= Count(t, node) <= w && (short || Count(t, node) == w)
  }

  lemma PortionsMore(t: Kind, nodes: seq<Node>, k: nat, w: nat, node: Node, all: bool)
    requires AllFormed(nodes) && WellFormed(node) && AllFormed(nodes + [node]) && k <= |nodes|
    requires Portions(t, nodes, k, w, false) && Portion(t, node, w, all)
    ensures Portions(t, nodes + [node], k, w, all)
  {
    hide Portion, WellFormed;
    var more := nodes + [node];
    forall i | k <= i < |more| ensures Portion(t, more[i], w, all && i == |more| - 1) {
      if i < |nodes| { assert Portion(t, nodes[i], w, false && i == |nodes| - 1); LongPortion(t, nodes[i], w, all && i == |more| - 1); }
    }
  }

  lemma LongPortion(t: Kind, node: Node, w: nat, short: bool)
    requires WellFormed(node) && Portion(t, node, w, false)
    ensures Portion(t, node, w, short)
  {
  }

  /** Portions of the width for n siblings are shares of n. */
  lemma PortionsShare(t: Kind, nodes: seq<Node>, n: nat, max: nat)
    requires AllFormed(nodes) && n >= 1 && max == Largest(n) && Portions(t, nodes, 0, Width(max), true)
    ensures Shared(t, nodes, n) && AllEven(t, nodes)
  {
    hide Count, Even, Largest;
    LargestShare(n, max);
    forall i | 0 <= i < |nodes| ensures Even(t, nodes[i]) && SomeShare(Count(t, nodes[i]), n) && (i < |nodes| - 1 ==> FullShare(Count(t, nodes[i]), n)) {
      assert Portion(t, nodes[i], Width(max), true && i == |nodes| - 1);
    }
  }

  lemma LargestShare(n: nat, max: nat)
    requires n >= 1 && max == Largest(n)
    ensures FullShare(Width(max), n)
  {
    hide Largest;
  }

  /** A plain sibling left alone. */
  lemma LonePortion(t: Kind, node: Node, w: nat, short: bool)
    requires WellFormed(node) && !(node.Tree? && node.kind == t) && w >= 1 && (short || w == 1)
    ensures Portion(t, node, w, short)
  {
  }

  /** A group of plain siblings. */
  lemma GroupPortion(t: Kind, nodes: seq<Node>, positions: seq<int>, s: nat, l: nat, group: Node, at: int, w: nat, short: bool)
    requires s + 2 <= l <= |nodes| == |positions| && AllFormed(nodes) && Plain(t, nodes, s, l)
    requires WellFormed(group) && group.Tree? && group.kind == t && Shared(t, group.children, l - s) && AllEven(t, group.children)
    requires AtomsOf(t, group.children, group.positions, at) == AtomsOf(t, nodes[s..l], positions[s..l], at - positions[s])
    requires l - s <= w && (short || l - s == w)
    ensures Portion(t, group, w, short)
  {
    hide Shared, AtomsOf, Atoms;
    PlainAtoms(t, nodes, positions, s, l, at - positions[s]);
    GroupAtoms(t, group, at);
    AtomsMoved(t, group, at, 0);
  }

  // -------- depth ----------------------------------------------------------------------

  /** How many groups lie one within the other. */
  ghost function Depth(t: Kind, node: Node): nat
    requires WellFormed(node)
    decreases node, 0
  {
    if node.Tree? && node.kind == t then 1 + DepthUnder(t, node, |node.children|) else 0
  }

  ghost function DepthUnder(t: Kind, node: Node, n: nat): nat
    requires WellFormed(node) && node.Tree? && n <= |node.children|
    decreases node, 0, n
  {
    if n == 0 then 0
    else
      var a, b := DepthUnder(t, node, n - 1), Depth(t, node.children[n - 1]);
      if a >= b then a else b
  }

  function Pow5(n: nat): nat { if n == 0 then 1 else 5 * Pow5(n - 1) }

  /** A node that shares n nodes evenly is not deeper than the logarithm of n. */
  lemma {:induction false} DepthBound(t: Kind, node: Node, n: nat, k: nat)
    requires WellFormed(node) && node.Tree? && k <= |node.children| && n >= 1 && Shared(t, node.children, n) && AllEven(t, node.children)
    ensures Pow5(DepthUnder(t, node, k)) <= n
    decreases node, k
  {
    hide Count, Shared, AllEven;
    if k > 0 {
      DepthBound(t, node, n, k - 1);
      var child := node.children[k - 1];
      if child.Tree? && child.kind == t {
        ChildEven(t, node, n, k - 1);
        DepthBound(t, child, Count(t, child), |child.children|);
      }
    }
  }

  lemma ChildEven(t: Kind, node: Node, n: nat, i: nat)
    requires WellFormed(node) && node.Tree? && i < |node.children| && Shared(t, node.children, n) && AllEven(t, node.children)
    requires node.children[i].Tree? && node.children[i].kind == t
    ensures var child := node.children[i];
            WellFormed(child) && Count(t, child) >= 2 && 16 * Count(t, child) < 3 * n && Shared(t, child.children, Count(t, child)) && AllEven(t, child.children)
  {
    hide Count;
    assert Even(t, node.children[i]) && SomeShare(Count(t, node.children[i]), n);
  }

  // -------- extents --------------------------------------------------------------------

  /** Where the last of the siblings ends. */
  function EndOf(nodes: seq<Node>, positions: seq<int>): int
    requires |nodes| == |positions| > 0
  {
    positions[|nodes| - 1] + nodes[|nodes| - 1].length
  }

  /** A group begins where its first child does and ends where its last child ends, and so do the
      groups among its children. */
  ghost predicate Snug(t: Kind, node: Node) {
    node.Tree? && node.kind == t ==>
      && |node.children| == |node.positions| > 0 && node.positions[0] == 0 && node.length == EndOf(node.children, node.positions)
      && forall i :: 0 <= i < |node.children| ==> Snug(t, node.children[i])
  }

  ghost predicate AllSnug(t: Kind, nodes: seq<Node>) {
    forall i :: 0 <= i < |nodes| ==> Snug(t, nodes[i])
  }

  /** From the k-th on, the siblings lie between these two places. */
  ghost predicate Laid(nodes: seq<Node>, positions: seq<int>, k: nat, first: int, end: int) {
    |nodes| == |positions| && k < |nodes| && positions[k] == first && EndOf(nodes, positions) == end
  }

  /** The siblings from..l of `nodes`, moved by `shift`, have been put behind those of `before`. */
  ghost predicate Tidy(t: Kind, nodes: seq<Node>, positions: seq<int>, from: nat, l: nat, shift: int,
                       before: seq<Node>, places0: seq<int>, children: seq<Node>, places: seq<int>)
    requires from <= l <= |nodes| == |positions|
  {
    && |before| == |places0| && |children| == |places| && before <= children && places0 <= places
    && (l == from ==> children == before)
    && (AllSnug(t, nodes) && AllSnug(t, before) ==>
      && AllSnug(t, children)
      && (l > from ==> Laid(children, places, |before|, positions[from] + shift, positions[l - 1] + nodes[l - 1].length + shift)))
  }

  lemma TidyAtFirst(t: Kind, nodes: seq<Node>, positions: seq<int>, from: nat, shift: int, before: seq<Node>, places0: seq<int>)
    requires from <= |nodes| == |positions| && |before| == |places0|
    ensures Tidy(t, nodes, positions, from, from, shift, before, places0, before, places0)
  {
  }

  /** One node put behind, ending where the siblings s..l end. */
  lemma TidyMore(t: Kind, nodes: seq<Node>, positions: seq<int>, from: nat, s: nat, l: nat, shift: int,
                 before: seq<Node>, places0: seq<int>, children: seq<Node>, places: seq<int>, node: Node)
    requires from <= s < l <= |nodes| == |positions| && Tidy(t, nodes, positions, from, s, shift, before, places0, children, places)
    requires AllSnug(t, nodes) ==> Snug(t, node)
    requires positions[s] + node.length == positions[l - 1] + nodes[l - 1].length
    ensures Tidy(t, nodes, positions, from, l, shift, before, places0, children + [node], places + [positions[s] + shift])
  {
    hide Snug;
  }

  /** The children of a group put behind instead of the group. */
  lemma TidyApart(t: Kind, nodes: seq<Node>, positions: seq<int>, from: nat, s: nat, shift: int,
                  before: seq<Node>, places0: seq<int>, children: seq<Node>, places: seq<int>, more: seq<Node>, places2: seq<int>)
    requires from <= s < |nodes| == |positions| && Tidy(t, nodes, positions, from, s, shift, before, places0, children, places)
    requires nodes[s].Tree? && nodes[s].kind == t && |nodes[s].children| == |nodes[s].positions|
    requires Tidy(t, nodes[s].children, nodes[s].positions, 0, |nodes[s].children|, positions[s] + shift, children, places, more, places2)
    requires nodes[s].children != []
    ensures Tidy(t, nodes, positions, from, s + 1, shift, before, places0, more, places2)
  {
    assert before <= children <= more && places0 <= places <= places2;
    if AllSnug(t, nodes) && AllSnug(t, before) {
      assert Snug(t, nodes[s]);
      assert AllSnug(t, nodes[s].children);
    }
  }

  /** A group made of siblings is snug if they are. */
  lemma MadeSnug(t: Kind, node: Node)
    requires node.Tree? && AllSnug(t, node.children) && Laid(node.children, node.positions, 0, 0, node.length)
    ensures Snug(t, node)
  {
  }

  // -------- the algorithm --------------------------------------------------------------

  /** The size by the loop of the original. */
  method NodeSize(t: Kind, node: Node) returns (r: nat)
    ensures r == Size(t, node)
    decreases node
  {
    if !t.anonymous || node.Buffer? || node.kind != t { return 1; }
    r := 1;
    for k := 0 to |node.children|
      invariant forall i :: 0 <= i < k ==> node.children[i].Tree? && node.children[i].kind == t
      invariant (forall i :: 0 <= i < |node.children| ==> node.children[i].Tree? && node.children[i].kind == t) ==> r == SizeUnder(t, node, k)
    {
      var child := node.children[k];
      if child.kind != t || child.Buffer? { return 1; }
      var s := NodeSize(t, child);
      r := r + s;
    }
  }

  /** The siblings that are placed: those above the maximum are taken apart, as deep as needed. */
  ghost function PiecesOf(t: Kind, node: Node, max: nat): seq<Node>
    decreases node, 0
  {
    if Size(t, node) > max && node.Tree? then PiecesUnder(t, node, max, |node.children|) else [node]
  }

  ghost function PiecesUnder(t: Kind, node: Node, max: nat, n: nat): seq<Node>
    requires node.Tree? && n <= |node.children|
    decreases node, 0, n
  {
    if n == 0 then [] else PiecesUnder(t, node, max, n - 1) + PiecesOf(t, node.children[n - 1], max)
  }

  ghost function Pieces(t: Kind, nodes: seq<Node>, max: nat): seq<Node> {
    if nodes == [] then [] else Pieces(t, nodes[..|nodes| - 1], max) + PiecesOf(t, nodes[|nodes| - 1], max)
  }

  ghost function Joined(runs: seq<seq<Node>>): seq<Node> {
    if runs == [] then [] else Joined(runs[..|runs| - 1]) + runs[|runs| - 1]
  }

  /** A child is one piece, not above the maximum, or a group of several that together stay below it. */
  ghost predicate Placed(t: Kind, run: seq<Node>, child: Node, max: nat) {
    if |run| == 1 then child == run[0] && Size(t, child) <= max
    else |run| > 1 && child.Tree? && child.kind == t && SizeSum(t, run) < max
  }

  ghost predicate AllPlaced(t: Kind, runs: seq<seq<Node>>, children: seq<Node>, max: nat) {
    |runs| == |children| && forall i :: 0 <= i < |runs| ==> Placed(t, runs[i], children[i], max)
  }

  /** The children stand for all pieces in their order, each for a run of them. */
  ghost predicate Served(t: Kind, nodes: seq<Node>, children: seq<Node>, max: nat) {
    exists runs :: AllPlaced(t, runs, children, max) && Joined(runs) == Pieces(t, nodes, max)
  }

  lemma {:induction false} UnderPieces(t: Kind, node: Node, max: nat, n: nat)
    requires node.Tree? && n <= |node.children|
    ensures PiecesUnder(t, node, max, n) == Pieces(t, node.children[..n], max)
  {
    hide PiecesOf;
    if n > 0 {
      UnderPieces(t, node, max, n - 1);
      assert node.children[..n][..n - 1] == node.children[..n - 1];
    }
  }

  lemma PiecesApart(t: Kind, nodes: seq<Node>, from: nat, s: nat, max: nat)
    requires from <= s < |nodes| && Size(t, nodes[s]) > max && nodes[s].Tree?
    ensures Pieces(t, nodes[from..s + 1], max) == Pieces(t, nodes[from..s], max) + Pieces(t, nodes[s].children, max)
  {
    hide Size;
    assert nodes[from..s + 1][..s - from] == nodes[from..s];
    UnderPieces(t, nodes[s], max, |nodes[s].children|);
    assert nodes[s].children[..|nodes[s].children|] == nodes[s].children;
  }

  lemma {:induction false} PiecesWhole(t: Kind, nodes: seq<Node>, from: nat, s: nat, l: nat, max: nat)
    requires from <= s <= l <= |nodes| && (l == s + 1 ==> Size(t, nodes[s]) <= max) && (l > s + 1 ==> SizeSum(t, nodes[s..l]) <= max)
    ensures Pieces(t, nodes[from..l], max) == Pieces(t, nodes[from..s], max) + nodes[s..l]
    decreases l
  {
    hide *;
    if l == s {
      assert nodes[s..l] == [];
    } else {
      SizeSumMore(t, nodes, s, l - 1);
      SizeSumAt(t, nodes, s, l);
      if l > s + 1 { SizeSumAt(t, nodes, s, l - 1); }
      PiecesWhole(t, nodes, from, s, l - 1, max);
      PieceKept(t, nodes, from, l - 1, max);
      assert nodes[s..l] == nodes[s..l - 1] + [nodes[l - 1]];
    }
  }

  lemma PieceKept(t: Kind, nodes: seq<Node>, from: nat, l: nat, max: nat)
    requires from <= l < |nodes| && Size(t, nodes[l]) <= max
    ensures Pieces(t, nodes[from..l + 1], max) == Pieces(t, nodes[from..l], max) + [nodes[l]]
  {
    hide Size;
    assert nodes[from..l + 1][..l - from] == nodes[from..l];
  }

  lemma SizeSumAt(t: Kind, nodes: seq<Node>, s: nat, l: nat)
    requires s < l <= |nodes|
    ensures SizeSum(t, nodes[s..l]) >= 1 && (l == s + 1 ==> SizeSum(t, nodes[s..l]) == Size(t, nodes[s]))
  {
    hide Size;
    if l == s + 1 {
      assert nodes[s..l] == [nodes[s]] && nodes[s..l][..0] == [];
      assert SizeSum(t, []) == 0;
    }
  }

  lemma PlacedMore(t: Kind, runs: seq<seq<Node>>, children: seq<Node>, run: seq<Node>, child: Node, max: nat)
    requires AllPlaced(t, runs, children, max) && Placed(t, run, child, max)
    ensures AllPlaced(t, runs + [run], children + [child], max) && Joined(runs + [run]) == Joined(runs) + run
  {
    hide Placed;
    assert (runs + [run])[..|runs|] == runs;
  }

  lemma {:induction false} JoinedTwo(a: seq<seq<Node>>, b: seq<seq<Node>>)
    ensures Joined(a + b) == Joined(a) + Joined(b)
    decreases |b|
  {
    if b == [] {
      assert a + b == a;
    } else {
      assert (a + b)[..|a + b| - 1] == a + b[..|b| - 1];
      JoinedTwo(a, b[..|b| - 1]);
    }
  }

  /** What a node taken apart adds. */
  lemma PlacedApart(t: Kind, before: seq<Node>, children1: seq<Node>, children: seq<Node>, runs: seq<seq<Node>>, more: seq<seq<Node>>, max: nat)
    requires before <= children1 <= children && AllPlaced(t, runs, children1[|before|..], max) && AllPlaced(t, more, children[|children1|..], max)
    ensures before <= children && AllPlaced(t, runs + more, children[|before|..], max) && Joined(runs + more) == Joined(runs) + Joined(more)
  {
    hide *;
    JoinedTwo(runs, more);
    assert children[|before|..] == children1[|before|..] + children[|children1|..];
    PlacedJoin(t, runs, children1[|before|..], more, children[|children1|..], max);
  }

  lemma PlacedJoin(t: Kind, runs: seq<seq<Node>>, a: seq<Node>, more: seq<seq<Node>>, b: seq<Node>, max: nat)
    requires AllPlaced(t, runs, a, max) && AllPlaced(t, more, b, max)
    ensures AllPlaced(t, runs + more, a + b, max)
  {
    hide Placed;
    forall i | 0 <= i < |runs + more| ensures Placed(t, (runs + more)[i], (a + b)[i], max) {
      if i >= |runs| {
        var k := i - |runs|;
        assert (runs + more)[i] == more[k] && (a + b)[i] == b[k];
      }
    }
  }

  lemma NothingPlaced(t: Kind, nodes: seq<Node>, from: nat, before: seq<Node>, max: nat)
    requires from <= |nodes|
    ensures AllPlaced(t, [], before[|before|..], max) && Joined([]) == Pieces(t, nodes[from..from], max) == []
  {
    assert nodes[from..from] == [];
  }

  lemma PlacedAlone(t: Kind, node: Node, max: nat)
    requires Size(t, node) <= max
    ensures Placed(t, [node], node, max)
  {
  }

  lemma PlacedGroup(t: Kind, run: seq<Node>, group: Node, max: nat)
    requires |run| > 1 && group.Tree? && group.kind == t && SizeSum(t, run) < max
    ensures Placed(t, run, group, max)
  {
  }

  lemma AllServed(t: Kind, nodes: seq<Node>, children: seq<Node>, max: nat, runs: seq<seq<Node>>)
    requires AllPlaced(t, runs, children, max) && Joined(runs) == Pieces(t, nodes, max)
    ensures Served(t, nodes, children, max)
  {
  }

  /** The greatest size of what is placed alone: three sixteenths of all, rounded up. */
  ghost predicate ServedFairly(t: Kind, nodes: seq<Node>, children: seq<Node>) {
    exists max: nat :: 16 * (max - 1) < 3 * SizeSum(t, nodes) <= 16 * max && Served(t, nodes, children, max)
  }

  /** Group the siblings from..to under a node of type `made` at `start`. */
  method BalanceRange(t: Kind, nodes: seq<Node>, positions: seq<int>, from: nat, to: nat, start: int, length: int, made: Kind, ghost at: int)
    returns (node: Node)
    requires from < to <= |nodes| == |positions| && AllFormed(nodes)
    ensures WellFormed(node) && node.Tree? && node.kind == made && node.length == length
    ensures AtomsOf(t, node.children, node.positions, at) == AtomsOf(t, nodes[from..to], positions[from..to], at - start)
    ensures Plain(t, nodes, from, to) ==> |node.children| <= 10 && AllNarrow(t, node.children)
    ensures Plain(t, nodes, from, to) ==> Shared(t, node.children, to - from) && AllEven(t, node.children)
    ensures ServedFairly(t, nodes[from..to], node.children)
    ensures AllSnug(t, nodes) ==> AllSnug(t, node.children)
    ensures AllSnug(t, nodes) ==> Laid(node.children, node.positions, 0, positions[from] - start, positions[to - 1] + nodes[to - 1].length - start)
    decreases SizeSum(t, nodes[from..to]), 1
  {
    hide *;
    assert nodes[from..from] == [];
    NoSize(t);
    var total := 0;
    for r := from to to
      invariant total == SizeSum(t, nodes[from..r])
    {
      var s := NodeSize(t, nodes[r]);
      SizeSumMore(t, nodes, from, r);
      total := total + s;
    }
    SizesCount(t, nodes[from..to]);
    var max := Largest(total);
    NoneThere(t);
    ghost var runs;
    var children, places;
    children, places, runs := Divide(t, nodes, positions, from, to, 0, start, max, [], [], at, total);
    assert children[0..] == children;
    AllServed(t, nodes[from..to], children, max, runs);
    assert ServedFairly(t, nodes[from..to], children) by { FairlyServed(t, nodes[from..to], children, max); }
    node := Tree(made, children, places, length);
    FormedTree(node);
    WholeDivided(t, nodes, positions, from, to, -start, at, max, children, places);
    if Plain(t, nodes, from, to) {
      PlainSize(t, nodes, from, to);
      AtMostTen(|children|, total, max);
      PortionsShare(t, children, total, max);
    }
  }

  lemma WholeDivided(t: Kind, nodes: seq<Node>, positions: seq<int>, from: nat, to: nat, shift: int, at: int, max: nat, children: seq<Node>, places: seq<int>)
    requires from < to <= |nodes| == |positions| && AllFormed(nodes) && AllFormed([])
    requires Divided(t, nodes, positions, from, to, to, shift, at, max, [], [], children, places)
    ensures |children| == |places| && AllFormed(children)
    ensures AtomsOf(t, children, places, at) == AtomsOf(t, nodes[from..to], positions[from..to], at + shift)
    ensures Plain(t, nodes, from, to) ==> Portioned(|children|, to - from, to - from, Width(max)) && AllNarrow(t, children)
    ensures Plain(t, nodes, from, to) ==> Portions(t, children, 0, Width(max), true)
    ensures AllSnug(t, nodes) ==> AllSnug(t, children) && Laid(children, places, 0, positions[from] + shift, positions[to - 1] + nodes[to - 1].length + shift)
  {
    hide Atoms, Portioned, Width, Plain, AllNarrow, Tidy, AllSnug, Laid, Snug, Portions;
    NoAtoms(t, at);
    NoneThere(t);
    if AllSnug(t, nodes) { TidyWhole(t, nodes, positions, from, to, shift, children, places); }
  }

  /** The largest size of a group: three sixteenths of the whole, rounded up. */
  function Largest(total: nat): (max: nat)
    ensures total >= 1 ==> 1 <= max <= total
    ensures total >= 1 ==> 16 * (max - 1) < 3 * total <= 16 * max
  {
    (3 * total + 2 * BRANCH - 1) / (2 * BRANCH)
  }

  lemma FairlyServed(t: Kind, nodes: seq<Node>, children: seq<Node>, max: nat)
    requires Served(t, nodes, children, max) && 16 * (max - 1) < 3 * SizeSum(t, nodes) <= 16 * max
    ensures ServedFairly(t, nodes, children)
  {
    hide Served, SizeSum;
  }

  lemma NoSize(t: Kind)
    ensures SizeSum(t, []) == 0
  {
  }

  lemma SizesCount(t: Kind, nodes: seq<Node>)
    ensures SizeSum(t, nodes) >= |nodes|
  {
  }

  lemma FormedTree(node: Node)
    requires node.Tree? && |node.children| == |node.positions| && AllFormed(node.children)
    ensures WellFormed(node)
  {
  }

  lemma NoneThere(t: Kind)
    ensures AllFormed([]) && AllNarrow(t, []) && AllSnug(t, [])
  {
  }

  lemma TidyWhole(t: Kind, nodes: seq<Node>, positions: seq<int>, from: nat, to: nat, shift: int, children: seq<Node>, places: seq<int>)
    requires from < to <= |nodes| == |positions| && Tidy(t, nodes, positions, from, to, shift, [], [], children, places) && AllSnug(t, nodes)
    ensures AllSnug(t, children) && Laid(children, places, 0, positions[from] + shift, positions[to - 1] + nodes[to - 1].length + shift)
  {
  }

  lemma NoAtoms(t: Kind, at: int)
    ensures AtomsOf(t, [], [], at) == []
  {
  }

  lemma Single(t: Kind, node: Node, position: int, at: int)
    requires WellFormed(node)
    ensures AtomsOf(t, [node], [position], at) == Atoms(t, node, at + position)
  {
    assert AtomsOf(t, [], [], at) == [];
  }

  lemma Appended(t: Kind, nodes: seq<Node>, places: seq<int>, node: Node, place: int, at: int)
    requires |nodes| == |places| && AllFormed(nodes) && WellFormed(node)
    ensures AllFormed(nodes + [node])
    ensures AtomsOf(t, nodes + [node], places + [place], at) == AtomsOf(t, nodes, places, at) + Atoms(t, node, at + place)
  {
    AtomsJoin(t, nodes, places, [node], [place], at);
    Single(t, node, place, at);
  }

  lemma RunJoin(t: Kind, nodes: seq<Node>, positions: seq<int>, from: nat, s: nat, l: nat, at: int)
    requires from <= s <= l <= |nodes| == |positions| && AllFormed(nodes)
    ensures AtomsOf(t, nodes[from..l], positions[from..l], at) == AtomsOf(t, nodes[from..s], positions[from..s], at) + AtomsOf(t, nodes[s..l], positions[s..l], at)
  {
    assert nodes[from..l] == nodes[from..s] + nodes[s..l] && positions[from..l] == positions[from..s] + positions[s..l];
    AtomsJoin(t, nodes[from..s], positions[from..s], nodes[s..l], positions[s..l], at);
  }

  /** The longest run from s that stays below the maximum, or the one node there. */
  method Group(t: Kind, nodes: seq<Node>, s: nat, to: nat, max: nat) returns (l: nat, size: nat)
    requires s < to <= |nodes|
    ensures s < l <= to && size == SizeSum(t, nodes[s..l])
    ensures l == s + 1 ==> size == Size(t, nodes[s])
    ensures l > s + 1 ==> size < max
    ensures l < to ==> size + Size(t, nodes[l]) >= max
    ensures Plain(t, nodes, s, to) ==> l - s == if to - s <= Width(max) then to - s else Width(max)
  {
    size := NodeSize(t, nodes[s]);
    l := s + 1;
    assert nodes[s..l] == [nodes[s]] && nodes[s..s] == [];
    SizeSumMore(t, nodes, s, s);
    while l < to
      invariant s < l <= to && size == SizeSum(t, nodes[s..l]) && (l > s + 1 ==> size < max)
      invariant l == s + 1 ==> size == Size(t, nodes[s])
    {
      var e := NodeSize(t, nodes[l]);
      if size + e >= max {
        if Plain(t, nodes, s, to) { PlainSize(t, nodes, s, l); }
        return;
      }
      SizeSumMore(t, nodes, s, l);
      size := size + e;
      l := l + 1;
    }
    if Plain(t, nodes, s, to) { PlainSize(t, nodes, s, l); }
  }

  lemma OneFormed(nodes: seq<Node>, s: nat)
    requires s < |nodes| && AllFormed(nodes)
    ensures WellFormed(nodes[s])
    ensures nodes[s].Tree? ==> |nodes[s].children| == |nodes[s].positions| && AllFormed(nodes[s].children)
  {
  }

  lemma BigGroup(t: Kind, node: Node)
    requires Size(t, node) > 1
    ensures node.Tree? && node.kind == t && node.children != []
  {
  }

  /** The siblings from..l have been put behind the children there were: what a reader sees is
      kept, plain siblings are in groups of one width, and every new group is snug. */
  ghost predicate Divided(t: Kind, nodes: seq<Node>, positions: seq<int>, from: nat, l: nat, to: nat, shift: int, at: int, max: nat,
                          before: seq<Node>, places0: seq<int>, children: seq<Node>, places: seq<int>)
    requires from <= l <= to <= |nodes| == |positions| && AllFormed(nodes) && |before| == |places0| && AllFormed(before)
  {
    && |children| == |places| && AllFormed(children) && |before| <= |children|
    && AtomsOf(t, children, places, at) == AtomsOf(t, before, places0, at) + AtomsOf(t, nodes[from..l], positions[from..l], at + shift)
    && (Plain(t, nodes, from, to) ==> Portioned(|children| - |before|, l - from, to - from, Width(max)))
    && (Plain(t, nodes, from, to) && AllNarrow(t, before) ==> AllNarrow(t, children))
    && (Plain(t, nodes, from, to) ==> Portions(t, children, |before|, Width(max), l == to))
    && Tidy(t, nodes, positions, from, l, shift, before, places0, children, places)
  }

  lemma DividedAtFirst(t: Kind, nodes: seq<Node>, positions: seq<int>, from: nat, to: nat, shift: int, at: int, max: nat, before: seq<Node>, places0: seq<int>)
    requires from <= to <= |nodes| == |positions| && AllFormed(nodes) && |before| == |places0| && AllFormed(before)
    ensures Divided(t, nodes, positions, from, from, to, shift, at, max, before, places0, before, places0)
  {
    hide AtomsOf, Portioned, Tidy, AllNarrow, Portion;
    NoPortion(to - from, Width(max));
    NoAtoms(t, at + shift);
    assert nodes[from..from] == [] && positions[from..from] == [];
    TidyAtFirst(t, nodes, positions, from, shift, before, places0);
  }

  /** One node, a sibling or a group of them, has been put behind. */
  lemma DividedMore(t: Kind, nodes: seq<Node>, positions: seq<int>, from: nat, s: nat, l: nat, to: nat, shift: int, at: int, max: nat,
                    before: seq<Node>, places0: seq<int>, children: seq<Node>, places: seq<int>, node: Node)
    requires from <= s < l <= to <= |nodes| == |positions| && AllFormed(nodes) && |before| == |places0| && AllFormed(before)
    requires Divided(t, nodes, positions, from, s, to, shift, at, max, before, places0, children, places)
    requires WellFormed(node)
    requires Atoms(t, node, at + (positions[s] + shift)) == AtomsOf(t, nodes[s..l], positions[s..l], at + shift)
    requires Plain(t, nodes, s, to) ==> l - s == (if to - s <= Width(max) then to - s else Width(max)) && Narrow(t, node)
    requires Plain(t, nodes, s, to) ==> Portion(t, node, Width(max), l == to)
    requires AllSnug(t, nodes) ==> Snug(t, node)
    requires positions[s] + node.length == positions[l - 1] + nodes[l - 1].length
    ensures Divided(t, nodes, positions, from, l, to, shift, at, max, before, places0, children + [node], places + [positions[s] + shift])
  {
    hide AtomsOf, Atoms, Portioned, Width, Plain, AllNarrow, Narrow, Tidy, Snug, AllSnug, WellFormed, AllFormed, Portion, Portions;
    RunJoin(t, nodes, positions, from, s, l, at + shift);
    Appended(t, children, places, node, positions[s] + shift, at);
    TidyMore(t, nodes, positions, from, s, l, shift, before, places0, children, places, node);
    if Plain(t, nodes, from, to) {
      PlainPart(t, nodes, from, to, s, l);
      PortionMore(|children| - |before|, s - from, to - from, Width(max), l - s);
      if AllNarrow(t, children) { NarrowMore(t, children, node); }
      PortionsMore(t, children, |before|, Width(max), node, l == to);
    }
  }

  /** A group has been taken apart: its children have been put behind. */
  lemma DividedApart(t: Kind, nodes: seq<Node>, positions: seq<int>, from: nat, s: nat, to: nat, shift: int, at: int, max: nat,
                     before: seq<Node>, places0: seq<int>, children: seq<Node>, places: seq<int>, more: seq<Node>, places2: seq<int>)
    requires from <= s < to <= |nodes| == |positions| && AllFormed(nodes) && |before| == |places0| && AllFormed(before)
    requires Divided(t, nodes, positions, from, s, to, shift, at, max, before, places0, children, places)
    requires nodes[s].Tree? && nodes[s].kind == t && nodes[s].children != []
    requires |nodes[s].children| == |nodes[s].positions| && AllFormed(nodes[s].children) && |children| == |places| && AllFormed(children)
    requires Divided(t, nodes[s].children, nodes[s].positions, 0, |nodes[s].children|, |nodes[s].children|, positions[s] + shift, at, max, children, places, more, places2)
    ensures Divided(t, nodes, positions, from, s + 1, to, shift, at, max, before, places0, more, places2)
  {
    hide AtomsOf, Atoms, Portioned, Width, AllNarrow, Narrow, Tidy, WellFormed, AllFormed, Portions;
    var group := nodes[s];
    RunJoin(t, nodes, positions, from, s, s + 1, at + shift);
    OneFormed(nodes, s);
    GroupAtoms(t, group, at + shift + positions[s]);
    assert group.children[0..|group.children|] == group.children && group.positions[0..|group.children|] == group.positions;
    assert nodes[s..s + 1] == [group] && positions[s..s + 1] == [positions[s]];
    Single(t, group, positions[s], at + shift);
    TidyApart(t, nodes, positions, from, s, shift, before, places0, children, places, more, places2);
    if Plain(t, nodes, from, to) { PlainPart(t, nodes, from, to, s, s + 1); assert false; }
  }

  lemma DividedFormed(t: Kind, nodes: seq<Node>, positions: seq<int>, from: nat, l: nat, to: nat, shift: int, at: int, max: nat,
                      before: seq<Node>, places0: seq<int>, children: seq<Node>, places: seq<int>)
    requires from <= l <= to <= |nodes| == |positions| && AllFormed(nodes) && |before| == |places0| && AllFormed(before)
    requires Divided(t, nodes, positions, from, l, to, shift, at, max, before, places0, children, places)
    ensures |children| == |places| && AllFormed(children)
  {
  }

  /** A sibling that stays alone. */
  lemma Alone(t: Kind, nodes: seq<Node>, positions: seq<int>, from: nat, s: nat, to: nat, at: int)
    requires from <= s < to <= |nodes| == |positions| && AllFormed(nodes)
    ensures WellFormed(nodes[s]) && Atoms(t, nodes[s], at + positions[s]) == AtomsOf(t, nodes[s..s + 1], positions[s..s + 1], at)
    ensures Plain(t, nodes, s, to) ==> Narrow(t, nodes[s]) && !(nodes[s].Tree? && nodes[s].kind == t)
    ensures AllSnug(t, nodes) ==> Snug(t, nodes[s])
  {
    hide AtomsOf, Atoms;
    assert nodes[s..s + 1] == [nodes[s]] && positions[s..s + 1] == [positions[s]];
    Single(t, nodes[s], positions[s], at);
  }

  /** A group that has been made. */
  lemma Grouped(t: Kind, nodes: seq<Node>, positions: seq<int>, s: nat, l: nat, to: nat, group: Node, at: int)
    requires s < l <= to <= |nodes| == |positions| && AllFormed(nodes) && WellFormed(group) && group.Tree? && group.kind == t
    requires AtomsOf(t, group.children, group.positions, at) == AtomsOf(t, nodes[s..l], positions[s..l], at - positions[s])
    requires Plain(t, nodes, s, l) ==> |group.children| <= 10 && AllNarrow(t, group.children)
    requires AllSnug(t, nodes) ==> AllSnug(t, group.children) && Laid(group.children, group.positions, 0, 0, group.length)
    ensures Atoms(t, group, at) == AtomsOf(t, nodes[s..l], positions[s..l], at - positions[s])
    ensures Plain(t, nodes, s, to) ==> Narrow(t, group)
    ensures AllSnug(t, nodes) ==> Snug(t, group)
  {
    hide AtomsOf, Atoms, AllNarrow, Narrow, Snug, AllSnug, Laid;
    GroupAtoms(t, group, at);
    if Plain(t, nodes, s, to) { PlainPart(t, nodes, s, to, s, l); NarrowGroup(t, group); }
    if AllSnug(t, nodes) { MadeSnug(t, group); }
  }

  /** Append the siblings from..to, seen from `offset`, to the children made so far: alone,
      grouped, or taken apart. */
  method Divide(t: Kind, nodes: seq<Node>, positions: seq<int>, from: nat, to: nat, offset: int, start: int, max: nat,
                children0: seq<Node>, places0: seq<int>, ghost at: int, ghost total: nat)
    returns (children: seq<Node>, places: seq<int>, ghost runs: seq<seq<Node>>)
    requires from <= to <= |nodes| == |positions| && AllFormed(nodes) && 1 <= max <= total
    requires |children0| == |places0| && AllFormed(children0)
    ensures |children| == |places| && AllFormed(children)
    ensures Divided(t, nodes, positions, from, to, to, offset - start, at, max, children0, places0, children, places)
    ensures children0 <= children && AllPlaced(t, runs, children[|children0|..], max) && Joined(runs) == Pieces(t, nodes[from..to], max)
    decreases total, 0, nodes
  {
    hide *;
    ghost var shift := offset - start;
    DividedAtFirst(t, nodes, positions, from, to, shift, at, max, children0, places0);
    NothingPlaced(t, nodes, from, children0, max);
    children, places, runs := children0, places0, [];
    var l := from;
    while l < to
      invariant from <= l <= to && |children| == |places| && AllFormed(children)
      invariant Divided(t, nodes, positions, from, l, to, shift, at, max, children0, places0, children, places)
      invariant children0 <= children && AllPlaced(t, runs, children[|children0|..], max) && Joined(runs) == Pieces(t, nodes[from..l], max)
    {
      var s, c := l, positions[l];
      var size;
      l, size := Group(t, nodes, s, to, max);
      ghost var children1, places1 := children, places;
      if l == s + 1 {
        OneFormed(nodes, s);
        if size > max {
          var group := nodes[s];
          BigGroup(t, group);
          ghost var more;
          children, places, more := Divide(t, group.children, group.positions, 0, |group.children|, c + offset, start, max, children, places, at, total);
          assert group.children[0..|group.children|] == group.children;
          PlacedApart(t, children0, children1, children, runs, more, max);
          PiecesApart(t, nodes, from, s, max);
          runs := runs + more;
          DividedApart(t, nodes, positions, from, s, to, shift, at, max, children0, places0, children1, places1, children, places);
          continue;
        }
        Alone(t, nodes, positions, from, s, to, at + shift);
        if Plain(t, nodes, s, to) { LonePortion(t, nodes[s], Width(max), l == to); }
        DividedMore(t, nodes, positions, from, s, l, to, shift, at, max, children0, places0, children, places, nodes[s]);
        PlacedAlone(t, nodes[s], max);
        assert nodes[s..l] == [nodes[s]];
        children := children + [nodes[s]];
      } else {
        var length := positions[l - 1] + nodes[l - 1].length - c;
        var group := BalanceRange(t, nodes, positions, s, l, c, length, t, at + (c + shift));
        Grouped(t, nodes, positions, s, l, to, group, at + (c + shift));
        if Plain(t, nodes, s, to) {
          PlainPart(t, nodes, s, to, s, l);
          GroupPortion(t, nodes, positions, s, l, group, at + (c + shift), Width(max), l == to);
        }
        DividedMore(t, nodes, positions, from, s, l, to, shift, at, max, children0, places0, children, places, group);
        PlacedGroup(t, nodes[s..l], group, max);
        children := children + [group];
      }
      PiecesWhole(t, nodes, from, s, l, max);
      assert children[|children0|..] == children1[|children0|..] + [children[|children1|]];
      PlacedMore(t, runs, children1[|children0|..], nodes[s..l], children[|children1|], max);
      runs := runs + [nodes[s..l]];
      places := places + [c + offset - start];
      DividedFormed(t, nodes, positions, from, l, to, shift, at, max, children0, places0, children, places);
    }
  }

  /** Tree.balance: short nodes stay, long ones get groups. */
  method BalanceTree(tree: Node) returns (r: Node)
    requires tree.Tree? && WellFormed(tree)
    ensures r.Tree? && WellFormed(r) && r.kind == tree.kind && r.length == tree.length
    ensures AtomsOf(NONE, r.children, r.positions, 0) == AtomsOf(NONE, tree.children, tree.positions, 0)
    ensures AllSnug(NONE, tree.children) ==> AllSnug(NONE, r.children)
    ensures |tree.children| > BRANCH ==> ServedFairly(NONE, tree.children, r.children)
    ensures |tree.children| <= BRANCH ==> r == tree
    ensures |tree.children| > BRANCH && Plain(NONE, tree.children, 0, |tree.children|) ==>
              && |r.children| <= 10 && AllNarrow(NONE, r.children)
              && Shared(NONE, r.children, |tree.children|) && AllEven(NONE, r.children)
              && Pow5(DepthUnder(NONE, r, |r.children|)) <= |tree.children|
  {
    if |tree.children| <= BRANCH { return tree; }
    r := BalanceRange(NONE, tree.children, tree.positions, 0, |tree.children|, 0, tree.length, tree.kind, 0);
    assert tree.children[0..|tree.children|] == tree.children && tree.positions[0..|tree.children|] == tree.positions;
    if Plain(NONE, tree.children, 0, |tree.children|) { DepthBound(NONE, r, |tree.children|, |r.children|); }
  }
}
