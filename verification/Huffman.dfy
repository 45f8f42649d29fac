/**
 Code lengths from symbol counts: Huffman's tree built in place with two queues in one array,
 then, when it is deeper than the format allows, clamping the lengths and repaying the debt.
 */
module Huffman {
  import opened Bits
  import opened Canonical
  import Optimality

  /** A tree node with its weight; Stop is the entry that ends the queue of leaves. */
  datatype Node = Leaf(s: nat, f: nat) | Inner(f: nat, l: Node, r: Node) | Stop(f: nat)

  const TOO_HEAVY: nat := 25001

  function Height(n: Node): nat {
    match n
    case Inner(_, l, r) => 1 + (if Height(l) >= Height(r) then Height(l) else Height(r))
    case _ => 0
  }

  /** The symbols at the leaves. */
  function Bag(n: Node): multiset<nat> {
    match n
    case Leaf(s, _) => multiset{s}
    case Inner(_, l, r) => Bag(l) + Bag(r)
    case Stop(_) => multiset{}
  }

  function SeqBag(ns: seq<Node>): multiset<nat> {
    if |ns| == 0 then multiset{} else Bag(ns[0]) + SeqBag(ns[1..])
  }

  function SeqWeight(ns: seq<Node>): nat {
    if |ns| == 0 then 0 else ns[0].f + SeqWeight(ns[1..])
  }

  function Weights(ns: seq<Node>): multiset<nat> {
    if |ns| == 0 then multiset{} else multiset{ns[0].f} + Weights(ns[1..])
  }

  /** What the joins below a node have cost. */
  function Cost(n: Node): nat {
    match n
    case Inner(f, l, r) => f + Cost(l) + Cost(r)
    case _ => 0
  }

  function SeqCost(ns: seq<Node>): nat {
    if |ns| == 0 then 0 else Cost(ns[0]) + SeqCost(ns[1..])
  }

  function Sum(f: seq<nat>): nat {
    if |f| == 0 then 0 else Sum(f[..|f| - 1]) + f[|f| - 1]
  }

  lemma {:induction false} SeqAppend(ns: seq<Node>, n: Node)
    ensures SeqBag(ns + [n]) == SeqBag(ns) + Bag(n)
    ensures SeqWeight(ns + [n]) == SeqWeight(ns) + n.f
  {
    if |ns| == 0 {
      assert ns + [n] == [n];
    } else {
      assert (ns + [n])[1..] == ns[1..] + [n];
      SeqAppend(ns[1..], n);
    }
  }

  lemma {:induction false} WeightsAppend(ns: seq<Node>, n: Node)
    ensures Weights(ns + [n]) == Weights(ns) + multiset{n.f}
    ensures SeqCost(ns + [n]) == SeqCost(ns) + Cost(n)
  {
    if |ns| == 0 {
      assert ns + [n] == [n];
    } else {
      assert (ns + [n])[1..] == ns[1..] + [n];
      WeightsAppend(ns[1..], n);
    }
  }

  // -------- leaves ---------------------------------------------------------------------

  /** One leaf for every symbol that occurs, in symbol order. */
  function Leaves(freqs: seq<nat>): (ns: seq<Node>)
    ensures |ns| <= |freqs|
    ensures forall k :: 0 <= k < |ns| ==> ns[k].Leaf? && ns[k].s < |freqs| && ns[k].f == freqs[ns[k].s] > 0
  {
    if |freqs| == 0 then [] else
      var n := |freqs| - 1;
      Leaves(freqs[..n]) + (if freqs[n] > 0 then [Leaf(n, freqs[n])] else [])
  }

  lemma {:induction false} LeavesBag(freqs: seq<nat>, a: nat)
    ensures SeqBag(Leaves(freqs))[a] == if a < |freqs| && freqs[a] > 0 then 1 else 0
  {
    if |freqs| > 0 {
      var n := |freqs| - 1;
      var ns := Leaves(freqs[..n]);
      LeavesBag(freqs[..n], a);
      if freqs[n] > 0 {
        SeqAppend(ns, Leaf(n, freqs[n]));
        assert Leaves(freqs) == ns + [Leaf(n, freqs[n])];
        assert SeqBag(Leaves(freqs))[a] == SeqBag(ns)[a] + multiset{n}[a];
      } else {
        assert Leaves(freqs) == ns;
      }
    }
  }

  lemma {:induction false} LeavesWeight(freqs: seq<nat>)
    ensures SeqWeight(Leaves(freqs)) == Sum(freqs)
  {
    if |freqs| > 0 {
      var n := |freqs| - 1;
      LeavesWeight(freqs[..n]);
      if freqs[n] > 0 { SeqAppend(Leaves(freqs[..n]), Leaf(n, freqs[n])); }
      else { assert Leaves(freqs) == Leaves(freqs[..n]); }
    }
  }

  lemma {:induction false} LeavesWeights(freqs: seq<nat>)
    ensures Weights(Leaves(freqs)) == Optimality.Used(freqs) && SeqCost(Leaves(freqs)) == 0
  {
    if |freqs| > 0 {
      var n := |freqs| - 1;
      LeavesWeights(freqs[..n]);
      hide Optimality.Used;
      Optimality.UsedMore(freqs);
      if freqs[n] > 0 { WeightsAppend(Leaves(freqs[..n]), Leaf(n, freqs[n])); }
      else { assert Leaves(freqs) == Leaves(freqs[..n]); }
    } else {
      Optimality.NoneUsed();
    }
  }

  method CollectLeaves(freqs: seq<nat>) returns (i: seq<Node>)
    ensures i == Leaves(freqs)
  {
    i := [];
    for a := 0 to |freqs|
      invariant i == Leaves(freqs[..a])
    {
      assert freqs[..a + 1][..a] == freqs[..a];
      if freqs[a] != 0 { i := i + [Leaf(a, freqs[a])]; }
    }
    assert freqs[..|freqs|] == freqs;
  }

  // -------- sorting: Array.prototype.sort, which is stable -------------------------------

  /** By weight. */
  predicate Lighter(x: Node, y: Node) {
    x.f <= y.f
  }

  function DepthOf(g: seq<nat>, n: Node): nat {
    if n.Leaf? && n.s < |g| then g[n.s] else 0
  }

  /** By depth, deepest first, then by weight. */
  predicate Deeper(g: seq<nat>, x: Node, y: Node) {
    DepthOf(g, x) > DepthOf(g, y) || (DepthOf(g, x) == DepthOf(g, y) && x.f <= y.f)
  }

  function Insert(n: Node, ns: seq<Node>, leq: (Node, Node) -> bool): seq<Node> {
    if |ns| == 0 || leq(n, ns[0]) then [n] + ns else [ns[0]] + Insert(n, ns[1..], leq)
  }

  function Sort(ns: seq<Node>, leq: (Node, Node) -> bool): seq<Node> {
    if |ns| == 0 then [] else Insert(ns[0], Sort(ns[1..], leq), leq)
  }

  ghost predicate Ordered(ns: seq<Node>, leq: (Node, Node) -> bool) {
    forall j, k :: 0 <= j < k < |ns| ==> leq(ns[j], ns[k])
  }

  ghost predicate TotalOrder(leq: (Node, Node) -> bool) {
    && (forall x, y :: leq(x, y) || leq(y, x))
    && (forall x, y, z :: leq(x, y) && leq(y, z) ==> leq(x, z))
  }

  lemma SeqCons(n: Node, ns: seq<Node>)
    ensures SeqBag([n] + ns) == Bag(n) + SeqBag(ns) && SeqWeight([n] + ns) == n.f + SeqWeight(ns)
    ensures Weights([n] + ns) == multiset{n.f} + Weights(ns)
  {
    assert ([n] + ns)[1..] == ns;
  }

  lemma {:induction false} InsertKeeps(n: Node, ns: seq<Node>, leq: (Node, Node) -> bool)
    ensures |Insert(n, ns, leq)| == |ns| + 1
    ensures SeqBag(Insert(n, ns, leq)) == Bag(n) + SeqBag(ns)
    ensures SeqWeight(Insert(n, ns, leq)) == n.f + SeqWeight(ns)
    ensures Weights(Insert(n, ns, leq)) == multiset{n.f} + Weights(ns)
  {
    hide SeqBag, SeqWeight, Weights, Bag;
    if |ns| == 0 || leq(n, ns[0]) {
      SeqCons(n, ns);
    } else {
      InsertKeeps(n, ns[1..], leq);
      SeqCons(ns[0], ns[1..]);
      SeqCons(ns[0], Insert(n, ns[1..], leq));
      assert ns == [ns[0]] + ns[1..];
    }
  }

  lemma {:induction false} InsertMembers(n: Node, ns: seq<Node>, leq: (Node, Node) -> bool, x: Node)
    ensures x in Insert(n, ns, leq) <==> x == n || x in ns
  {
    if !(|ns| == 0 || leq(n, ns[0])) {
      InsertMembers(n, ns[1..], leq, x);
      assert x in ns <==> x == ns[0] || x in ns[1..];
    }
  }

  lemma OrderedCons(n: Node, ns: seq<Node>, leq: (Node, Node) -> bool)
    requires Ordered(ns, leq) && forall x :: x in ns ==> leq(n, x)
    ensures Ordered([n] + ns, leq)
  {
    forall j, k | 0 <= j < k < |[n] + ns| ensures leq(([n] + ns)[j], ([n] + ns)[k]) {
      assert ([n] + ns)[k] == ns[k - 1] && ns[k - 1] in ns;
      if j > 0 { assert leq(ns[j - 1], ns[k - 1]); }
    }
  }

  lemma {:induction false} InsertOrders(n: Node, ns: seq<Node>, leq: (Node, Node) -> bool)
    requires TotalOrder(leq) && Ordered(ns, leq)
    ensures Ordered(Insert(n, ns, leq), leq)
  {
    if |ns| == 0 {
    } else if leq(n, ns[0]) {
      forall x | x in ns ensures leq(n, x) {
        var k :| 0 <= k < |ns| && ns[k] == x;
        if k > 0 { assert leq(ns[0], ns[k]); }
      }
      OrderedCons(n, ns, leq);
    } else {
      InsertOrders(n, ns[1..], leq);
      forall x | x in Insert(n, ns[1..], leq) ensures leq(ns[0], x) {
        InsertMembers(n, ns[1..], leq, x);
        if x != n {
          var k :| 0 <= k < |ns[1..]| && ns[1..][k] == x;
          assert leq(ns[0], ns[k + 1]);
        }
      }
      OrderedCons(ns[0], Insert(n, ns[1..], leq), leq);
    }
  }

  lemma {:induction false} SortKeeps(ns: seq<Node>, leq: (Node, Node) -> bool)
    ensures |Sort(ns, leq)| == |ns|
    ensures SeqBag(Sort(ns, leq)) == SeqBag(ns) && SeqWeight(Sort(ns, leq)) == SeqWeight(ns)
    ensures Weights(Sort(ns, leq)) == Weights(ns)
  {
    if |ns| > 0 {
      SortKeeps(ns[1..], leq);
      InsertKeeps(ns[0], Sort(ns[1..], leq), leq);
    }
  }

  lemma {:induction false} SortMembers(ns: seq<Node>, leq: (Node, Node) -> bool, x: Node)
    ensures x in Sort(ns, leq) <==> x in ns
  {
    if |ns| > 0 {
      SortMembers(ns[1..], leq, x);
      InsertMembers(ns[0], Sort(ns[1..], leq), leq, x);
      assert x in ns <==> x == ns[0] || x in ns[1..];
    }
  }

  lemma {:induction false} SortOrders(ns: seq<Node>, leq: (Node, Node) -> bool)
    requires TotalOrder(leq)
    ensures Ordered(Sort(ns, leq), leq)
  {
    if |ns| > 0 {
      SortOrders(ns[1..], leq);
      InsertOrders(ns[0], Sort(ns[1..], leq), leq);
    }
  }

  // -------- the tree -------------------------------------------------------------------

  /** The heavier child of an inner node: children are taken lighter first. */
  function Heavy(n: Node): nat {
    if n.Inner? then n.r.f else 0
  }

  /** A node as the queues build it: its weight is its children's, the lighter on the left, and
      neither child is lighter than a child of the other. */
  ghost predicate Grounded(n: Node) {
    match n
    case Leaf(_, f) => f > 0
    case Inner(f, l, r) =>
      f == l.f + r.f && l.f <= r.f && Heavy(l) <= r.f && Heavy(r) <= l.f && Grounded(l) && Grounded(r)
    case Stop(_) => false
  }

  /** The two queues, given the weight of the heaviest node taken from them so far. */
  ghost predicate Queues(inner: seq<Node>, leaves: seq<Node>, last: nat) {
    && Ordered(inner, Lighter) && Ordered(leaves, Lighter)
    && (forall k :: 0 <= k < |inner| ==> inner[k].Inner? && Grounded(inner[k]) && Heavy(inner[k]) <= last <= inner[k].f)
    && (forall k :: 0 <= k < |leaves| ==> leaves[k].Leaf? && Grounded(leaves[k]) && last <= leaves[k].f)
  }

  function Join(c: Node, u: Node): Node {
    Inner(c.f + u.f, c, u)
  }

  /** Taking the next inner node leaves the queues in order, with nothing lighter than it. */
  lemma TakeInner(inner: seq<Node>, leaves: seq<Node>, last: nat)
    requires Queues(inner, leaves, last) && |inner| > 0
    requires |leaves| > 0 ==> inner[0].f < leaves[0].f
    ensures Queues(inner[1..], leaves, inner[0].f)
  {
    forall k | 0 <= k < |inner[1..]| ensures inner[0].f <= inner[1..][k].f { assert Lighter(inner[0], inner[k + 1]); }
    forall k | 0 <= k < |leaves| ensures inner[0].f <= leaves[k].f {
      if k > 0 { assert Lighter(leaves[0], leaves[k]); }
    }
  }

  lemma TakeLeaf(inner: seq<Node>, leaves: seq<Node>, last: nat)
    requires Queues(inner, leaves, last) && |leaves| > 0
    requires |inner| > 0 ==> inner[0].f >= leaves[0].f
    ensures Queues(inner, leaves[1..], leaves[0].f)
  {
    forall k | 0 <= k < |leaves[1..]| ensures leaves[0].f <= leaves[1..][k].f { assert Lighter(leaves[0], leaves[k + 1]); }
    forall k | 0 <= k < |inner| ensures leaves[0].f <= inner[k].f {
      if k > 0 { assert Lighter(inner[0], inner[k]); }
    }
  }

  /** Joining the two nodes taken last keeps the queues in order. */
  lemma JoinKeepsQueues(inner: seq<Node>, leaves: seq<Node>, c: Node, u: Node)
    requires Queues(inner, leaves, u.f) && Grounded(c) && Grounded(u) && c.f <= u.f
    requires Heavy(c) <= c.f && Heavy(u) <= c.f
    requires forall k :: 0 <= k < |inner| ==> Heavy(inner[k]) <= c.f
    ensures Queues(inner + [Join(c, u)], leaves, u.f)
  {
    forall k | 0 <= k < |inner| ensures inner[k].f <= c.f + u.f {
      assert Grounded(inner[k]);
    }
  }

  function Fib(k: nat): nat {
    if k <= 1 then k + 1 else Fib(k - 1) + Fib(k - 2)
  }

  /** A grounded node of height k weighs at least the k-th Fibonacci number. */
  lemma {:induction false} HeightWeighs(n: Node)
    requires Grounded(n)
    ensures n.f >= Fib(Height(n))
  {
    if n.Inner? {
      HeightWeighs(n.l);
      HeightWeighs(n.r);
      var high, low := if Height(n.l) >= Height(n.r) then n.l else n.r, if Height(n.l) >= Height(n.r) then n.r else n.l;
      if high.Inner? { HeavyWeighs(high); }
      HighAndLow(n, high, low);
    }
  }

  /** The higher child weighs by its height, the other as much as the higher one's heavier child. */
  lemma HighAndLow(n: Node, high: Node, low: Node)
    requires Grounded(n) && n.Inner? && high.f >= Fib(Height(high)) && (high.Inner? ==> Heavy(high) >= Fib(Height(high) - 1))
    requires (high == n.l && low == n.r) || (high == n.r && low == n.l)
    requires Height(n) == 1 + Height(high)
    ensures n.f >= Fib(Height(n))
  {
    hide *;
    GroundedParts(n);
    GroundedPositive(low);
    if high.Inner? {
      InnerHigh(high);
      FibStep(Height(high));
    } else {
      LeafLow(high);
    }
  }

  lemma GroundedParts(n: Node)
    requires Grounded(n) && n.Inner?
    ensures n.f == n.l.f + n.r.f && Heavy(n.l) <= n.r.f && Heavy(n.r) <= n.l.f && Grounded(n.l) && Grounded(n.r)
  {
  }

  lemma InnerHigh(n: Node)
    requires n.Inner?
    ensures Height(n) >= 1
  {
  }

  lemma FibStep(k: nat)
    requires k >= 1
    ensures Fib(k + 1) == Fib(k) + Fib(k - 1)
  {
  }

  lemma LeafLow(n: Node)
    requires !n.Inner?
    ensures Height(n) == 0 && Fib(1) == 2 && Fib(0) == 1
  {
  }

  /** So the heavier child of a node of height k weighs at least the one before. */
  lemma {:induction false} HeavyWeighs(n: Node)
    requires Grounded(n) && n.Inner?
    ensures Heavy(n) >= Fib(Height(n) - 1)
  {
    if Height(n.l) >= Height(n.r) { HeightWeighs(n.l); } else { HeightWeighs(n.r); }
  }

  lemma {:induction false} FibMono(j: nat, k: nat)
    requires j <= k
    ensures Fib(j) <= Fib(k)
    decreases k
  {
    if j < k { FibMono(j, k - 1); }
  }

  /** A tree of weight up to 25001 is at most 20 levels deep. */
  lemma HeightBound(n: Node)
    requires Grounded(n) && n.f <= TOO_HEAVY
    ensures Height(n) <= 20
  {
    HeightWeighs(n);
    assert Fib(4) == 8 && Fib(5) == 13 && Fib(8) == 55 && Fib(9) == 89;
    assert Fib(12) == 377 && Fib(13) == 610;
    assert Fib(16) == 2584 && Fib(17) == 4181;
    assert Fib(20) == 17711 && Fib(21) == 28657;
    if Height(n) >= 21 { FibMono(21, Height(n)); }
  }

  lemma {:induction false} WeightOfTwo(ns: seq<Node>)
    requires |ns| > 0
    ensures SeqWeight(ns) >= ns[0].f + (if |ns| > 1 then ns[1].f else 0)
  {
    if |ns| > 1 { assert SeqWeight(ns[1..]) == ns[1].f + SeqWeight(ns[1..][1..]); }
  }

  lemma {:induction false} GroundedPositive(n: Node)
    requires Grounded(n)
    ensures n.f > 0
  {
    if n.Inner? { GroundedPositive(n.l); }
  }

  /** What the merging loop knows of the array: inner nodes at [h, f), leaves at [d, o), and the
      sentinel at o.  `weight` is what all nodes left weigh together, `bag` their symbols. */
  ghost predicate Forest(i: seq<Node>, h: nat, f: nat, d: nat, o: nat, last: nat, bag: multiset<nat>, weight: nat) {
    && h <= f < d <= o && |i| == o + 1 && i[o] == Stop(TOO_HEAVY)
    && Queues(i[h..f], i[d..o], last)
    && SeqBag(i[h..f]) + SeqBag(i[d..o]) == bag
    && SeqWeight(i[h..f]) + SeqWeight(i[d..o]) == weight
  }

  lemma InnerIsLight(inner: seq<Node>, last: nat, weight: nat)
    requires Queues(inner, [], last) && |inner| > 0 && SeqWeight(inner) == weight
    requires weight < TOO_HEAVY || (weight == TOO_HEAVY && |inner| > 1)
    ensures inner[0].f < TOO_HEAVY
  {
    WeightOfTwo(inner);
    if |inner| > 1 { GroundedPositive(inner[1]); }
  }

  /** A node that may be taken from a forest: it is there, no lighter than what was taken before. */
  ghost predicate Takeable(n: Node, last: nat, bag: multiset<nat>, weight: nat) {
    0 < n.f && last <= n.f <= weight && Grounded(n) && Heavy(n) <= last && Bag(n) <= bag
  }

  /** When the head of the inner queue is strictly lighter, taking it leaves a forest with nothing
      lighter in it. */
  lemma TakeFromInner(i: seq<Node>, h: nat, f: nat, d: nat, o: nat, last: nat, bag: multiset<nat>, weight: nat, n: Node)
    requires Forest(i, h, f, d, o, last, bag, weight) && h < f && n == i[h] && n.f < i[d].f
    ensures Takeable(n, last, bag, weight) && Forest(i, h + 1, f, d, o, n.f, bag - Bag(n), weight - n.f)
  {
    hide *;
    ForestParts(i, h, f, d, o, last, bag, weight);
    var inner, leaves := i[h..f], i[d..o];
    assert |leaves| > 0 ==> leaves[0] == i[d];
    HeadInner(inner, leaves, last);
    TakeInner(inner, leaves, last);
    assert inner[1..] == i[h + 1..f];
    SeqHead(inner);
    LeftBag(Bag(n), SeqBag(leaves), SeqBag(inner[1..]), bag);
    ForestOf(i, h + 1, f, d, o, n.f, bag - Bag(n), weight - n.f);
    TakeableOf(n, last, bag, weight);
  }

  lemma ForestParts(i: seq<Node>, h: nat, f: nat, d: nat, o: nat, last: nat, bag: multiset<nat>, weight: nat)
    requires Forest(i, h, f, d, o, last, bag, weight)
    ensures h <= f < d <= o && |i| == o + 1 && i[o] == Stop(TOO_HEAVY) && Queues(i[h..f], i[d..o], last)
    ensures SeqBag(i[h..f]) + SeqBag(i[d..o]) == bag && SeqWeight(i[h..f]) + SeqWeight(i[d..o]) == weight
  {
  }

  lemma ForestOf(i: seq<Node>, h: nat, f: nat, d: nat, o: nat, last: nat, bag: multiset<nat>, weight: nat)
    requires h <= f < d <= o && |i| == o + 1 && i[o] == Stop(TOO_HEAVY) && Queues(i[h..f], i[d..o], last)
    requires SeqBag(i[h..f]) + SeqBag(i[d..o]) == bag && SeqWeight(i[h..f]) + SeqWeight(i[d..o]) == weight
    ensures Forest(i, h, f, d, o, last, bag, weight)
  {
  }

  lemma TakeableOf(n: Node, last: nat, bag: multiset<nat>, weight: nat)
    requires 0 < n.f && last <= n.f <= weight && Grounded(n) && Heavy(n) <= last && Bag(n) <= bag
    ensures Takeable(n, last, bag, weight)
  {
  }

  lemma SeqHead(ns: seq<Node>)
    requires |ns| > 0
    ensures SeqBag(ns) == Bag(ns[0]) + SeqBag(ns[1..]) && SeqWeight(ns) == ns[0].f + SeqWeight(ns[1..])
  {
  }

  lemma HeadInner(inner: seq<Node>, leaves: seq<Node>, last: nat)
    requires Queues(inner, leaves, last) && |inner| > 0
    ensures Grounded(inner[0]) && last <= inner[0].f && Heavy(inner[0]) <= last && inner[0].f > 0
  {
    GroundedPositive(inner[0]);
  }

  lemma HeadLeaf(inner: seq<Node>, leaves: seq<Node>, last: nat)
    requires Queues(inner, leaves, last) && |leaves| > 0
    ensures leaves[0].Leaf? && Grounded(leaves[0]) && last <= leaves[0].f && Heavy(leaves[0]) == 0 && leaves[0].f > 0
  {
  }

  lemma LeftBag(x: multiset<nat>, a: multiset<nat>, b: multiset<nat>, bag: multiset<nat>)
    requires a + (x + b) == bag
    ensures x <= bag && a + b == bag - x
  {
  }

  lemma LeavesLeft(i: seq<Node>, h: nat, f: nat, d: nat, o: nat, last: nat, bag: multiset<nat>, weight: nat)
    requires Forest(i, h, f, d, o, last, bag, weight) && (f - h) + (o - d) > 0
    requires weight < TOO_HEAVY || (weight == TOO_HEAVY && (f - h) + (o - d) > 1)
    requires !(h < f && i[h].f < i[d].f)
    ensures d < o
  {
    var inner, leaves := i[h..f], i[d..o];
    if d == o {
      assert leaves == [] && inner[0] == i[h];
      InnerIsLight(inner, last, weight);
    }
  }

  /** Otherwise the other queue is not empty: the sentinel is never taken for a node. */
  lemma TakeFromLeaves(i: seq<Node>, h: nat, f: nat, d: nat, o: nat, last: nat, bag: multiset<nat>, weight: nat, n: Node)
    requires Forest(i, h, f, d, o, last, bag, weight) && (f - h) + (o - d) > 0
    requires weight < TOO_HEAVY || (weight == TOO_HEAVY && (f - h) + (o - d) > 1)
    requires !(h < f && i[h].f < i[d].f) && n == i[d]
    ensures d < o && Takeable(n, last, bag, weight) && Forest(i, h, f, d + 1, o, n.f, bag - Bag(n), weight - n.f)
  {
    hide *;
    ForestParts(i, h, f, d, o, last, bag, weight);
    LeavesLeft(i, h, f, d, o, last, bag, weight);
    var inner, leaves := i[h..f], i[d..o];
    assert |inner| > 0 ==> inner[0] == i[h];
    HeadLeaf(inner, leaves, last);
    TakeLeaf(inner, leaves, last);
    assert leaves[1..] == i[d + 1..o];
    SeqHead(leaves);
    LeftBag(Bag(n), SeqBag(inner), SeqBag(leaves[1..]), bag);
    ForestOf(i, h, f, d + 1, o, n.f, bag - Bag(n), weight - n.f);
    TakeableOf(n, last, bag, weight);
  }

  /** Storing the joined pair right behind the inner nodes. */
  lemma StoreJoined(i: seq<Node>, h: nat, f: nat, d: nat, o: nat, c: Node, u: Node, bag: multiset<nat>, weight: nat)
    requires Forest(i, h, f, d, o, u.f, bag, weight) && d > f + 1
    requires Grounded(c) && Grounded(u) && c.f <= u.f && Heavy(c) <= c.f && Heavy(u) <= c.f
    requires forall k :: h <= k < f ==> Heavy(i[k]) <= c.f
    ensures Forest(i[f := Join(c, u)], h, f + 1, d, o, u.f, bag + Bag(c) + Bag(u), weight + c.f + u.f)
  {
    hide Queues, Grounded, SeqBag, SeqWeight, Heavy;
    var j := i[f := Join(c, u)];
    var inner := i[h..f];
    assert j[h..f + 1] == inner + [Join(c, u)];
    assert j[d..o] == i[d..o];
    SeqAppend(inner, Join(c, u));
    forall k | 0 <= k < |inner| ensures Heavy(inner[k]) <= c.f { assert inner[k] == i[h + k]; }
    JoinKeepsQueues(inner, i[d..o], c, u);
  }

  lemma FirstForest(i: seq<Node>, leaves: seq<Node>, o: nat)
    requires o == |leaves| >= 2 && i == leaves + [Stop(TOO_HEAVY)] && Ordered(leaves, Lighter)
    requires forall k :: 0 <= k < o ==> leaves[k].Leaf? && leaves[k].f > 0
    ensures Forest(i[0 := Join(i[0], i[1])], 0, 1, 2, o, i[1].f, SeqBag(leaves), SeqWeight(leaves))
  {
    var c, u, j := leaves[0], leaves[1], i[0 := Join(i[0], i[1])];
    assert leaves[1..][1..] == leaves[2..];
    assert j[2..o] == leaves[2..] && j[0..1] == [] + [Join(c, u)];
    SeqAppend([], Join(c, u));
    assert Lighter(leaves[0], leaves[1]);
    var rest := leaves[2..];
    forall k | 0 <= k < |rest| ensures rest[k].Leaf? && Grounded(rest[k]) && u.f <= rest[k].f {
      assert Lighter(leaves[1], leaves[k + 2]);
    }
    forall k, n | 0 <= k < n < |rest| ensures Lighter(rest[k], rest[n]) { assert Lighter(leaves[k + 2], leaves[n + 2]); }
    assert j[0..1][0] == Join(c, u) && Grounded(c) && Grounded(u) && Grounded(Join(c, u));
  }

  /** Node n was taken from a forest, which then begins at h2 and d2. */
  ghost predicate TakenOne(s: seq<Node>, f: nat, o: nat, last: nat, bag: multiset<nat>, weight: nat, n: Node, h2: nat, d2: nat) {
    Takeable(n, last, bag, weight) && Forest(s, h2, f, d2, o, n.f, bag - Bag(n), weight - n.f)
  }

  /** Node n was the head of the queue that has become shorter. */
  ghost predicate Headed(s: seq<Node>, h: nat, f: nat, d: nat, o: nat, n: Node, h2: nat, d2: nat) {
    && h <= f <= d <= o < |s|
    && ((h < f && n == s[h] && h2 == h + 1 && d2 == d) || (d < o && n == s[d] && h2 == h && d2 == d + 1))
  }

  lemma HeadedInner(s: seq<Node>, h: nat, f: nat, d: nat, o: nat)
    requires h < f <= d <= o < |s|
    ensures Headed(s, h, f, d, o, s[h], h + 1, d)
  {
  }

  lemma HeadedLeaf(s: seq<Node>, h: nat, f: nat, d: nat, o: nat)
    requires h <= f <= d < o < |s|
    ensures Headed(s, h, f, d, o, s[d], h, d + 1)
  {
  }

  lemma Heads(i: array<Node>, s: seq<Node>, h: nat, f: nat, d: nat, o: nat)
    requires s == i[..] && h <= f < d <= o && |s| == o + 1
    ensures i.Length == o + 1 && i[d] == s[d] && i[h] == s[h]
  {
  }

  /** Take the next node: the head of the inner queue if there is one and it is strictly lighter
      than the head of the other. */
  method TakeOne(i: array<Node>, ghost s: seq<Node>, h: nat, f: nat, d: nat, ghost o: nat, ghost last: nat,
                 ghost bag: multiset<nat>, ghost weight: nat)
    returns (n: Node, h2: nat, d2: nat)
    requires s == i[..] && Forest(s, h, f, d, o, last, bag, weight) && (f - h) + (o - d) > 0
    requires weight < TOO_HEAVY || (weight == TOO_HEAVY && (f - h) + (o - d) > 1)
    ensures h2 + d2 == h + d + 1 && h <= h2 <= f
    ensures TakenOne(s, f, o, last, bag, weight, n, h2, d2) && Headed(s, h, f, d, o, n, h2, d2)
  {
    hide *;
    ForestSpan(s, h, f, d, o, last, bag, weight);
    Heads(i, s, h, f, d, o);
    if h != f && i[h].f < i[d].f {
      TakeLighter(s, h, f, d, o, last, bag, weight);
      HeadedInner(s, h, f, d, o);
      n, h2, d2 := i[h], h + 1, d;
    } else {
      TakeOther(s, h, f, d, o, last, bag, weight);
      HeadedLeaf(s, h, f, d, o);
      n, h2, d2 := i[d], h, d + 1;
    }
  }

  lemma TakeLighter(s: seq<Node>, h: nat, f: nat, d: nat, o: nat, last: nat, bag: multiset<nat>, weight: nat)
    requires Forest(s, h, f, d, o, last, bag, weight) && h < f && s[h].f < s[d].f
    ensures TakenOne(s, f, o, last, bag, weight, s[h], h + 1, d)
  {
    hide Takeable, Bag;
    TakeFromInner(s, h, f, d, o, last, bag, weight, s[h]);
    hide Forest;
  }

  lemma TakeOther(s: seq<Node>, h: nat, f: nat, d: nat, o: nat, last: nat, bag: multiset<nat>, weight: nat)
    requires Forest(s, h, f, d, o, last, bag, weight) && (f - h) + (o - d) > 0
    requires weight < TOO_HEAVY || (weight == TOO_HEAVY && (f - h) + (o - d) > 1)
    requires !(h < f && s[h].f < s[d].f)
    ensures d < o && TakenOne(s, f, o, last, bag, weight, s[d], h, d + 1)
  {
    hide Takeable, Bag;
    TakeFromLeaves(s, h, f, d, o, last, bag, weight, s[d]);
    hide Forest;
  }

  lemma QueueHeavy(i: seq<Node>, h: nat, f: nat, d: nat, o: nat, last: nat, bag: multiset<nat>, weight: nat, k: nat)
    requires Forest(i, h, f, d, o, last, bag, weight) && h <= k < f
    ensures Heavy(i[k]) <= last
  {
    assert i[h..f][k - h] == i[k];
  }

  // -------- nothing is spent in vain ---------------------------------------------------

  /** Every leaf below weighs what its symbol was counted. */
  ghost predicate Own(freqs: seq<nat>, n: Node) {
    match n
    case Leaf(s, f) => s < |freqs| && freqs[s] == f
    case Inner(_, l, r) => Own(freqs, l) && Own(freqs, r)
    case Stop(_) => true
  }

  /** The nodes in the queues are as good a start as the leaves were: a bound for codes of their
      weights, with what was spent on them, is a bound for codes of the leaves. */
  ghost predicate Best(freqs: seq<nat>, all: multiset<nat>, s: seq<Node>, h: nat, f: nat, d: nat, o: nat) {
    && h <= f <= d <= o < |s|
    && Optimality.Leads(all, Weights(s[h..f]) + Weights(s[d..o]), SeqCost(s[h..f]) + SeqCost(s[d..o]))
    && forall k :: h <= k < f || d <= k < o ==> Own(freqs, s[k])
  }

  ghost predicate AllAbove(low: nat, bag: multiset<nat>) {
    forall w :: w in bag ==> low <= w
  }

  lemma {:induction false} SeqAbove(ns: seq<Node>, low: nat)
    requires forall k :: 0 <= k < |ns| ==> low <= ns[k].f
    ensures AllAbove(low, Weights(ns))
  {
    if |ns| > 0 { SeqAbove(ns[1..], low); }
  }

  lemma QueuesAbove(i: seq<Node>, h: nat, f: nat, d: nat, o: nat, last: nat, bag: multiset<nat>, weight: nat)
    requires Forest(i, h, f, d, o, last, bag, weight)
    ensures AllAbove(last, Weights(i[h..f]) + Weights(i[d..o]))
  {
    hide Weights, SeqBag, SeqWeight, Grounded, Ordered, Heavy;
    SeqAbove(i[h..f], last);
    SeqAbove(i[d..o], last);
  }

  lemma CostHead(ns: seq<Node>)
    requires |ns| > 0
    ensures Weights(ns) == multiset{ns[0].f} + Weights(ns[1..]) && SeqCost(ns) == Cost(ns[0]) + SeqCost(ns[1..])
  {
  }

  /** Taking a head takes its weight and its cost from the queues. */
  lemma HeadTaken(s: seq<Node>, h: nat, f: nat, d: nat, o: nat, n: Node, h2: nat, d2: nat)
    requires Headed(s, h, f, d, o, n, h2, d2)
    ensures h2 <= f && d2 <= o
    ensures Weights(s[h..f]) + Weights(s[d..o]) == multiset{n.f} + (Weights(s[h2..f]) + Weights(s[d2..o]))
    ensures SeqCost(s[h..f]) + SeqCost(s[d..o]) == Cost(n) + (SeqCost(s[h2..f]) + SeqCost(s[d2..o]))
  {
    hide Weights, SeqCost, Cost;
    if h2 == h + 1 {
      CostHead(s[h..f]);
      assert s[h..f][1..] == s[h2..f];
    } else {
      CostHead(s[d..o]);
      assert s[d..o][1..] == s[d2..o];
    }
  }

  lemma PairOf(bag: multiset<nat>, a: nat, b: nat, rest: multiset<nat>)
    requires bag == multiset{a} + (multiset{b} + rest) && 0 < a <= b && AllAbove(b, rest)
    ensures Optimality.LightestOf(bag, a, b) && bag - multiset{a, b} == rest
  {
    assert multiset{a} + multiset{b} == multiset{a, b};
  }

  lemma JoinStored(s: seq<Node>, h: nat, f: nat, d: nat, o: nat, n: Node)
    requires h <= f < d <= o < |s|
    ensures var i := s[f := n];
            && Weights(i[h..f + 1]) + Weights(i[d..o]) == (Weights(s[h..f]) + Weights(s[d..o])) + multiset{n.f}
            && SeqCost(i[h..f + 1]) + SeqCost(i[d..o]) == (SeqCost(s[h..f]) + SeqCost(s[d..o])) + Cost(n)
  {
    hide Weights, SeqCost, Cost;
    var i := s[f := n];
    assert i[h..f + 1] == s[h..f] + [n] && i[d..o] == s[d..o];
    WeightsAppend(s[h..f], n);
  }

  /** Joining the two lightest nodes keeps the start as good. */
  lemma BestKept(freqs: seq<nat>, all: multiset<nat>, s: seq<Node>, h: nat, f: nat, d: nat, o: nat,
                 c: Node, h1: nat, d1: nat, u: Node, h2: nat, d2: nat)
    requires Best(freqs, all, s, h, f, d, o) && Headed(s, h, f, d, o, c, h1, d1) && Headed(s, h1, f, d1, o, u, h2, d2)
    requires 0 < c.f <= u.f && h2 <= f < d2 <= o && AllAbove(u.f, Weights(s[h2..f]) + Weights(s[d2..o]))
    ensures Best(freqs, all, s[f := Join(c, u)], h2, f + 1, d2, o)
  {
    hide Weights, SeqCost, AllAbove, Optimality.Leads, Optimality.LightestOf;
    HeadTaken(s, h, f, d, o, c, h1, d1);
    HeadTaken(s, h1, f, d1, o, u, h2, d2);
    var rest, bag := Weights(s[h2..f]) + Weights(s[d2..o]), Weights(s[h..f]) + Weights(s[d..o]);
    PairOf(bag, c.f, u.f, rest);
    Optimality.LeadsOn(all, bag, SeqCost(s[h..f]) + SeqCost(s[d..o]), c.f, u.f);
    JoinStored(s, h2, f, d2, o, Join(c, u));
    var i := s[f := Join(c, u)];
    forall k | h2 <= k < f + 1 || d2 <= k < o ensures Own(freqs, i[k]) { assert k == f || i[k] == s[k]; }
  }

  /** Before the first join. */
  lemma BestAtFirst(freqs: seq<nat>, leaves: seq<Node>, s: seq<Node>, o: nat)
    requires o == |leaves| && s == leaves + [Stop(TOO_HEAVY)] && forall k :: 0 <= k < o ==> leaves[k].Leaf? && Own(freqs, leaves[k])
    ensures Best(freqs, Weights(leaves), s, 0, 0, 0, o)
  {
    hide Optimality.Leads;
    assert s[0..0] == [] && s[0..o] == leaves;
    LeavesFree(leaves);
    Optimality.LeadsNowhere(Weights(leaves));
    assert Weights([]) + Weights(leaves) == Weights(leaves);
  }

  lemma {:induction false} LeavesFree(ns: seq<Node>)
    requires forall k :: 0 <= k < |ns| ==> ns[k].Leaf?
    ensures SeqCost(ns) == 0
  {
    if |ns| > 0 { LeavesFree(ns[1..]); }
  }

  /** With one node left, what it cost bounds every code. */
  lemma BestAtLast(freqs: seq<nat>, all: multiset<nat>, s: seq<Node>, h: nat, f: nat, d: nat, o: nat)
    requires Best(freqs, all, s, h, f, d, o) && h < f == o - 1 && d == 2 * f - h
    ensures Optimality.AtLeast(all, Cost(s[f - 1])) && Own(freqs, s[f - 1])
  {
    hide Optimality.Leads, Optimality.AtLeast;
    assert s[h..f] == [s[f - 1]] && s[d..o] == [];
    WeightsAppend([], s[f - 1]);
    assert [] + [s[f - 1]] == [s[f - 1]];
    Optimality.Bounded(all, Weights(s[h..f]) + Weights(s[d..o]), SeqCost(s[h..f]) + SeqCost(s[d..o]));
  }

  /** One round: take two nodes and store the pair behind the inner nodes. */
  method MergeTwo(i: array<Node>, h: nat, f: nat, d: nat, ghost o: nat, ghost last: nat,
                  ghost bag: multiset<nat>, ghost weight: nat, ghost freqs: seq<nat>, ghost all: multiset<nat>)
    returns (h2: nat, d2: nat, ghost last2: nat)
    requires h < f < o - 1 && d == 2 * f - h && weight <= TOO_HEAVY
    requires Forest(i[..], h, f, d, o, last, bag, weight) && Best(freqs, all, i[..], h, f, d, o)
    modifies i
    ensures h2 < f + 1 && d2 == 2 * (f + 1) - h2 && Forest(i[..], h2, f + 1, d2, o, last2, bag, weight)
    ensures Best(freqs, all, i[..], h2, f + 1, d2, o)
  {
    hide *;
    ghost var s := i[..];
    var c, h1, d1 := TakeOne(i, s, h, f, d, o, last, bag, weight);
    FirstTaken(s, h, f, d, o, last, bag, weight, c, h1, d1);
    ghost var bag1, weight1 := bag - Bag(c), weight - c.f;
    var u;
    u, h2, d2 := TakeOne(i, s, h1, f, d1, o, c.f, bag1, weight1);
    last2 := u.f;
    SecondTaken(s, h1, f, d1, o, last, bag, weight, c, u, h2, d2);
    BestKept(freqs, all, s, h, f, d, o, c, h1, d1, u, h2, d2);
    i[f] := Join(c, u);
    assert i[..] == s[f := Join(c, u)];
  }

  lemma FirstTaken(s: seq<Node>, h: nat, f: nat, d: nat, o: nat, last: nat, bag: multiset<nat>, weight: nat, c: Node, h1: nat, d1: nat)
    requires h < f < o - 1 && d == 2 * f - h && weight <= TOO_HEAVY && Forest(s, h, f, d, o, last, bag, weight)
    requires TakenOne(s, f, o, last, bag, weight, c, h1, d1) && h1 + d1 == h + d + 1
    ensures Takeable(c, last, bag, weight) && 0 < c.f <= weight && weight - c.f < TOO_HEAVY && (f - h1) + (o - d1) > 0
    ensures Forest(s, h1, f, d1, o, c.f, bag - Bag(c), weight - c.f) && f < |s|
  {
    ForestSpan(s, h, f, d, o, last, bag, weight);
    hide Forest, Bag, Grounded, Heavy;
  }

  lemma SecondTaken(s: seq<Node>, h1: nat, f: nat, d1: nat, o: nat, last: nat, bag: multiset<nat>, weight: nat, c: Node, u: Node, h2: nat, d2: nat)
    requires h1 <= h2 <= f < o - 1 && h2 + d2 == h1 + d1 + 1 == 2 * f + 2 && Takeable(c, last, bag, weight) && c.f <= weight
    requires Forest(s, h1, f, d1, o, c.f, bag - Bag(c), weight - c.f)
    requires TakenOne(s, f, o, c.f, bag - Bag(c), weight - c.f, u, h2, d2)
    ensures f < |s| && Forest(s[f := Join(c, u)], h2, f + 1, d2, o, u.f, bag, weight)
    ensures 0 < c.f <= u.f && h2 <= f < d2 <= o < |s| && AllAbove(u.f, Weights(s[h2..f]) + Weights(s[d2..o]))
  {
    ForestSpan(s, h1, f, d1, o, c.f, bag - Bag(c), weight - c.f);
    ForestSpan(s, h2, f, d2, o, u.f, bag - Bag(c) - Bag(u), weight - c.f - u.f);
    LighterLeft(u, c.f, bag - Bag(c), weight - c.f);
    LighterLeft(c, last, bag, weight);
    QueuesAbove(s, h2, f, d2, o, u.f, bag - Bag(c) - Bag(u), weight - c.f - u.f);
    hide Forest, Bag, Grounded, Heavy, Takeable, Join;
    PairStored(s, h1, d1, h2, f, d2, o, c, u, last, bag, weight);
  }

  lemma ForestSpan(i: seq<Node>, h: nat, f: nat, d: nat, o: nat, last: nat, bag: multiset<nat>, weight: nat)
    requires Forest(i, h, f, d, o, last, bag, weight)
    ensures h <= f < d <= o && |i| == o + 1
  {
  }

  lemma LighterLeft(c: Node, last: nat, bag: multiset<nat>, weight: nat)
    requires Takeable(c, last, bag, weight)
    ensures 0 < c.f <= weight && last <= c.f && Bag(c) <= bag
  {
  }

  lemma TakeableLight(c: Node, last: nat, bag: multiset<nat>, weight: nat)
    requires Takeable(c, last, bag, weight)
    ensures Grounded(c) && Heavy(c) <= last
  {
  }

  /** Both nodes taken and their pair stored: nothing is lost. */
  lemma PairStored(s: seq<Node>, h1: nat, d1: nat, h2: nat, f: nat, d2: nat, o: nat, c: Node, u: Node, last: nat,
                   bag: multiset<nat>, weight: nat)
    requires Takeable(c, last, bag, weight) && c.f <= weight && Takeable(u, c.f, bag - Bag(c), weight - c.f) && u.f <= weight - c.f
    requires h1 <= h2 && d2 > f + 1 && Forest(s, h1, f, d1, o, c.f, bag - Bag(c), weight - c.f)
    requires Forest(s, h2, f, d2, o, u.f, bag - Bag(c) - Bag(u), weight - c.f - u.f)
    ensures Forest(s[f := Join(c, u)], h2, f + 1, d2, o, u.f, bag, weight)
  {
    hide *;
    ForestSpan(s, h2, f, d2, o, u.f, bag - Bag(c) - Bag(u), weight - c.f - u.f);
    LighterLeft(c, last, bag, weight);
    LighterLeft(u, c.f, bag - Bag(c), weight - c.f);
    TakeableLight(c, last, bag, weight);
    TakeableLight(u, c.f, bag - Bag(c), weight - c.f);
    var bag1, weight1 := bag - Bag(c), weight - c.f;
    forall k | h2 <= k < f ensures Heavy(s[k]) <= c.f { QueueHeavy(s, h1, f, d1, o, c.f, bag1, weight1, k); }
    StoreJoined(s, h2, f, d2, o, c, u, bag1 - Bag(u), weight1 - u.f);
    assert bag1 - Bag(u) + Bag(c) + Bag(u) == bag;
  }

  lemma FirstBest(freqs: seq<nat>, leaves: seq<Node>, s: seq<Node>, o: nat)
    requires o == |leaves| >= 2 && s == leaves + [Stop(TOO_HEAVY)] && Ordered(leaves, Lighter)
    requires forall k :: 0 <= k < o ==> leaves[k].Leaf? && leaves[k].f > 0 && Own(freqs, leaves[k])
    ensures Best(freqs, Weights(leaves), s[0 := Join(s[0], s[1])], 0, 1, 2, o)
  {
    hide Weights, SeqCost, Best, Own;
    BestAtFirst(freqs, leaves, s, o);
    HeadedLeaf(s, 0, 0, 0, o);
    HeadedLeaf(s, 0, 0, 1, o);
    assert Lighter(leaves[0], leaves[1]);
    var rest := leaves[2..];
    forall k | 0 <= k < |rest| ensures s[1].f <= rest[k].f { assert Lighter(leaves[1], leaves[k + 2]); }
    SeqAbove(rest, s[1].f);
    assert s[2..o] == rest && s[0..0] == [];
    NoWeights();
    BestKept(freqs, Weights(leaves), s, 0, 0, 0, o, s[0], 0, 1, s[1], 0, 2);
  }

  lemma NoWeights()
    ensures Weights([]) == multiset{} && SeqCost([]) == 0
  {
  }

  /** Merge the leaves, sorted by weight, into one tree.  Inner nodes take the places of the
      leaves already used; the array ends with a sentinel too heavy to be chosen. */
  method BuildTree(leaves: seq<Node>, ghost freqs: seq<nat>) returns (root: Node)
    requires |leaves| >= 2 && Ordered(leaves, Lighter) && SeqWeight(leaves) <= TOO_HEAVY
    requires forall k :: 0 <= k < |leaves| ==> leaves[k].Leaf? && leaves[k].f > 0 && Own(freqs, leaves[k])
    ensures root.Inner? && Grounded(root) && Bag(root) == SeqBag(leaves) && root.f == SeqWeight(leaves)
    ensures Own(freqs, root) && Optimality.AtLeast(Weights(leaves), Cost(root))
  {
    var o := |leaves|;
    var i := new Node[o + 1](k requires 0 <= k <= o => if k < o then leaves[k] else Stop(TOO_HEAVY));
    assert i[..] == leaves + [Stop(TOO_HEAVY)];
    ghost var bag, weight := SeqBag(leaves), SeqWeight(leaves);
    FirstForest(i[..], leaves, o);
    ghost var all := Weights(leaves);
    FirstBest(freqs, leaves, i[..], o);
    hide *;
    var c, u := i[0], i[1];
    var h: nat, f: nat, d: nat := 0, 1, 2;
    i[0] := Join(c, u);
    ghost var last := u.f;
    while f != o - 1
      invariant h < f <= o - 1 && d == 2 * f - h
      invariant Forest(i[..], h, f, d, o, last, bag, weight) && Best(freqs, all, i[..], h, f, d, o)
      decreases o - f
    {
      h, d, last := MergeTwo(i, h, f, d, o, last, bag, weight, freqs, all);
      f := f + 1;
    }
    root := i[f - 1];
    BestAtLast(freqs, all, i[..], h, f, d, o);
    TreeDone(i[..], h, f, d, o, last, bag, weight);
  }

  /** One inner node and no leaf left: that node is the tree. */
  lemma TreeDone(i: seq<Node>, h: nat, f: nat, d: nat, o: nat, last: nat, bag: multiset<nat>, weight: nat)
    requires Forest(i, h, f, d, o, last, bag, weight) && h < f == o - 1 && d == 2 * f - h
    ensures |i| == o + 1 && i[f - 1].Inner? && Grounded(i[f - 1]) && Bag(i[f - 1]) == bag && i[f - 1].f == weight
  {
    var root := i[f - 1];
    assert i[h..f] == [root] && i[d..o] == [];
    assert [root][0].Inner? && Grounded([root][0]);
    SeqAppend([], root);
    assert [] + [root] == [root];
  }

  // -------- depths ---------------------------------------------------------------------

  /** The lengths after every leaf of n has been given its depth, n being at depth d. */
  function Paint(n: Node, lens: seq<nat>, d: nat): (r: seq<nat>)
    ensures |r| == |lens|
  {
    match n
    case Leaf(s, _) => if s < |lens| then lens[s := d] else lens
    case Inner(_, l, r) => Paint(r, Paint(l, lens, d + 1), d + 1)
    case Stop(_) => lens
  }

  /** Store the depths of the leaves; the result is the greatest of them. */
  method AssignDepths(n: Node, t: array<nat>, d: nat) returns (m: nat)
    requires Grounded(n)
    modifies t
    ensures t[..] == Paint(n, old(t[..]), d) && m == d + Height(n)
    decreases n
  {
    match n
    case Leaf(s, _) =>
      if s < t.Length { t[s] := d; }
      m := d;
    case Inner(_, l, r) =>
      var a := AssignDepths(l, t, d + 1);
      var b := AssignDepths(r, t, d + 1);
      m := if a >= b then a else b;
  }

  lemma {:induction false} PaintOthers(n: Node, lens: seq<nat>, d: nat, a: nat)
    requires a < |lens| && a !in Bag(n)
    ensures Paint(n, lens, d)[a] == lens[a]
  {
    if n.Inner? {
      PaintOthers(n.l, lens, d + 1, a);
      PaintOthers(n.r, Paint(n.l, lens, d + 1), d + 1, a);
    }
  }

  lemma {:induction false} PaintLeaf(n: Node, lens: seq<nat>, d: nat, a: nat)
    requires a < |lens| && a in Bag(n)
    ensures d <= Paint(n, lens, d)[a] <= d + Height(n) && (n.Inner? ==> d < Paint(n, lens, d)[a])
  {
    if n.Inner? {
      if a in Bag(n.r) {
        PaintLeaf(n.r, Paint(n.l, lens, d + 1), d + 1, a);
      } else {
        PaintLeaf(n.l, lens, d + 1, a);
        PaintOthers(n.r, Paint(n.l, lens, d + 1), d + 1, a);
      }
    }
  }

  /** A tree at depth d takes up exactly the code space of one symbol of length d: its leaves'
      depths have Kraft sum 2^-d, whatever its shape. */
  lemma {:induction false} PaintKraft(n: Node, lens: seq<nat>, d: nat, m: nat)
    requires Grounded(n) && d + Height(n) <= m && (d > 0 || n.Inner?) && Unpainted(n, lens)
    ensures Kraft(Paint(n, lens, d), m) == Kraft(lens, m) + Pow2(m - d)
    decreases n
  {
    hide *;
    if n.Inner? {
      InnerParts(n, lens, d, m);
      PaintKraft(n.l, lens, d + 1, m);
      PaintKraft(n.r, Paint(n.l, lens, d + 1), d + 1, m);
      Pow2Halves(m - d);
    } else {
      LeafKraft(n, lens, d, m);
    }
  }

  lemma LeafKraft(n: Node, lens: seq<nat>, d: nat, m: nat)
    requires Grounded(n) && !n.Inner? && 0 < d <= m && Unpainted(n, lens)
    ensures Kraft(Paint(n, lens, d), m) == Kraft(lens, m) + Pow2(m - d)
  {
    hide Kraft, Pow2;
    assert n.s in Bag(n);
    KraftUpdate(lens, n.s, d, m);
  }

  lemma InnerParts(n: Node, lens: seq<nat>, d: nat, m: nat)
    requires Grounded(n) && n.Inner? && d + Height(n) <= m && Unpainted(n, lens)
    ensures Grounded(n.l) && Grounded(n.r) && d + 1 + Height(n.l) <= m && d + 1 + Height(n.r) <= m
    ensures Paint(n, lens, d) == Paint(n.r, Paint(n.l, lens, d + 1), d + 1)
    ensures Unpainted(n.l, lens) && Unpainted(n.r, Paint(n.l, lens, d + 1))
  {
    ChildrenUnpainted(n, lens, d);
  }

  /** The symbols of a tree have no length yet, and occur in it once. */
  ghost predicate Unpainted(n: Node, lens: seq<nat>) {
    forall a :: a in Bag(n) ==> a < |lens| && lens[a] == 0 && Bag(n)[a] <= 1
  }

  /** The left child's symbols are unpainted, and so are the right one's after the left. */
  lemma ChildrenUnpainted(n: Node, lens: seq<nat>, d: nat)
    requires n.Inner? && Unpainted(n, lens)
    ensures Unpainted(n.l, lens) && Unpainted(n.r, Paint(n.l, lens, d + 1))
  {
    forall a | a in Bag(n.l) ensures a < |lens| && lens[a] == 0 && Bag(n.l)[a] <= 1 { assert a in Bag(n); }
    var mid := Paint(n.l, lens, d + 1);
    forall a | a in Bag(n.r) ensures a < |mid| && mid[a] == 0 && Bag(n.r)[a] <= 1 {
      assert a in Bag(n) && a !in Bag(n.l);
      PaintOthers(n.l, lens, d + 1, a);
    }
  }

  lemma Pow2Halves(k: nat)
    requires k > 0
    ensures Pow2(k) == Pow2(k - 1) + Pow2(k - 1)
  {
  }

  // -------- the limit ------------------------------------------------------------------

  /** `s` lists every used symbol of g once. */
  ghost predicate Lists(s: seq<Node>, g: seq<nat>) {
    && (forall k :: 0 <= k < |s| ==> s[k].Leaf? && s[k].s < |g| && g[s[k].s] > 0)
    && (forall j, k :: 0 <= j < k < |s| ==> s[j].s != s[k].s)
    && (forall a: nat {:trigger Listed(s, a)} :: a < |g| && g[a] > 0 ==> Listed(s, a))
  }

  ghost predicate Listed(s: seq<Node>, a: nat) {
    exists k :: 0 <= k < |s| && s[k].Leaf? && s[k].s == a
  }

  /** The same symbols are used. */
  ghost predicate SameUsed(g: seq<nat>, h: seq<nat>) {
    |g| == |h| && forall a :: 0 <= a < |g| ==> (g[a] > 0 <==> h[a] > 0)
  }

  lemma ListsSame(s: seq<Node>, g: seq<nat>, h: seq<nat>)
    requires Lists(s, g) && SameUsed(g, h)
    ensures Lists(s, h)
  {
    forall a: nat | a < |h| && h[a] > 0 ensures Listed(s, a) {
      assert g[a] > 0;
    }
  }

  /** The first j symbols of the list have length r. */
  ghost predicate Flat(g: seq<nat>, s: seq<Node>, j: nat, r: nat)
    requires Lists(s, g) && j <= |s|
  {
    forall k :: 0 <= k < j ==> g[s[k].s] == r
  }

  /** The debt of n symbols stays far below 2^31. */
  lemma DebtFits(n: nat, b: nat)
    requires n <= 288 && b <= 19
    ensures n * Pow2(b) < 0x8000_0000
  {
    Pow2Mono(b, 19);
    assert Pow2(10) == 1024 && Pow2(15) == 32768 by { Pow2Fifteen(); }
    assert Pow2(19) == 524288;
    hide Pow2;
    FewTimes(n, Pow2(b));
  }

  lemma FewTimes(n: nat, x: nat)
    requires n <= 288
    ensures n * x <= 288 * x
  {
  }

  /** Lengths up to t for the used symbols of g0, which overdraw the code space by v units. */
  ghost predicate Overdrawn(g0: seq<nat>, g: seq<nat>, s: seq<Node>, t: nat, v: int) {
    SameUsed(g0, g) && Lists(s, g) && LengthsUpTo(g, t) && Kraft(g, t) == Pow2(t) + v
  }

  /** Giving the a-th symbol of the list another length moves the debt by the difference of the
      two shares, and leaves the other symbols alone. */
  lemma SetLength(g0: seq<nat>, g: seq<nat>, s: seq<Node>, t: nat, v: int, a: nat, n: nat)
    requires Overdrawn(g0, g, s, t, v) && a < |s| && 0 < n <= t
    ensures Overdrawn(g0, g[s[a].s := n], s, t, v + Pow2(t - n) - Pow2(t - g[s[a].s]))
    ensures forall k :: 0 <= k < |s| && k != a ==> g[s[a].s := n][s[k].s] == g[s[k].s]
  {
    var h := g[s[a].s := n];
    KraftUpdate(g, s[a].s, n, t);
    ListsSame(s, g, h);
    forall k | 0 <= k < |s| && k != a ensures s[k].s != s[a].s { if k < a {} else {} }
  }

  /** Cut every length above r down to r; v is the code space, in units of 2^-m, by which the
      code is now too large. */
  method Clip(g: array<nat>, s: seq<Node>, m: nat, r: nat) returns (a: nat, v: nat)
    requires 0 < r < m <= 20 && |s| <= 288
    requires Overdrawn(g[..], g[..], s, m, 0)
    requires forall j, k :: 0 <= j < k < |s| ==> Deeper(g[..], s[j], s[k])
    modifies g
    ensures Overdrawn(old(g[..]), g[..], s, m, v) && v < 0x8000_0000
    ensures a <= |s| && Flat(g[..], s, a, r) && LengthsUpTo(g[..], r)
    ensures (forall k :: a <= k < |s| ==> g[..][s[k].s] == old(g[..])[s[k].s]) && (a == 0 ==> v == 0)
  {
    hide Pow2, Kraft, Deeper, Flat;
    ghost var g0 := g[..];
    var y := Pow2(m - r);
    a, v := 0, 0;
    NoneFlat(g0, s, r);
    while a < |s| && g[s[a].s] > r
      invariant a <= |s| && Overdrawn(g0, g[..], s, m, v) && Flat(g[..], s, a, r)
      invariant forall k :: a <= k < |s| ==> g[s[k].s] == g0[s[k].s]
      invariant v <= a * y && (a == 0 ==> v == 0)
    {
      var w := s[a].s;
      ClipStep(g0, g[..], s, m, v, a, r);
      v := v + (y - Pow2(m - g[w]));
      g[w] := r;
      a := a + 1;
    }
    DebtFits(a, m - r);
    AllClipped(g0, g[..], s, a, m, r, v);
  }

  lemma NoneFlat(g: seq<nat>, s: seq<Node>, r: nat)
    requires Lists(s, g)
    ensures Flat(g, s, 0, r)
  {
  }

  lemma ClipStep(g0: seq<nat>, g: seq<nat>, s: seq<Node>, m: nat, v: nat, a: nat, r: nat)
    requires 0 < r < m && Overdrawn(g0, g, s, m, v) && a < |s| && Flat(g, s, a, r) && r < g[s[a].s] && v <= a * Pow2(m - r)
    ensures Pow2(m - g[s[a].s]) <= Pow2(m - r)
    ensures var v2 := v + (Pow2(m - r) - Pow2(m - g[s[a].s])); var g2 := g[s[a].s := r];
            Overdrawn(g0, g2, s, m, v2) && Flat(g2, s, a + 1, r) && v2 <= (a + 1) * Pow2(m - r)
    ensures forall k :: 0 <= k < |s| && k != a ==> g[s[a].s := r][s[k].s] == g[s[k].s]
  {
    hide Pow2, Kraft;
    SetLength(g0, g, s, m, v, a, r);
    Pow2Mono(m - g[s[a].s], m - r);
    assert (a + 1) * Pow2(m - r) == a * Pow2(m - r) + Pow2(m - r);
  }

  lemma AllClipped(g0: seq<nat>, g: seq<nat>, s: seq<Node>, a: nat, m: nat, r: nat, v: int)
    requires Overdrawn(g0, g, s, m, v) && a <= |s| && Flat(g, s, a, r) && Lists(s, g0)
    requires forall k :: a <= k < |s| ==> g[s[k].s] == g0[s[k].s]
    requires forall j, k :: 0 <= j < k < |s| ==> Deeper(g0, s[j], s[k])
    requires a < |s| ==> g[s[a].s] <= r
    ensures LengthsUpTo(g, r)
  {
    forall c | 0 <= c < |g| ensures g[c] <= r {
      if g[c] > 0 {
        assert Listed(s, c);
        var k :| 0 <= k < |s| && s[k].s == c;
        if k > a { assert Deeper(g0, s[a], s[k]); }
      }
    }
  }

  lemma OneLonger(g0: seq<nat>, g: seq<nat>, s: seq<Node>, r: nat, v: int, a: nat, h: seq<nat>)
    requires Overdrawn(g0, g, s, r, v) && a < |s| && g[s[a].s] < r && Flat(g, s, a, r)
    requires h == g[s[a].s := g[s[a].s] + 1]
    ensures Overdrawn(g0, h, s, r, v - Pow2(r - g[s[a].s] - 1)) && Flat(h, s, a, r)
  {
    SetLength(g0, g, s, r, v, a, g[s[a].s] + 1);
  }

  // -------- what is overpaid can be given back -------------------------------------------

  ghost predicate Within(g: seq<nat>, ns: seq<Node>, t: nat) {
    forall k :: 0 <= k < |ns| ==> ns[k].Leaf? && ns[k].s < |g| && g[ns[k].s] <= t
  }

  /** The code space, in units of 2^-t, that the listed symbols take. */
  function Shares(g: seq<nat>, ns: seq<Node>, t: nat): nat
    requires Within(g, ns, t)
  {
    if ns == [] then 0 else Pow2(t - g[ns[0].s]) + Shares(g, ns[1..], t)
  }

  lemma {:induction false} SharesSame(g: seq<nat>, h: seq<nat>, ns: seq<Node>, t: nat)
    requires Within(g, ns, t) && Within(h, ns, t) && forall k :: 0 <= k < |ns| ==> g[ns[k].s] == h[ns[k].s]
    ensures Shares(g, ns, t) == Shares(h, ns, t)
  {
    hide Pow2;
    if ns != [] { SharesSame(g, h, ns[1..], t); }
  }

  /** Shorter codes take more. */
  lemma {:induction false} SharesMono(g: seq<nat>, h: seq<nat>, ns: seq<Node>, t: nat)
    requires Within(g, ns, t) && Within(h, ns, t) && forall k :: 0 <= k < |ns| ==> g[ns[k].s] >= h[ns[k].s]
    ensures Shares(g, ns, t) <= Shares(h, ns, t)
  {
    hide Pow2;
    if ns != [] {
      SharesMono(g, h, ns[1..], t);
      Pow2Mono(t - g[ns[0].s], t - h[ns[0].s]);
    }
  }

  lemma {:induction false} SharesJoin(g: seq<nat>, ns: seq<Node>, a: nat, t: nat)
    requires Within(g, ns, t) && a <= |ns|
    ensures Shares(g, ns, t) == Shares(g, ns[..a], t) + Shares(g, ns[a..], t)
  {
    hide Pow2;
    if a > 0 {
      SharesJoin(g, ns[1..], a - 1, t);
      assert ns[..a][1..] == ns[1..][..a - 1] && ns[a..] == ns[1..][a - 1..];
    } else {
      assert ns[0..] == ns && ns[..0] == [];
    }
  }

  /** A symbol at full length takes one unit, and none takes less. */
  lemma {:induction false} SharesFlat(g: seq<nat>, ns: seq<Node>, t: nat)
    requires Within(g, ns, t)
    ensures Shares(g, ns, t) >= |ns|
    ensures (forall k :: 0 <= k < |ns| ==> g[ns[k].s] == t) ==> Shares(g, ns, t) == |ns|
  {
    if ns != [] {
      SharesFlat(g, ns[1..], t);
      assert Pow2(0) == 1;
    }
  }

  /** Codes no longer than top take a whole number of shares of that length. */
  lemma {:induction false} SharesMultiple(g: seq<nat>, ns: seq<Node>, top: nat, t: nat) returns (q: nat)
    requires Within(g, ns, t) && top <= t && Within(g, ns, top)
    ensures Shares(g, ns, t) == q * Pow2(t - top)
  {
    hide Pow2;
    if ns == [] {
      q := 0;
    } else {
      var rest := SharesMultiple(g, ns[1..], top, t);
      var d := top - g[ns[0].s];
      Pow2Sum(d, t - top);
      q := rest + Pow2(d);
      Spread(rest, Pow2(d), Pow2(t - top));
    }
  }

  lemma Spread(a: nat, b: nat, u: nat)
    ensures (a + b) * u == a * u + b * u
  {
  }

  lemma {:induction false} Pow2Sum(a: nat, b: nat)
    ensures Pow2(a + b) == Pow2(a) * Pow2(b)
  {
    if a > 0 { Pow2Sum(a - 1, b); }
  }

  /** At a finer resolution shares only scale. */
  lemma {:induction false} SharesScale(g: seq<nat>, ns: seq<Node>, r: nat, m: nat)
    requires r <= m && Within(g, ns, r) && Within(g, ns, m)
    ensures Shares(g, ns, m) == Shares(g, ns, r) * Pow2(m - r)
  {
    hide Pow2;
    if ns != [] {
      SharesScale(g, ns[1..], r, m);
      Pow2Sum(r - g[ns[0].s], m - r);
      Spread(Pow2(r - g[ns[0].s]), Shares(g, ns[1..], r), Pow2(m - r));
    }
  }

  /** The list of used symbols takes what the code takes. */
  lemma {:induction false} ListKraft(g: seq<nat>, s: seq<Node>, t: nat)
    requires Lists(s, g) && LengthsUpTo(g, t)
    ensures Within(g, s, t) && Shares(g, s, t) == Kraft(g, t)
    decreases |s|
  {
    hide Pow2, Kraft;
    if s == [] {
      forall a: nat | a < |g| && g[a] > 0 ensures Listed(s, a) { }
      KraftUnused(g, t);
    } else {
      var x := s[0].s;
      var h := g[x := 0];
      forall a: nat | a < |h| && h[a] > 0 ensures Listed(s[1..], a) {
        assert Listed(s, a);
        var k :| 0 <= k < |s| && s[k].s == a;
        assert s[1..][k - 1].s == a;
      }
      ListKraft(h, s[1..], t);
      SharesSame(g, h, s[1..], t);
      KraftUpdate(g, x, 0, t);
      ShareOf(g[x], t);
    }
  }

  lemma ShareOf(len: nat, t: nat)
    requires 0 < len <= t
    ensures Share(len, t) == Pow2(t - len) && Share(0, t) == 0
  {
  }

  /** The lengths of a complete tree, and a list of their symbols, deepest first. */
  ghost predicate Complete(tree: seq<nat>, s: seq<Node>, m: nat) {
    Overdrawn(tree, tree, s, m, 0) && forall j, k :: 0 <= j < k < |s| ==> Deeper(tree, s[j], s[k])
  }

  /** Behind a nothing has changed since, and at a the code can only have become longer. */
  ghost predicate Untouched(tree: seq<nat>, g: seq<nat>, s: seq<Node>, a: nat)
    requires Lists(s, tree) && Lists(s, g)
  {
    && (forall k :: a < k < |s| ==> g[s[k].s] == tree[s[k].s])
    && (a < |s| ==> tree[s[a].s] <= g[s[a].s])
  }

  /** The symbols from a on do not fill the code: those before a had their part of the tree. */
  lemma RestSmall(tree: seq<nat>, g: seq<nat>, s: seq<Node>, m: nat, r: nat, a: nat)
    requires Complete(tree, s, m) && r < m && 0 < a < |s| && Lists(s, g) && LengthsUpTo(g, r) && Untouched(tree, g, s, a)
    ensures Within(g, s[a..], r) && Shares(g, s[a..], r) < Pow2(r)
  {
    hide Pow2, Kraft, Deeper, SameUsed;
    ListKraft(tree, s, m);
    SharesJoin(tree, s, a, m);
    SharesFlat(tree, s[..a], m);
    assert Within(g, s, r);
    var rest := s[a..];
    forall k | 0 <= k < |rest| ensures tree[rest[k].s] <= g[rest[k].s] { assert rest[k] == s[a + k]; }
    assert Within(tree, rest, r) && Within(g, rest, r);
    SharesMono(g, tree, rest, r);
    SharesScale(tree, rest, r, m);
    Pow2Sum(r, m - r);
    Smaller(Shares(tree, rest, r), Pow2(r), Pow2(m - r));
  }

  lemma Smaller(x: nat, y: nat, u: nat)
    requires x * u < y * u
    ensures x < y
  {
  }

  /** From a on all codes are at most as long as the one at a. */
  lemma NoneLonger(tree: seq<nat>, g: seq<nat>, s: seq<Node>, m: nat, a: nat)
    requires Complete(tree, s, m) && a < |s| && Lists(s, g) && Untouched(tree, g, s, a)
    ensures Within(g, s[a..], g[s[a].s])
  {
    hide Kraft, Pow2, LengthsUpTo, SameUsed;
    forall k | 0 <= k < |s[a..]| ensures s[a..][k].Leaf? && s[a..][k].s < |g| && g[s[a..][k].s] <= g[s[a].s] {
      assert s[a..][k] == s[a + k];
      if k > 0 { assert Deeper(tree, s[a], s[a + k]); }
    }
  }

  /** Whatever the last lengthening pays too much, there are more symbols of full length before it. */
  lemma Overpaid(tree: seq<nat>, g: seq<nat>, s: seq<Node>, m: nat, r: nat, a: nat, v: int)
    requires Complete(tree, s, m) && r < m && 0 < a < |s| && Overdrawn(tree, g, s, r, v) && v > 0
    requires Flat(g, s, a, r) && Untouched(tree, g, s, a) && g[s[a].s] < r
    ensures Pow2(r - g[s[a].s] - 1) - v <= a
  {
    hide Pow2, Kraft, Deeper, SameUsed;
    var top := g[s[a].s];
    RestSmall(tree, g, s, m, r, a);
    NoneLonger(tree, g, s, m, a);
    ListKraft(g, s, r);
    SharesJoin(g, s, a, r);
    forall k | 0 <= k < |s[..a]| ensures g[s[..a][k].s] == r { assert s[..a][k] == s[k]; }
    SharesFlat(g, s[..a], r);
    var q := SharesMultiple(g, s[a..], top, r);
    Pow2Sum(top, r - top);
    WholeParts(q, Pow2(top), Pow2(r - top));
    Pow2Halves(r - top);
  }

  lemma WholeParts(q: nat, n: nat, u: nat)
    requires q * u < n * u
    ensures q * u + u <= n * u
  {
    Smaller(q, n, u);
    assert (q + 1) * u <= n * u;
  }

  /** Along the list no length is above one before it. */
  ghost predicate Falling(g: seq<nat>, s: seq<Node>)
    requires Lists(s, g)
  {
    forall j, k :: 0 <= j < k < |s| ==> g[s[j].s] >= g[s[k].s]
  }

  /** Behind a all lengths are below the limit. */
  ghost predicate LessAfter(g: seq<nat>, s: seq<Node>, a: nat, r: nat)
    requires Lists(s, g)
  {
    forall k :: a < k < |s| ==> g[s[k].s] < r
  }

  lemma StillFalling(tree: seq<nat>, g: seq<nat>, s: seq<Node>, m: nat, r: nat, a: nat)
    requires Complete(tree, s, m) && Lists(s, g) && LengthsUpTo(g, r) && a <= |s| && Flat(g, s, a, r) && Untouched(tree, g, s, a)
    ensures Falling(g, s)
  {
    hide Kraft, Pow2, SameUsed;
    forall j, k | 0 <= j < k < |s| ensures g[s[j].s] >= g[s[k].s] {
      assert Deeper(tree, s[j], s[k]);
    }
  }

  lemma LessBehind(tree: seq<nat>, g: seq<nat>, s: seq<Node>, m: nat, r: nat, a: nat)
    requires Complete(tree, s, m) && a < |s| && Lists(s, g) && Untouched(tree, g, s, a) && g[s[a].s] < r
    ensures LessAfter(g, s, a, r)
  {
    hide Kraft, Pow2, SameUsed, LengthsUpTo;
    forall k | a < k < |s| ensures g[s[k].s] < r { assert Deeper(tree, s[a], s[k]); }
  }

  /** Shortening the last of the codes at full length keeps the order. */
  lemma FallingStep(g: seq<nat>, s: seq<Node>, a: nat, r: nat)
    requires r > 1 && Lists(s, g) && Falling(g, s) && a < |s| && g[s[a].s] <= r && LessAfter(g, s, a, r)
    ensures var h := if g[s[a].s] == r then g[s[a].s := r - 1] else g; Lists(s, h) && Falling(h, s) && (a > 0 ==> LessAfter(h, s, a - 1, r))
  {
    var h := if g[s[a].s] == r then g[s[a].s := r - 1] else g;
    ListsSame(s, g, h);
    forall j, k | 0 <= j < k < |s| ensures h[s[j].s] >= h[s[k].s] {
      assert g[s[j].s] >= g[s[k].s] && s[j].s != s[k].s;
    }
  }

  /** Make room for v units of 2^-r by lengthening codes, longest below the limit first.  What is
      paid too much is no more than there are symbols of full length before the last one. */
  method Lengthen(g: array<nat>, s: seq<Node>, a0: nat, v0: nat, r: nat, ghost tree: seq<nat>, ghost m: nat) returns (a: nat, v: int)
    requires 0 < r < m && g.Length <= Pow2(r) && Complete(tree, s, m)
    requires Overdrawn(tree, g[..], s, r, v0) && a0 <= |s| && Flat(g[..], s, a0, r) && Untouched(tree, g[..], s, a0) && (a0 == 0 ==> v0 == 0)
    modifies g
    ensures Overdrawn(tree, g[..], s, r, v) && v <= 0 && a <= |s| && (v < 0 ==> a < |s|) && Flat(g[..], s, a, r) && -v <= a
    ensures Lists(s, g[..]) && Falling(g[..], s) && (v < 0 ==> LessAfter(g[..], s, a, r))
  {
    hide Pow2, Kraft, Complete, SameUsed, LengthsUpTo, Lists, Flat, Untouched, LessAfter, Falling;
    a, v := a0, v0;
    SameList(tree, g[..], s, r, v);
    while v > 0
      invariant a <= |s| && Overdrawn(tree, g[..], s, r, v) && Flat(g[..], s, a, r) && (v < 0 ==> a < |s|)
      invariant Lists(s, tree) && Lists(s, g[..]) && Untouched(tree, g[..], s, a) && (a == 0 ==> v <= 0) && -v <= a
      invariant v < 0 ==> LessAfter(g[..], s, a, r)
      decreases |s| - a, if a < |s| && s[a].Leaf? && s[a].s < g.Length then r - g[s[a].s] else 0
    {
      ghost var before := g[..];
      RoomLeft(tree, before, s, a, r, v);
      var x := s[a].s;
      if g[x] < r {
        LengthenOne(tree, before, s, m, r, a, v);
        LessBehind(tree, before, s, m, r, a);
        LessStill(before, s, a, r, g[x] + 1);
        v := v - Pow2(r - g[x] - 1);
        g[x] := g[x] + 1;
        assert g[..] == before[x := before[x] + 1];
        SameList(tree, g[..], s, r, v);
      } else {
        PassOne(tree, before, s, r, a, v);
        a := a + 1;
      }
    }
    DebtLimit(tree, g[..], s, r, v);
    StillFalling(tree, g[..], s, m, r, a);
  }

  lemma DebtLimit(tree: seq<nat>, g: seq<nat>, s: seq<Node>, r: nat, v: int)
    requires Overdrawn(tree, g, s, r, v)
    ensures LengthsUpTo(g, r)
  {
  }

  lemma LessStill(g: seq<nat>, s: seq<Node>, a: nat, r: nat, n: nat)
    requires a < |s| && Lists(s, g) && LessAfter(g, s, a, r) && n > 0
    ensures Lists(s, g[s[a].s := n]) && LessAfter(g[s[a].s := n], s, a, r)
  {
    ListsSame(s, g, g[s[a].s := n]);
  }

  lemma SameList(tree: seq<nat>, g: seq<nat>, s: seq<Node>, r: nat, v: int)
    requires Overdrawn(tree, g, s, r, v)
    ensures Lists(s, g) && Lists(s, tree) && |g| == |tree|
  {
    hide Kraft, Pow2;
    ListsSame(s, g, tree);
  }

  lemma RoomLeft(tree: seq<nat>, g: seq<nat>, s: seq<Node>, a: nat, r: nat, v: int)
    requires Overdrawn(tree, g, s, r, v) && v > 0 && a <= |s| && Flat(g, s, a, r) && |g| <= Pow2(r)
    ensures a < |s| && s[a].Leaf? && s[a].s < |g| && g[s[a].s] <= r
  {
    hide Kraft, Pow2;
    SomeRoom(g, s, a, r, v);
  }

  /** One code longer. */
  lemma LengthenOne(tree: seq<nat>, g: seq<nat>, s: seq<Node>, m: nat, r: nat, a: nat, v: int)
    requires Complete(tree, s, m) && r < m && 0 < a < |s| && Overdrawn(tree, g, s, r, v) && v > 0
    requires Flat(g, s, a, r) && Untouched(tree, g, s, a) && s[a].Leaf? && g[s[a].s] < r
    ensures var h := g[s[a].s := g[s[a].s] + 1];
            && Overdrawn(tree, h, s, r, v - Pow2(r - g[s[a].s] - 1)) && Flat(h, s, a, r) && Untouched(tree, h, s, a)
    ensures -(v - Pow2(r - g[s[a].s] - 1)) <= a
  {
    hide Pow2, Kraft, Complete, Deeper, SameUsed;
    Overpaid(tree, g, s, m, r, a, v);
    var h := g[s[a].s := g[s[a].s] + 1];
    OneLonger(tree, g, s, r, v, a, h);
    SetLength(tree, g, s, r, v, a, g[s[a].s] + 1);
  }

  /** On to the next symbol, which is as it was. */
  lemma PassOne(tree: seq<nat>, g: seq<nat>, s: seq<Node>, r: nat, a: nat, v: int)
    requires Overdrawn(tree, g, s, r, v) && a < |s| && Lists(s, tree) && Flat(g, s, a, r) && Untouched(tree, g, s, a) && g[s[a].s] == r
    ensures Flat(g, s, a + 1, r) && Untouched(tree, g, s, a + 1)
  {
    hide Kraft, Pow2;
  }

  /** While the code is too large some symbol is still shorter than the limit. */
  lemma SomeRoom(g: seq<nat>, s: seq<Node>, a: nat, r: nat, v: int)
    requires a <= |s| && Lists(s, g) && Flat(g, s, a, r)
    requires |g| <= Pow2(r) && Kraft(g, r) == Pow2(r) + v && v > 0
    ensures a < |s|
  {
    if a == |s| {
      forall c | 0 <= c < |g| ensures g[c] == 0 || g[c] == r {
        if g[c] > 0 {
          assert Listed(s, c);
          var k :| 0 <= k < |s| && s[k].s == c;
        }
      }
      KraftFlat(g, r);
    }
  }

  lemma OneShorter(g0: seq<nat>, g: seq<nat>, s: seq<Node>, r: nat, v: int, a: nat)
    requires r > 1 && Overdrawn(g0, g, s, r, v) && a < |s| && g[s[a].s] == r
    ensures Overdrawn(g0, g[s[a].s := r - 1], s, r, v + 1)
    ensures forall k :: 0 <= k < |s| && k != a ==> s[k].Leaf? && s[k].s < |g| && g[s[a].s := r - 1][s[k].s] == g[s[k].s]
  {
    hide Kraft, SameUsed, LengthsUpTo;
    SetLength(g0, g, s, r, v, a, r - 1);
    assert Pow2(0) == 1 && Pow2(1) == 2;
  }

  /** Give back what was saved too much, one unit a symbol: nothing of it is left. */
  method Shorten(g: array<nat>, s: seq<Node>, a0: nat, v0: int, r: nat)
    requires r > 1 && Overdrawn(g[..], g[..], s, r, v0) && a0 <= |s| && (v0 < 0 ==> a0 < |s|) && v0 <= 0
    requires Flat(g[..], s, a0, r) && -v0 <= a0
    requires Lists(s, g[..]) && Falling(g[..], s) && (v0 < 0 ==> LessAfter(g[..], s, a0, r))
    modifies g
    ensures SameUsed(old(g[..]), g[..]) && LengthsUpTo(g[..], r) && Kraft(g[..], r) == Pow2(r)
    ensures Lists(s, g[..]) && Falling(g[..], s)
  {
    hide Pow2, Kraft, Lists, SameUsed, LengthsUpTo, Falling, LessAfter;
    ghost var g0 := g[..];
    var a: int, v := a0, v0;
    AllInList(g0, g0, s, r, v);
    while a >= 0 && v != 0
      invariant -1 <= a <= |s| && (v < 0 ==> a < |s|) && v <= 0 && Overdrawn(g0, g[..], s, r, v)
      invariant forall k :: 0 <= k < |s| ==> s[k].Leaf? && s[k].s < g.Length
      invariant forall k :: 0 <= k <= a && k < a0 ==> g[s[k].s] == r
      invariant -v <= if a < a0 then a + 1 else a0
      invariant Lists(s, g[..]) && Falling(g[..], s) && (a >= 0 && v < 0 ==> LessAfter(g[..], s, a, r))
      decreases a
    {
      var x := s[a].s;
      DebtLimit(g0, g[..], s, r, v);
      AtMost(g[..], x, r);
      FallingStep(g[..], s, a, r);
      if g[x] == r {
        OneShorter(g0, g[..], s, r, v, a);
        g[x] := r - 1;
        v := v + 1;
      }
      a := a - 1;
    }
  }

  lemma AtMost(g: seq<nat>, x: nat, r: nat)
    requires x < |g| && LengthsUpTo(g, r)
    ensures g[x] <= r
  {
  }

  /** The three steps: afterwards no length is above r, the code fills its space exactly, and the
      lengths still fall along the list. */
  method Limit(g: array<nat>, s: seq<Node>, m: nat, r: nat)
    requires 1 < r < m <= 20 && |s| <= 288 && g.Length <= Pow2(r)
    requires Overdrawn(g[..], g[..], s, m, 0)
    requires forall j, k :: 0 <= j < k < |s| ==> Deeper(g[..], s[j], s[k])
    modifies g
    ensures SameUsed(old(g[..]), g[..]) && LengthsUpTo(g[..], r) && Kraft(g[..], r) == Pow2(r)
    ensures Lists(s, g[..]) && Falling(g[..], s)
  {
    hide Pow2, Kraft, Deeper, Lists, SameUsed, LengthsUpTo, Flat, Shr, Falling, LessAfter;
    ghost var tree := g[..];
    var a, v := Clip(g, s, m, r);
    var b := m - r;
    Clipped(tree, g[..], s, m, r, a, v);
    var a2, v2 := Lengthen(g, s, a, Shr(v, b), r, tree, m);
    ghost var long := g[..];
    OwnDebt(tree, long, s, r, v2);
    Shorten(g, s, a2, v2, r);
    SameUsedTwice(tree, long, g[..], s, r, v2);
  }

  lemma AllInList(g0: seq<nat>, g: seq<nat>, s: seq<Node>, r: nat, v: int)
    requires Overdrawn(g0, g, s, r, v)
    ensures forall k :: 0 <= k < |s| ==> s[k].Leaf? && s[k].s < |g|
  {
  }

  lemma Clipped(tree: seq<nat>, g: seq<nat>, s: seq<Node>, m: nat, r: nat, a: nat, v: nat)
    requires r < m && Overdrawn(tree, tree, s, m, 0) && (forall j, k :: 0 <= j < k < |s| ==> Deeper(tree, s[j], s[k]))
    requires Overdrawn(tree, g, s, m, v) && LengthsUpTo(g, r) && a <= |s| && Flat(g, s, a, r)
    requires (forall k :: a <= k < |s| ==> g[s[k].s] == tree[s[k].s]) && (a == 0 ==> v == 0)
    ensures Complete(tree, s, m) && Overdrawn(tree, g, s, r, Shr(v, m - r)) && Untouched(tree, g, s, a) && (a == 0 ==> Shr(v, m - r) == 0)
  {
    hide Pow2, Kraft, Deeper, Shr;
    DebtInUnits(g, v, m, r);
    NoShift(m - r);
  }

  lemma {:induction false} NoShift(k: nat)
    ensures Shr(0, k) == 0
  {
    if k > 0 { NoShift(k - 1); }
  }

  lemma OwnDebt(tree: seq<nat>, g: seq<nat>, s: seq<Node>, r: nat, v: int)
    requires Overdrawn(tree, g, s, r, v)
    ensures Overdrawn(g, g, s, r, v)
  {
    hide Kraft, Pow2;
  }

  lemma SameUsedTwice(f: seq<nat>, g: seq<nat>, h: seq<nat>, s: seq<Node>, r: nat, v: int)
    requires Overdrawn(f, g, s, r, v) && SameUsed(g, h)
    ensures SameUsed(f, h)
  {
    hide Kraft, Pow2, Lists;
  }

  /** With all lengths at most r the debt is a whole number of units of 2^-r: shifting loses nothing. */
  lemma DebtInUnits(g: seq<nat>, v: nat, m: nat, r: nat)
    requires r <= m && LengthsUpTo(g, r) && Kraft(g, m) == Pow2(m) + v
    ensures Kraft(g, r) == Pow2(r) + Shr(v, m - r)
  {
    var b := m - r;
    KraftScale(g, r, m);
    ShlPow2(r, b);
    if Kraft(g, r) < Pow2(r) {
      ShlMono(Kraft(g, r) + 1, Pow2(r), b);
      ShlNext(Kraft(g, r), b);
    }
    var u := Kraft(g, r) - Pow2(r);
    ShlPlus(Pow2(r), u, b);
    ShrShl(u, b);
  }

  // -------- all together ---------------------------------------------------------------

  /** What a list of lengths must be to code the symbols that occur: exactly those have a
      length, none is longer than l, the code fits, and the list ends with a used symbol. */
  ghost predicate CodesFor(freqs: seq<nat>, lens: seq<nat>, l: nat) {
    && |lens| <= |freqs|
    && (forall a :: 0 <= a < |freqs| ==> (freqs[a] > 0 <==> a < |lens| && lens[a] > 0))
    && LengthsUpTo(lens, l) && Kraft(lens, l) <= Pow2(l)
    && (|lens| > 0 ==> lens[|lens| - 1] > 0)
  }

  lemma {:induction false} BagAt(ns: seq<Node>, k: nat, x: nat)
    requires k < |ns|
    ensures SeqBag(ns)[x] >= Bag(ns[k])[x]
    decreases ns
  {
    if k > 0 { BagAt(ns[1..], k - 1, x); }
  }

  lemma {:induction false} BagTwice(ns: seq<Node>, j: nat, k: nat, x: nat)
    requires j < k < |ns|
    ensures SeqBag(ns)[x] >= Bag(ns[j])[x] + Bag(ns[k])[x]
    decreases ns
  {
    assert SeqBag(ns)[x] == Bag(ns[0])[x] + SeqBag(ns[1..])[x];
    if j > 0 { BagTwice(ns[1..], j - 1, k - 1, x); } else { BagAt(ns[1..], k - 1, x); }
  }

  lemma {:induction false} BagOrigin(ns: seq<Node>, a: nat)
    requires a in SeqBag(ns) && forall k :: 0 <= k < |ns| ==> ns[k].Leaf?
    ensures Listed(ns, a)
  {
    if ns[0].s != a {
      assert a in SeqBag(ns[1..]);
      BagOrigin(ns[1..], a);
      var k :| 0 <= k < |ns[1..]| && ns[1..][k].s == a;
      assert ns[k + 1].s == a;
    }
  }

  lemma UsedUpTo(freqs: seq<nat>, p: nat, a: nat)
    requires LastOf(Leaves(freqs), p) && a < |freqs| && freqs[a] > 0
    ensures a <= p
  {
    LeavesBag(freqs, a);
    BagOrigin(Leaves(freqs), a);
  }

  lemma InBag(freqs: seq<nat>, p: nat, bag: multiset<nat>, a: nat)
    requires bag == SeqBag(Leaves(freqs)) && LastOf(Leaves(freqs), p) && a in bag
    ensures a <= p && bag[a] <= 1
  {
    LeavesBag(freqs, a);
    BagOrigin(Leaves(freqs), a);
  }

  /** However the leaves are sorted, they list the used symbols of the painted lengths. */
  lemma LeavesList(freqs: seq<nat>, s: seq<Node>, g: seq<nat>)
    requires SeqBag(s) == SeqBag(Leaves(freqs)) && |g| <= |freqs|
    requires forall k :: 0 <= k < |s| ==> s[k].Leaf?
    requires forall a :: 0 <= a < |freqs| ==> (freqs[a] > 0 <==> a < |g| && g[a] > 0)
    ensures Lists(s, g)
  {
    forall k | 0 <= k < |s| ensures s[k].s < |g| && g[s[k].s] > 0 {
      BagAt(s, k, s[k].s);
      LeavesBag(freqs, s[k].s);
    }
    forall j, k | 0 <= j < k < |s| ensures s[j].s != s[k].s {
      BagTwice(s, j, k, s[j].s);
      LeavesBag(freqs, s[j].s);
    }
    forall a: nat | a < |g| && g[a] > 0 ensures Listed(s, a) {
      LeavesBag(freqs, a);
      assert a in SeqBag(s);
      BagOrigin(s, a);
    }
  }

  method LastSymbol(s: seq<Node>) returns (p: nat)
    requires |s| > 0 && forall k :: 0 <= k < |s| ==> s[k].Leaf?
    ensures LastOf(s, p)
  {
    p := s[0].s;
    for a := 1 to |s|
      invariant (forall k :: 0 <= k < a ==> s[k].s <= p) && exists k :: 0 <= k < a && s[k].s == p
    {
      if s[a].s > p { p := s[a].s; }
    }
  }

  lemma SortedLeaves(freqs: seq<nat>, s: seq<Node>)
    requires s == Leaves(freqs) && Sum(freqs) <= TOO_HEAVY
    ensures var i := Sort(s, Lighter);
            && |i| == |s| && Ordered(i, Lighter) && SeqWeight(i) <= TOO_HEAVY && SeqBag(i) == SeqBag(s) && Weights(i) == Optimality.Used(freqs)
            && forall k :: 0 <= k < |i| ==> i[k].Leaf? && i[k].f > 0 && Own(freqs, i[k])
    ensures forall k :: 0 <= k < |s| ==> s[k].Leaf?
  {
    hide Sort, Weights, SeqWeight, SeqBag, Ordered, Optimality.Used;
    var i := Sort(s, Lighter);
    SortKeeps(s, Lighter);
    SortOrders(s, Lighter);
    forall k | 0 <= k < |i| ensures i[k].Leaf? && i[k].f > 0 && Own(freqs, i[k]) {
      SortMembers(s, Lighter, i[k]);
      var j :| 0 <= j < |s| && s[j] == i[k];
    }
    LeavesWeight(freqs);
    LeavesWeights(freqs);
  }

  // -------- the depths are the best lengths ----------------------------------------------

  /** No code for the symbols that occur takes fewer bits, whatever its longest length. */
  ghost predicate Optimal(freqs: seq<nat>, g: seq<nat>) {
    forall lens: seq<nat>, m: nat :: CodesFor(freqs, lens, m) ==> Dot(freqs, g) <= Dot(freqs, lens)
  }

  /** A tree's depths, weighted, are what its joins have cost. */
  lemma {:induction false} PaintCost(freqs: seq<nat>, n: Node, lens: seq<nat>, d: nat)
    requires Grounded(n) && Own(freqs, n) && Unpainted(n, lens) && |lens| <= |freqs|
    ensures Dot(freqs, Paint(n, lens, d)) == Dot(freqs, lens) + Cost(n) + d * n.f
    decreases n
  {
    hide *;
    if n.Inner? {
      InnerCost(freqs, n, lens, d);
      PaintCost(freqs, n.l, lens, d + 1);
      PaintCost(freqs, n.r, Paint(n.l, lens, d + 1), d + 1);
      Deepened(n.l.f, n.r.f, d);
    } else {
      LeafCost(freqs, n, lens, d);
    }
  }

  lemma InnerCost(freqs: seq<nat>, n: Node, lens: seq<nat>, d: nat)
    requires Grounded(n) && n.Inner? && Own(freqs, n) && Unpainted(n, lens)
    ensures Grounded(n.l) && Grounded(n.r) && Own(freqs, n.l) && Own(freqs, n.r)
    ensures n.f == n.l.f + n.r.f && Cost(n) == n.f + Cost(n.l) + Cost(n.r)
    ensures Paint(n, lens, d) == Paint(n.r, Paint(n.l, lens, d + 1), d + 1)
    ensures Unpainted(n.l, lens) && Unpainted(n.r, Paint(n.l, lens, d + 1))
  {
    hide Unpainted;
    ChildrenUnpainted(n, lens, d);
  }

  lemma Deepened(x: nat, y: nat, d: nat)
    ensures (d + 1) * x + (d + 1) * y == (x + y) + d * (x + y)
  {
  }

  lemma LeafCost(freqs: seq<nat>, n: Node, lens: seq<nat>, d: nat)
    requires Grounded(n) && !n.Inner? && Own(freqs, n) && Unpainted(n, lens) && |lens| <= |freqs|
    ensures Dot(freqs, Paint(n, lens, d)) == Dot(freqs, lens) + Cost(n) + d * n.f
  {
    hide Dot;
    assert n.s in Bag(n);
    Optimality.DotSet(freqs, lens, n.s, d);
  }

  /** Some leaf is as deep as the tree is high. */
  lemma {:induction false} Deepest(n: Node, lens: seq<nat>, d: nat) returns (a: nat)
    requires Grounded(n) && Unpainted(n, lens)
    ensures a in Bag(n) && a < |lens| && Paint(n, lens, d)[a] == d + Height(n)
    decreases n
  {
    if n.Inner? {
      ChildrenUnpainted(n, lens, d);
      var mid := Paint(n.l, lens, d + 1);
      if Height(n.l) > Height(n.r) {
        a := Deepest(n.l, lens, d + 1);
        Elsewhere(n, lens, a);
        PaintOthers(n.r, mid, d + 1, a);
      } else {
        a := Deepest(n.r, mid, d + 1);
      }
    } else {
      a := n.s;
      assert a in Bag(n);
    }
  }

  lemma Elsewhere(n: Node, lens: seq<nat>, a: nat)
    requires n.Inner? && Unpainted(n, lens) && a in Bag(n.l)
    ensures a !in Bag(n.r)
  {
    assert a in Bag(n) && Bag(n)[a] == Bag(n.l)[a] + Bag(n.r)[a];
  }

  /** A code for the symbols that occur, filled up with zeros: lengths that fit, and the same sum. */
  lemma {:induction false} CodesFit(freqs: seq<nat>, lens: seq<nat>, m: nat)
    requires |lens| <= |freqs| && LengthsUpTo(lens, m)
    requires forall a :: 0 <= a < |freqs| ==> (freqs[a] > 0 <==> a < |lens| && lens[a] > 0)
    ensures var ds := lens + seq(|freqs| - |lens|, _ => 0);
            Optimality.Space(freqs, ds, m) == Kraft(lens, m) && Dot(freqs, ds) == Dot(freqs, lens)
    decreases |freqs|
  {
    hide Kraft, Optimality.Space, Dot;
    var ds := lens + seq(|freqs| - |lens|, _ => 0);
    if freqs == [] {
      NothingCoded(m);
    } else {
      var n := |freqs| - 1;
      var less := if |lens| == |freqs| then lens[..n] else lens;
      assert ds[..n] == less + seq(n - |less|, _ => 0);
      CodesFit(freqs[..n], less, m);
      if |lens| == |freqs| { assert ds[..n] == less && ds == lens; CodedLast(freqs, lens, m); } else { UncodedLast(freqs, lens, ds, m); }
    }
  }

  lemma NothingCoded(m: nat)
    ensures Optimality.Space([], [], m) == 0 == Kraft([], m) && Dot([], []) == 0
  {
  }

  lemma CodedLast(freqs: seq<nat>, lens: seq<nat>, m: nat)
    requires |lens| == |freqs| > 0 && LengthsUpTo(lens, m)
    requires forall a :: 0 <= a < |freqs| ==> (freqs[a] > 0 <==> lens[a] > 0)
    requires var n := |freqs| - 1; Optimality.Space(freqs[..n], lens[..n], m) == Kraft(lens[..n], m)
    ensures lens + seq(0, _ => 0) == lens && Optimality.Space(freqs, lens, m) == Kraft(lens, m)
  {
    hide Pow2;
    var n := |freqs| - 1;
    assert freqs[n] > 0 <==> lens[n] > 0;
  }

  lemma UncodedLast(freqs: seq<nat>, lens: seq<nat>, ds: seq<nat>, m: nat)
    requires |lens| < |freqs| == |ds| && ds == lens + seq(|freqs| - |lens|, _ => 0)
    requires freqs[|freqs| - 1] == 0
    requires var n := |freqs| - 1;
             Optimality.Space(freqs[..n], ds[..n], m) == Kraft(lens, m) && Dot(freqs[..n], ds[..n]) == Dot(freqs[..n], lens)
    ensures Optimality.Space(freqs, ds, m) == Kraft(lens, m) && Dot(freqs, ds) == Dot(freqs, lens)
  {
    hide Pow2, Kraft;
    var n := |freqs| - 1;
    Optimality.DotBelow(freqs, freqs[..n], lens);
    Optimality.DotLast(freqs, ds);
  }

  lemma CodeBounded(freqs: seq<nat>, lens: seq<nat>, m: nat, v: nat)
    requires Optimality.AtLeast(Optimality.Used(freqs), v) && CodesFor(freqs, lens, m)
    ensures v <= Dot(freqs, lens)
  {
    hide Kraft, Optimality.Space, Dot, Optimality.Used, Pow2;
    CodesFit(freqs, lens, m);
    var ds := lens + seq(|freqs| - |lens|, _ => 0);
    assert Optimality.Fits(freqs, ds, m);
  }

  lemma TreeOptimal(freqs: seq<nat>, root: Node, zeros: seq<nat>, p: nat)
    requires root.Inner? && Grounded(root) && Own(freqs, root) && Bag(root) == SeqBag(Leaves(freqs)) && LastOf(Leaves(freqs), p)
    requires |zeros| == p + 1 <= |freqs| && forall a :: 0 <= a <= p ==> zeros[a] == 0
    requires Optimality.AtLeast(Optimality.Used(freqs), Cost(root))
    ensures Optimal(freqs, Paint(root, zeros, 0)) && Height(root) > 0 && Height(root) in Paint(root, zeros, 0)
  {
    hide Kraft, Paint, Bag, Pow2, SeqBag, Leaves, Dot, Own, Grounded, CodesFor, Optimality.AtLeast, Cost;
    forall a | a in Bag(root) ensures a < |zeros| && Bag(root)[a] <= 1 { InBag(freqs, p, Bag(root), a); }
    PaintCost(freqs, root, zeros, 0);
    NothingPaid(freqs, zeros);
    var a := Deepest(root, zeros, 0);
    forall lens: seq<nat>, m: nat | CodesFor(freqs, lens, m) ensures Dot(freqs, Paint(root, zeros, 0)) <= Dot(freqs, lens) {
      CodeBounded(freqs, lens, m, Cost(root));
    }
  }

  lemma {:induction false} NothingPaid(freqs: seq<nat>, zeros: seq<nat>)
    requires forall a :: 0 <= a < |zeros| ==> zeros[a] == 0
    ensures Dot(freqs, zeros) == 0
  {
    if zeros != [] { NothingPaid(freqs, zeros[..|zeros| - 1]); }
  }

  /** The depths of the finished tree, before any limit: no code is better. */
  method TreeLengths(freqs: seq<nat>, s: seq<Node>) returns (g: array<nat>, m: nat)
    requires s == Leaves(freqs) && |s| >= 2 && Sum(freqs) <= TOO_HEAVY
    ensures fresh(g) && 0 < m <= 20 && CodesFor(freqs, g[..], m) && Kraft(g[..], m) == Pow2(m)
    ensures Optimal(freqs, g[..]) && m in g[..]
  {
    hide *;
    var i := Sort(s, Lighter);
    SortedLeaves(freqs, s);
    var root := BuildTree(i, freqs);
    var p := LastSymbol(s);
    g := new nat[p + 1](_ => 0);
    ghost var zeros := g[..];
    m := AssignDepths(root, g, 0);
    HeightBound(root);
    PaintedKraft(freqs, root, zeros, p, m);
    PaintAll(root, zeros, 0);
    PaintedLengths(freqs, zeros, g[..], Bag(root), p, m);
    LastSmall(freqs, p);
    TreeOptimal(freqs, root, zeros, p);
  }

  lemma LastSmall(freqs: seq<nat>, p: nat)
    requires LastOf(Leaves(freqs), p)
    ensures p < |freqs|
  {
  }

  ghost predicate LastOf(s: seq<Node>, p: nat) {
    (forall k :: 0 <= k < |s| ==> s[k].Leaf? && s[k].s <= p) && exists k :: 0 <= k < |s| && s[k].s == p
  }

  lemma CodesFromLengths(freqs: seq<nat>, lens: seq<nat>, h: nat, p: nat)
    requires |lens| == p + 1 && LastOf(Leaves(freqs), p) && Kraft(lens, h) <= Pow2(h)
    requires forall a: nat :: a <= p ==> lens[a] <= h && (lens[a] > 0 <==> a < |freqs| && freqs[a] > 0)
    ensures CodesFor(freqs, lens, h)
  {
    forall a: nat | a < |freqs| && freqs[a] > 0 ensures a <= p { UsedUpTo(freqs, p, a); }
    var s := Leaves(freqs);
    var k :| 0 <= k < |s| && s[k].s == p;
  }

  /** The symbols of the bag got lengths from 1 to hi; the others kept theirs. */
  ghost predicate Painted(zeros: seq<nat>, lens: seq<nat>, bag: multiset<nat>, hi: nat) {
    && |lens| == |zeros|
    && forall a: nat :: a < |lens| ==> if a in bag then 0 < lens[a] <= hi else lens[a] == zeros[a]
  }

  lemma PaintAll(n: Node, zeros: seq<nat>, d: nat)
    requires n.Inner?
    ensures Painted(zeros, Paint(n, zeros, d), Bag(n), d + Height(n))
  {
    forall a: nat | a < |zeros|
      ensures var x := Paint(n, zeros, d)[a]; if a in Bag(n) then 0 < x <= d + Height(n) else x == zeros[a]
    {
      if a in Bag(n) { PaintLeaf(n, zeros, d, a); } else { PaintOthers(n, zeros, d, a); }
    }
  }

  lemma PaintedLengths(freqs: seq<nat>, zeros: seq<nat>, lens: seq<nat>, bag: multiset<nat>, p: nat, h: nat)
    requires Painted(zeros, lens, bag, h) && bag == SeqBag(Leaves(freqs)) && LastOf(Leaves(freqs), p)
    requires |zeros| == p + 1 && forall a :: 0 <= a <= p ==> zeros[a] == 0
    requires Kraft(lens, h) <= Pow2(h)
    ensures CodesFor(freqs, lens, h)
  {
    forall a: nat | a <= p ensures lens[a] <= h && (lens[a] > 0 <==> a < |freqs| && freqs[a] > 0) {
      LeavesBag(freqs, a);
    }
    CodesFromLengths(freqs, lens, h, p);
  }

  lemma PaintedKraft(freqs: seq<nat>, root: Node, zeros: seq<nat>, p: nat, h: nat)
    requires root.Inner? && Grounded(root) && Bag(root) == SeqBag(Leaves(freqs)) && LastOf(Leaves(freqs), p)
    requires |zeros| == p + 1 && forall a :: 0 <= a <= p ==> zeros[a] == 0
    requires h == Height(root)
    ensures Kraft(Paint(root, zeros, 0), h) == Pow2(h)
  {
    hide Kraft, Paint, Bag, Pow2, SeqBag, Leaves;
    forall a | a in Bag(root) ensures a < |zeros| && Bag(root)[a] <= 1 { InBag(freqs, p, Bag(root), a); }
    KraftUnused(zeros, h);
    PaintKraft(root, zeros, 0, h);
  }

  /** The list of one length 1, for the only symbol that occurs. */
  function OneLength(a: nat): seq<nat> {
    seq(a + 1, i => if i == a then 1 else 0)
  }

  lemma NoLeaf(freqs: seq<nat>)
    requires |Leaves(freqs)| == 0
    ensures CodesFor(freqs, [], 0)
  {
    forall a: nat | a < |freqs| ensures freqs[a] == 0 { LeavesBag(freqs, a); }
  }

  lemma OneLeaf(freqs: seq<nat>)
    requires |Leaves(freqs)| == 1
    ensures CodesFor(freqs, OneLength(Leaves(freqs)[0].s), 1)
  {
    var s := Leaves(freqs);
    var lens := OneLength(s[0].s);
    forall a: nat | a < |freqs| ensures freqs[a] > 0 <==> s[0].s == a {
      LeavesBag(freqs, a);
      assert SeqBag(s) == Bag(s[0]) + SeqBag(s[1..]) == multiset{s[0].s};
    }
    KraftUnused(lens[..|lens| - 1], 1);
    assert Pow2(0) == 1 && Pow2(1) == 2;
  }

  /** One symbol alone needs its one bit. */
  lemma OneBest(freqs: seq<nat>)
    requires |Leaves(freqs)| == 1
    ensures Optimal(freqs, OneLength(Leaves(freqs)[0].s))
  {
    hide Dot, CodesFor, Kraft, OneLength;
    var a := Leaves(freqs)[0].s;
    OneCosts(freqs, a);
    forall lens: seq<nat>, m: nat | CodesFor(freqs, lens, m) ensures Dot(freqs, OneLength(a)) <= Dot(freqs, lens) {
      UsedCosts(freqs, lens, m, a);
    }
  }

  lemma OneCosts(freqs: seq<nat>, a: nat)
    requires a < |freqs|
    ensures Dot(freqs, OneLength(a)) == freqs[a]
  {
    hide Dot;
    var zeros := seq(a + 1, _ => 0);
    NothingPaid(freqs, zeros);
    Optimality.DotSet(freqs, zeros, a, 1);
    assert zeros[a := 1] == OneLength(a);
  }

  lemma UsedCosts(freqs: seq<nat>, lens: seq<nat>, m: nat, a: nat)
    requires CodesFor(freqs, lens, m) && a < |freqs| && freqs[a] > 0
    ensures freqs[a] <= Dot(freqs, lens)
  {
    hide Dot, Kraft, Pow2;
    Optimality.DotSet(freqs, lens, a, 0);
    Optimality.Times(freqs[a], 1, lens[a]);
  }

  /** An optimal code that uses a length above the limit. */
  ghost predicate TooDeep(freqs: seq<nat>, plain: seq<nat>, depth: nat, limit: nat) {
    limit < depth && depth in plain && CodesFor(freqs, plain, depth) && Optimal(freqs, plain)
  }

  /** The best lengths there are, unless those of the tree had to be cut. */
  ghost predicate BestOrCut(freqs: seq<nat>, t: seq<nat>, limit: nat) {
    Optimal(freqs, t) || exists plain, depth :: TooDeep(freqs, plain, depth, limit)
  }

  /** Lengths for the symbols counted, up to l: the best there are unless they had to be cut to the
      limit, and filling the code space when there are at least two. */
  ghost predicate Built(freqs: seq<nat>, t: seq<nat>, l: nat, limit: nat) {
    CodesFor(freqs, t, l) && l <= limit && BestOrCut(freqs, t, limit) && Fair(freqs, t) && (TwoUsed(freqs) ==> Kraft(t, l) == Pow2(l))
  }

  /** No symbol has a longer code than one that occurs less often. */
  ghost predicate Fair(freqs: seq<nat>, t: seq<nat>) {
    forall a, b :: 0 <= a < |freqs| && 0 <= b < |freqs| && 0 < freqs[a] < freqs[b] ==> a < |t| && b < |t| && t[a] >= t[b]
  }

  lemma Exchanged(freqs: seq<nat>, lens: seq<nat>, m: nat, a: nat, b: nat)
    requires CodesFor(freqs, lens, m) && a < |freqs| && b < |freqs| && a != b && freqs[a] > 0 && freqs[b] > 0
    ensures a < |lens| && b < |lens|
    ensures var h := lens[a := lens[b]][b := lens[a]];
            CodesFor(freqs, h, m) && Dot(freqs, h) + freqs[a] * lens[a] + freqs[b] * lens[b] == Dot(freqs, lens) + freqs[a] * lens[b] + freqs[b] * lens[a]
  {
    hide Dot, Kraft, Pow2, Share;
    var g := lens[a := lens[b]];
    KraftUpdate(lens, a, lens[b], m);
    KraftUpdate(g, b, lens[a], m);
    Optimality.DotSet(freqs, lens, a, lens[b]);
    Optimality.DotSet(freqs, g, b, lens[a]);
  }

  lemma Dearer(x: nat, y: nat, d: nat, e: nat)
    requires x < y && d < e
    ensures x * e + y * d < x * d + y * e
  {
    assert (y - x) * (e - d) > 0;
  }

  /** What is best is fair: otherwise two symbols could change places. */
  lemma BestFair(freqs: seq<nat>, t: seq<nat>, l: nat)
    requires Optimal(freqs, t) && CodesFor(freqs, t, l)
    ensures Fair(freqs, t)
  {
    hide Dot, Kraft, Pow2, CodesFor;
    forall a, b | 0 <= a < |freqs| && 0 <= b < |freqs| && 0 < freqs[a] < freqs[b] ensures a < |t| && b < |t| && t[a] >= t[b] {
      Exchanged(freqs, t, l, a, b);
      if t[a] < t[b] { Dearer(freqs[a], freqs[b], t[a], t[b]); }
    }
  }

  /** Cut lengths stay fair: the list they fall along has the symbols that occur less often first
      wherever the tree has them equally deep. */
  lemma CutFair(freqs: seq<nat>, tree: seq<nat>, t: seq<nat>, s: seq<Node>)
    requires |t| == |tree| <= |freqs| && Fair(freqs, tree) && Lists(s, tree) && Lists(s, t) && Falling(t, s)
    requires forall a :: 0 <= a < |freqs| ==> (freqs[a] > 0 <==> a < |tree| && tree[a] > 0)
    requires forall k :: 0 <= k < |s| ==> s[k].Leaf? && s[k].s < |freqs| && s[k].f == freqs[s[k].s]
    requires forall j, k :: 0 <= j < k < |s| ==> Deeper(tree, s[j], s[k])
    ensures Fair(freqs, t)
  {
    forall a, b | 0 <= a < |freqs| && 0 <= b < |freqs| && 0 < freqs[a] < freqs[b] ensures a < |t| && b < |t| && t[a] >= t[b] {
      CutFairly(freqs, tree, t, s, a, b);
    }
  }

  lemma CutFairly(freqs: seq<nat>, tree: seq<nat>, t: seq<nat>, s: seq<Node>, a: nat, b: nat)
    requires |t| == |tree| && Lists(s, tree) && Lists(s, t) && Falling(t, s) && a < |freqs| && b < |freqs| && freqs[a] < freqs[b]
    requires a < |tree| && b < |tree| && tree[a] > 0 && tree[b] > 0 && tree[a] >= tree[b]
    requires forall k :: 0 <= k < |s| ==> s[k].Leaf? && s[k].s < |freqs| && s[k].f == freqs[s[k].s]
    requires forall j, k :: 0 <= j < k < |s| ==> Deeper(tree, s[j], s[k])
    ensures t[a] >= t[b]
  {
    assert Listed(s, a) && Listed(s, b);
    var j :| 0 <= j < |s| && s[j].s == a;
    var k :| 0 <= k < |s| && s[k].s == b;
    assert !Deeper(tree, s[k], s[j]) && j != k;
  }

  lemma FewFair(freqs: seq<nat>, t: seq<nat>)
    requires |Leaves(freqs)| <= 1
    ensures Fair(freqs, t)
  {
    UsedTwice(freqs);
    LoneFair(freqs, t);
  }

  lemma LoneFair(freqs: seq<nat>, t: seq<nat>)
    requires !TwoUsed(freqs)
    ensures Fair(freqs, t)
  {
  }

  /** At least two symbols occur. */
  ghost predicate TwoUsed(freqs: seq<nat>) {
    exists a, b :: 0 <= a < b < |freqs| && freqs[a] > 0 && freqs[b] > 0
  }

  lemma UsedTwice(freqs: seq<nat>)
    ensures TwoUsed(freqs) ==> |Leaves(freqs)| >= 2
  {
    if a, b :| 0 <= a < b < |freqs| && freqs[a] > 0 && freqs[b] > 0 {
      if |Leaves(freqs)| == 0 {
        NoLeaf(freqs);
      } else if |Leaves(freqs)| == 1 {
        LoneLeaf(freqs, a);
        LoneLeaf(freqs, b);
      }
    }
  }

  lemma LoneLeaf(freqs: seq<nat>, a: nat)
    requires |Leaves(freqs)| == 1 && a < |freqs| && freqs[a] > 0
    ensures Leaves(freqs)[0].s == a
  {
    LeavesBag(freqs, a);
    var s := Leaves(freqs);
    assert SeqBag(s) == Bag(s[0]) + SeqBag(s[1..]) == multiset{s[0].s};
  }

  lemma BestAlready(freqs: seq<nat>, t: seq<nat>, limit: nat)
    requires Optimal(freqs, t)
    ensures BestOrCut(freqs, t, limit)
  {
    hide Optimal, TooDeep;
  }

  lemma CutDown(freqs: seq<nat>, plain: seq<nat>, depth: nat, limit: nat)
    requires limit < depth && depth in plain && CodesFor(freqs, plain, depth) && Optimal(freqs, plain)
    ensures forall t :: BestOrCut(freqs, t, limit)
  {
    hide CodesFor, Optimal;
    assert TooDeep(freqs, plain, depth, limit);
  }

  lemma NoneBest(freqs: seq<nat>)
    ensures Optimal(freqs, [])
  {
    hide CodesFor;
  }

  /** The tree's lengths, cut to the limit. */
  method CutLengths(freqs: seq<nat>, s: seq<Node>, g: array<nat>, l: nat, limit: nat)
    requires s == Leaves(freqs) && 1 < limit < l <= 20 && |freqs| <= 288 && |freqs| <= Pow2(limit)
    requires CodesFor(freqs, g[..], l) && Kraft(g[..], l) == Pow2(l) && Optimal(freqs, g[..]) && l in g[..] && Fair(freqs, g[..])
    modifies g
    ensures CodesFor(freqs, g[..], limit) && Kraft(g[..], limit) == Pow2(limit) && Fair(freqs, g[..]) && BestOrCut(freqs, g[..], limit)
  {
    hide *;
    ghost var plain := g[..];
    CutDown(freqs, plain, l, limit);
    CutReady(freqs, plain, l);
    LeavesFew(freqs);
    var sorted := SortByDepth(freqs, s, g[..]);
    SelfDebt(plain, sorted, l);
    Limit(g, sorted, l, limit);
    ghost var t := g[..];
    SameLists(plain, t);
    CutFair(freqs, plain, t, sorted);
    CutCodes(freqs, plain, t, l, limit);
  }

  lemma CutReady(freqs: seq<nat>, g: seq<nat>, l: nat)
    requires CodesFor(freqs, g, l)
    ensures |g| <= |freqs| && LengthsUpTo(g, l) && forall a :: 0 <= a < |freqs| ==> (freqs[a] > 0 <==> a < |g| && g[a] > 0)
  {
  }

  lemma LeavesFew(freqs: seq<nat>)
    ensures |Leaves(freqs)| <= |freqs|
  {
  }

  lemma SelfDebt(g: seq<nat>, s: seq<Node>, l: nat)
    requires Lists(s, g) && LengthsUpTo(g, l) && Kraft(g, l) == Pow2(l)
    ensures Overdrawn(g, g, s, l, 0)
  {
    hide Kraft, Pow2, Lists, LengthsUpTo;
  }

  lemma SameLists(g: seq<nat>, h: seq<nat>)
    requires SameUsed(g, h)
    ensures |g| == |h|
  {
  }

  lemma CutCodes(freqs: seq<nat>, g: seq<nat>, h: seq<nat>, l: nat, limit: nat)
    requires CodesFor(freqs, g, l) && SameUsed(g, h) && LengthsUpTo(h, limit) && Kraft(h, limit) == Pow2(limit)
    ensures CodesFor(freqs, h, limit)
  {
    hide Kraft, Pow2;
  }

  /** Code lengths for the symbols counted in freqs, none above the limit, and a bound on them. */
  method BuildLengths(freqs: seq<nat>, limit: nat) returns (t: seq<nat>, l: nat)
    requires 1 < limit <= 15 && |freqs| <= 288 && |freqs| <= Pow2(limit) && Sum(freqs) <= TOO_HEAVY
    ensures CodesFor(freqs, t, l) && l <= limit
    ensures BestOrCut(freqs, t, limit)
    ensures Fair(freqs, t) && (TwoUsed(freqs) ==> Kraft(t, l) == Pow2(l))
  {
    hide Fair, Falling, Optimal, Kraft, Pow2, Sum, TooDeep, BestOrCut, Leaves, Lists, Deeper;
    var s := CollectLeaves(freqs);
    if |s| <= 1 { FewFair(freqs, []); }
    if |s| == 0 {
      NoLeaf(freqs);
      NoneBest(freqs);
      UsedTwice(freqs);
      BestAlready(freqs, [], limit);
      return [], 0;
    }
    if |s| == 1 {
      OneLeaf(freqs);
      OneBest(freqs);
      UsedTwice(freqs);
      FewFair(freqs, OneLength(s[0].s));
      BestAlready(freqs, OneLength(s[0].s), limit);
      return OneLength(s[0].s), 1;
    }
    var g;
    g, l := TreeLengths(freqs, s);
    ghost var plain := g[..];
    BestFair(freqs, plain, l);
    if l > limit {
      CutLengths(freqs, s, g, l, limit);
      l := limit;
    } else {
      BestAlready(freqs, plain, limit);
    }
    t := g[..];
  }

  method SortByDepth(freqs: seq<nat>, s: seq<Node>, g: seq<nat>) returns (r: seq<Node>)
    requires s == Leaves(freqs) && |g| <= |freqs|
    requires forall a :: 0 <= a < |freqs| ==> (freqs[a] > 0 <==> a < |g| && g[a] > 0)
    ensures |r| == |s| && Lists(r, g) && forall j, k :: 0 <= j < k < |r| ==> Deeper(g, r[j], r[k])
    ensures forall k :: 0 <= k < |r| ==> r[k].Leaf? && r[k].s < |freqs| && r[k].f == freqs[r[k].s]
  {
    r := Sort(s, (x, y) => Deeper(g, x, y));
    SortedList(freqs, s, g, (x, y) => Deeper(g, x, y));
  }

  lemma SortedList(freqs: seq<nat>, s: seq<Node>, g: seq<nat>, leq: (Node, Node) -> bool)
    requires s == Leaves(freqs) && |g| <= |freqs| && forall x, y :: leq(x, y) == Deeper(g, x, y)
    requires forall a :: 0 <= a < |freqs| ==> (freqs[a] > 0 <==> a < |g| && g[a] > 0)
    ensures var r := Sort(s, leq);
            |r| == |s| && Lists(r, g) && forall j, k :: 0 <= j < k < |r| ==> Deeper(g, r[j], r[k])
    ensures var r := Sort(s, leq); forall k :: 0 <= k < |r| ==> r[k].Leaf? && r[k].s < |freqs| && r[k].f == freqs[r[k].s]
  {
    var r := Sort(s, leq);
    SortKeeps(s, leq);
    SortOrders(s, leq);
    forall k | 0 <= k < |r| ensures r[k].Leaf? && r[k].s < |freqs| && r[k].f == freqs[r[k].s] {
      SortMembers(s, leq, r[k]);
      assert r[k] in r;
    }
    LeavesList(freqs, r, g);
    forall j, k | 0 <= j < k < |r| ensures Deeper(g, r[j], r[k]) { assert leq(r[j], r[k]); }
  }
}
