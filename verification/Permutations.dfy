/**
 Heap's algorithm, as the search library runs it: one loop over counters, each round swapping
 two elements and recording the array.  For n distinct elements it records every permutation
 exactly once.
 */
module Permutations {

  /** Exchange the elements at i and j. */
  function Swap<T>(e: seq<T>, i: nat, j: nat): (r: seq<T>)
    requires i < |e| && j < |e|
    ensures |r| == |e|
  {
    e[i := e[j]][j := e[i]]
  }

  /** The partner of position o in the swap made with counter value c. */
  function Target(o: nat, c: nat): nat {
    if o % 2 == 1 then c else 0
  }

  // -------- the algorithm as a recursion on the prefix being permuted ------------------

  /** The array after all permutations of the first k elements have been made. */
  function End<T>(k: nat, e: seq<T>): (r: seq<T>)
    requires k <= |e|
    ensures |r| == |e|
    decreases k, 1, 0
  {
    if k <= 1 then e else EndFrom(k, End(k - 1, e), 0)
  }

  /** The same from the point where the first k - 1 elements are done and counter k - 1 is c. */
  function EndFrom<T>(k: nat, e: seq<T>, c: nat): (r: seq<T>)
    requires 1 < k <= |e|
    ensures |r| == |e|
    decreases k, 0, k - c
  {
    if c >= k - 1 then e else EndFrom(k, End(k - 1, Swap(e, k - 1, Target(k - 1, c))), c + 1)
  }

  /** The arrays recorded on the way, without the one to start with. */
  function Made<T>(k: nat, e: seq<T>): seq<seq<T>>
    requires k <= |e|
    decreases k, 1, 0
  {
    if k <= 1 then [] else Made(k - 1, e) + MadeFrom(k, End(k - 1, e), 0)
  }

  function MadeFrom<T>(k: nat, e: seq<T>, c: nat): seq<seq<T>>
    requires 1 < k <= |e|
    decreases k, 0, k - c
  {
    if c >= k - 1 then [] else
      var e1 := Swap(e, k - 1, Target(k - 1, c));
      [e1] + Made(k - 1, e1) + MadeFrom(k, End(k - 1, e1), c + 1)
  }

  /** What the loop has yet to record when it stands at position o with counters a. */
  function Left<T>(o: nat, e: seq<T>, a: seq<nat>): seq<seq<T>>
    requires 1 <= o && |a| == |e|
    decreases |e| - o
  {
    if o >= |e| then [] else MadeFrom(o + 1, e, a[o]) + Left(o + 1, EndFrom(o + 1, e, a[o]), a)
  }

  lemma {:induction false} LeftSame<T>(o: nat, e: seq<T>, a: seq<nat>, b: seq<nat>)
    requires 1 <= o && |a| == |e| == |b| && a[Clip(o, |a|)..] == b[Clip(o, |b|)..]
    ensures Left(o, e, a) == Left(o, e, b)
    decreases |e| - o
  {
    if o < |e| {
      assert a[o] == a[o..][0] == b[o..][0] == b[o];
      assert a[o + 1..] == a[o..][1..] && b[o + 1..] == b[o..][1..];
      LeftSame(o + 1, EndFrom(o + 1, e, a[o]), a, b);
    }
  }

  function Clip(o: nat, n: nat): nat { if o <= n then o else n }

  /** Starting over at position 1 with the counters below o at zero makes all permutations of
      the first o elements before position o is looked at again. */
  lemma {:induction false} LeftRestart<T>(o: nat, e: seq<T>, a: seq<nat>)
    requires 1 <= o <= |e| && |a| == |e| && Zeroed(o, a)
    ensures Left(1, e, a) == Made(o, e) + Left(o, End(o, e), a)
    decreases o
  {
    if o > 1 { LeftRestart(o - 1, e, a); }
  }

  ghost predicate Zeroed(o: nat, a: seq<nat>) {
    forall k :: 1 <= k < o && k < |a| ==> a[k] == 0
  }

  /** A round that swaps records one array and has the rest left. */
  lemma SwapRound<T>(o: nat, c: nat, e0: seq<T>, a0: seq<nat>, e1: seq<T>, a1: seq<nat>)
    requires 1 <= o < |e0| == |a0| && c < o && a0[o] == c && Zeroed(o, a0)
    requires e1 == Swap(e0, o, Target(o, c)) && a1 == a0[o := c + 1]
    ensures Left(o, e0, a0) == [e1] + Left(1, e1, a1)
  {
    hide Left, Made, MadeFrom, End, EndFrom, Swap;
    var e2 := End(o, e1);
    BeforeSwap(o, c, e0, a0, e1, e2);
    AfterSwap(o, c + 1, e1, e2, a0, a1);
  }

  lemma BeforeSwap<T>(o: nat, c: nat, e0: seq<T>, a0: seq<nat>, e1: seq<T>, e2: seq<T>)
    requires 1 <= o < |e0| == |a0| && c < o && a0[o] == c
    requires o < |e1| == |e0| && Target(o, c) < |e0| && e1 == Swap(e0, o, Target(o, c)) && e2 == End(o, e1)
    ensures Left(o, e0, a0) == [e1] + (Made(o, e1) + (MadeFrom(o + 1, e2, c + 1) + Left(o + 1, EndFrom(o + 1, e2, c + 1), a0)))
  {
    hide Left, Made, MadeFrom, End, EndFrom, Swap;
    LeftHead(o, e0, a0);
    RoundHead(o, e0, c);
    Regroup([e1], Made(o, e1), MadeFrom(o + 1, e2, c + 1), Left(o + 1, EndFrom(o + 1, e2, c + 1), a0));
  }

  lemma AfterSwap<T>(o: nat, c: nat, e1: seq<T>, e2: seq<T>, a0: seq<nat>, a1: seq<nat>)
    requires 1 <= o < |e1| == |a0| == |a1| && a1 == a0[o := c] && Zeroed(o, a0) && e2 == End(o, e1)
    ensures Left(1, e1, a1) == Made(o, e1) + (MadeFrom(o + 1, e2, c) + Left(o + 1, EndFrom(o + 1, e2, c), a0))
  {
    hide Left, Made, MadeFrom, End, EndFrom, Swap;
    LeftRestart(o, e1, a1);
    LeftHead(o, e2, a1);
    assert a1[o + 1..] == a0[o + 1..];
    LeftSame(o + 1, EndFrom(o + 1, e2, c), a1, a0);
  }

  lemma Regroup<U>(a: seq<U>, b: seq<U>, c: seq<U>, d: seq<U>)
    ensures a + b + c + d == a + (b + (c + d))
  {
  }

  lemma LeftHead<T>(o: nat, e: seq<T>, a: seq<nat>)
    requires 1 <= o < |e| && |a| == |e|
    ensures Left(o, e, a) == MadeFrom(o + 1, e, a[o]) + Left(o + 1, EndFrom(o + 1, e, a[o]), a)
  {
  }

  lemma RoundHead<T>(o: nat, e: seq<T>, c: nat)
    requires 1 <= o < |e| && c < o
    ensures var e1 := Swap(e, o, Target(o, c));
            && MadeFrom(o + 1, e, c) == [e1] + Made(o, e1) + MadeFrom(o + 1, End(o, e1), c + 1)
            && EndFrom(o + 1, e, c) == EndFrom(o + 1, End(o, e1), c + 1)
  {
  }

  /** A round that only moves on has the same left. */
  lemma MoveRound<T>(o: nat, e: seq<T>, a0: seq<nat>)
    requires 1 <= o < |e| && |a0| == |e| && a0[o] >= o
    ensures Left(o, e, a0) == Left(o + 1, e, a0[o := 0])
  {
    LeftSame(o + 1, e, a0, a0[o := 0]);
  }

  lemma ZeroedMore(o: nat, a: seq<nat>)
    requires o < |a| && Zeroed(o, a)
    ensures Zeroed(o + 1, a[o := 0])
  {
  }

  lemma Append<U>(a: seq<U>, x: U, b: seq<U>)
    ensures a + ([x] + b) == a + [x] + b
  {
  }

  method SwapStep<T>(e: array<T>, a: array<nat>, o: nat)
    requires e.Length == a.Length && o < e.Length && a[o] < o && e != a
    modifies e, a
    ensures e[..] == Swap(old(e[..]), o, Target(o, old(a[o]))) && a[..] == old(a[..])[o := old(a[o]) + 1]
  {
    hide Swap;
    ghost var e0 := e[..];
    var t := if o % 2 == 1 then a[o] else 0;
    e[o], e[t] := e[t], e[o];
    a[o] := a[o] + 1;
    SwapAt(e0, e[..], o, t);
  }

  /** The loop. */
  method Permute<T>(elements: seq<T>) returns (made: seq<seq<T>>)
    ensures made == [elements] + Made(|elements|, elements)
  {
    var n := |elements|;
    var e := new T[n](k requires 0 <= k < n => elements[k]);
    var a := new nat[n](_ => 0);
    assert e[..] == elements;
    made := [e[..]];
    var o := 1;
    AtStart(elements, a[..]);
    ghost var rest := Left(1, elements, a[..]);
    while o < n
      invariant 1 <= o && (n > 0 ==> o <= n)
      invariant Zeroed(o, a[..])
      invariant rest == Left(o, e[..], a[..]) && made + rest == [elements] + Made(n, elements)
      decreases |rest|, n - o
    {
      hide Left, Made, MadeFrom, End, EndFrom, Swap, Zeroed;
      ghost var e0, a0 := e[..], a[..];
      if a[o] < o {
        SwapStep(e, a, o);
        SwapRound(o, a0[o], e0, a0, e[..], a[..]);
        rest := Left(1, e[..], a[..]);
        Append(made, e[..], rest);
        made := made + [e[..]];
        o := 1;
        NoneZeroed(a[..]);
      } else {
        a[o] := 0;
        assert a[..] == a0[o := 0] && e[..] == e0;
        MoveRound(o, e0, a0);
        ZeroedMore(o, a0);
        o := o + 1;
      }
    }
  }

  lemma NoneZeroed(a: seq<nat>)
    ensures Zeroed(1, a)
  {
  }

  lemma SwapAt<T>(e0: seq<T>, e1: seq<T>, i: nat, j: nat)
    requires |e1| == |e0| && i < |e0| && j < |e0| && e1[i] == e0[j] && e1[j] == e0[i]
    requires forall k :: 0 <= k < |e0| && k != i && k != j ==> e1[k] == e0[k]
    ensures e1 == Swap(e0, i, j)
  {
  }

  lemma AtStart<T>(elements: seq<T>, a: seq<nat>)
    requires |a| == |elements| && forall k :: 0 <= k < |a| ==> a[k] == 0
    ensures Left(1, elements, a) == Made(|elements|, elements)
  {
    if |elements| > 0 { LeftRestart(|elements|, elements, a); }
  }

  // -------- how many -------------------------------------------------------------------

  function Factorial(n: nat): nat {
    if n == 0 then 1 else n * Factorial(n - 1)
  }

  lemma {:induction false} MadeCount<T>(k: nat, e: seq<T>)
    requires k <= |e|
    ensures |Made(k, e)| + 1 == Factorial(k)
    decreases k, 1, 0
  {
    if k > 1 {
      MadeCount(k - 1, e);
      MadeFromCount(k, End(k - 1, e), 0);
      assert k * Factorial(k - 1) == Factorial(k - 1) + (k - 1) * Factorial(k - 1);
    } else if k == 1 {
      assert Factorial(1) == 1 * Factorial(0);
    }
  }

  lemma {:induction false} MadeFromCount<T>(k: nat, e: seq<T>, c: nat)
    requires 1 < k <= |e| && c <= k - 1
    ensures |MadeFrom(k, e, c)| == (k - 1 - c) * Factorial(k - 1)
    decreases k, 0, k - c
  {
    if c < k - 1 {
      var e1 := Swap(e, k - 1, Target(k - 1, c));
      MadeCount(k - 1, e1);
      MadeFromCount(k, End(k - 1, e1), c + 1);
      assert (k - 1 - c) * Factorial(k - 1) == Factorial(k - 1) + (k - 2 - c) * Factorial(k - 1);
    }
  }

  // -------- rearrangements -------------------------------------------------------------

  /** r rearranges the first k elements of e and leaves the others. */
  ghost predicate Rearranges<T>(k: nat, e: seq<T>, r: seq<T>)
    requires k <= |e|
  {
    |r| == |e| && multiset(r) == multiset(e) && r[k..] == e[k..]
  }

  lemma SwapRearranges<T>(k: nat, e: seq<T>, i: nat, j: nat)
    requires i < k <= |e| && j < k
    ensures Rearranges(k, e, Swap(e, i, j))
  {
    assert multiset(Swap(e, i, j)) == multiset(e);
  }

  lemma RearrangesWider<T>(k: nat, e: seq<T>, r: seq<T>)
    requires k < |e| && Rearranges(k, e, r)
    ensures Rearranges(k + 1, e, r) && r[k] == e[k]
  {
    assert r[k] == r[k..][0] && r[k + 1..] == r[k..][1..] && e[k + 1..] == e[k..][1..];
  }

  lemma {:induction false} EndRearranges<T>(k: nat, e: seq<T>)
    requires k <= |e|
    ensures Rearranges(k, e, End(k, e))
    decreases k, 1, 0
  {
    hide Rearranges, EndFrom, Swap;
    if k <= 1 {
      Unmoved(k, e);
    } else {
      EndRearranges(k - 1, e);
      RearrangesWider(k - 1, e, End(k - 1, e));
      EndFromRearranges(k, End(k - 1, e), 0);
      RearrangesChain(k, e, End(k - 1, e), End(k, e));
    }
  }

  lemma {:induction false} EndFromRearranges<T>(k: nat, e: seq<T>, c: nat)
    requires 1 < k <= |e|
    ensures Rearranges(k, e, EndFrom(k, e, c))
    decreases k, 0, k - c
  {
    hide Rearranges, End, Swap;
    if c >= k - 1 {
      Unmoved(k, e);
    } else {
      var e1 := Swap(e, k - 1, Target(k - 1, c));
      var e2 := End(k - 1, e1);
      SwapRearranges(k, e, k - 1, Target(k - 1, c));
      EndRearranges(k - 1, e1);
      RearrangesWider(k - 1, e1, e2);
      RearrangesChain(k, e, e1, e2);
      EndFromRearranges(k, e2, c + 1);
      RearrangesChain(k, e, e2, EndFrom(k, e, c));
    }
  }

  lemma {:induction false} MadeRearrange<T>(k: nat, e: seq<T>)
    requires k <= |e|
    ensures forall r :: r in Made(k, e) ==> Rearranges(k, e, r)
    decreases k, 1, 0
  {
    if k > 1 {
      hide Rearranges, End, MadeFrom;
      var e1 := End(k - 1, e);
      MadeRearrange(k - 1, e);
      EndRearranges(k - 1, e);
      RearrangesWider(k - 1, e, e1);
      MadeFromRearrange(k, e1, 0);
      forall r | r in Made(k, e) ensures Rearranges(k, e, r) {
        if r in Made(k - 1, e) {
          RearrangesWider(k - 1, e, r);
        } else {
          assert r in MadeFrom(k, e1, 0);
          RearrangesChain(k, e, e1, r);
        }
      }
    }
  }

  lemma {:induction false} MadeFromRearrange<T>(k: nat, e: seq<T>, c: nat)
    requires 1 < k <= |e|
    ensures forall r :: r in MadeFrom(k, e, c) ==> Rearranges(k, e, r)
    decreases k, 0, k - c
  {
    hide Swap, End, Made, Rearranges;
    if c < k - 1 {
      hide MadeFrom;
      var e1 := Swap(e, k - 1, Target(k - 1, c));
      var e2 := End(k - 1, e1);
      RoundHead(k - 1, e, c);
      SwapRearranges(k, e, k - 1, Target(k - 1, c));
      MadeRearrange(k - 1, e1);
      EndRearranges(k - 1, e1);
      RearrangesWider(k - 1, e1, e2);
      MadeFromRearrange(k, e2, c + 1);
      RearrangesChain(k, e, e1, e2);
      forall r | r in MadeFrom(k, e, c) ensures Rearranges(k, e, r) {
        if r in Made(k - 1, e1) {
          RearrangesWider(k - 1, e1, r);
          RearrangesChain(k, e, e1, r);
        } else if r != e1 {
          assert r in MadeFrom(k, e2, c + 1);
          RearrangesChain(k, e, e2, r);
        }
      }
    }
  }

  // -------- where the elements end up --------------------------------------------------

  /** The closed form of End for an even number of elements. */
  function EvenEnd<T>(k: nat, e: seq<T>): (r: seq<T>)
    requires 2 <= k <= |e| && k % 2 == 0
    ensures |r| == |e|
  {
    if k == 2 then Swap(e, 0, 1) else
      [e[k - 3], e[k - 2]] + e[1..k - 3] + [e[k - 1], e[0]] + e[k..]
  }

  /** And for an odd number: the ends change places. */
  function OddEnd<T>(k: nat, e: seq<T>): (r: seq<T>)
    requires 1 <= k <= |e| && k % 2 == 1
    ensures |r| == |e|
  {
    Swap(e, 0, k - 1)
  }

  /** The array before round c of level k, counting rounds from 0. */
  function Round<T>(k: nat, e: seq<T>, c: nat): (r: seq<T>)
    requires 1 < k <= |e| && c < k
    ensures |r| == |e|
    decreases c
  {
    if c == 0 then e else Swap(End(k - 1, Round(k, e, c - 1)), k - 1, Target(k - 1, c - 1))
  }

  /** Rounds of an even level, where each round first exchanges positions 0 and k - 2: position 0
      and k - 2 take turns, the others move up by one. */
  ghost predicate EvenRound<T>(k: nat, e: seq<T>, c: nat, r: seq<T>)
    requires 4 <= k <= |e| && k % 2 == 0 && c < k && |r| == |e|
  {
    && (c < k - 1 ==> r[0] == (if c % 2 == 0 then e[0] else e[k - 1]) && r[k - 2] == (if c == 0 then e[k - 2] else if c % 2 == 1 then e[0] else e[k - 1]))
    && (c == 0 ==> r == e)
    && (c > 1 ==> r[1] == e[k - 2])
    && (forall i :: 2 <= i < c && i < k - 2 ==> r[i] == e[i - 1])
    && (forall i :: c <= i < k - 2 && i > 0 ==> r[i] == e[i])
    && (c > 0 ==> r[k - 1] == if c == 1 then e[k - 2] else if c == k - 1 then e[0] else e[c - 1])
    && (c == k - 1 ==> r[0] == e[k - 1] && r[k - 2] == e[k - 3])
    && r[k..] == e[k..]
  }

  lemma EvenRoundNext<T>(k: nat, e: seq<T>, c: nat, r: seq<T>)
    requires 4 <= k <= |e| && k % 2 == 0 && c < k - 1 && |r| == |e| && EvenRound(k, e, c, r)
    ensures EvenRound(k, e, c + 1, Swap(Swap(r, 0, k - 2), k - 1, c))
  {
    var r2 := Swap(Swap(r, 0, k - 2), k - 1, c);
    assert r2[k..] == r[k..];
  }

  /** Where round c of an odd level takes its element for the last position: one cycle. */
  function Cycle(k: nat, i: nat): (p: nat)
    requires k >= 3 && k % 2 == 1 && i < k
    ensures p < k
  {
    if i == 0 then k - 1 else if i == k - 1 then 0 else if i == k - 2 then k - 2 else if i == k - 3 then k - 3 else k - 3 - i
  }

  lemma CycleInjective(k: nat, i: nat, j: nat)
    requires k >= 3 && k % 2 == 1 && i < k && j < k && i != j
    ensures Cycle(k, i) != Cycle(k, j) && Cycle(k, i) < k
  {
  }

  /** The i-th position of the cycle, counted round. */
  function Around(k: nat, i: nat): (p: nat)
    requires k >= 3 && k % 2 == 1 && i < 2 * k
    ensures p < k
  {
    Cycle(k, if i < k then i else i - k)
  }

  /** After c rounds of an odd level every element has moved c places along the cycle. */
  ghost predicate OddRound<T>(k: nat, e: seq<T>, c: nat, r: seq<T>)
    requires 3 <= k <= |e| && k % 2 == 1 && |r| == |e| && c <= k
  {
    (forall i :: 0 <= i < k ==> MovedTo(k, e, c, r, i)) && r[k..] == e[k..]
  }

  ghost predicate MovedTo<T>(k: nat, e: seq<T>, c: nat, r: seq<T>, i: nat)
    requires 3 <= k <= |e| && k % 2 == 1 && |r| == |e| && c <= k && i < k
  {
    r[Cycle(k, i)] == e[Around(k, i + c)]
  }

  lemma EvenEndAt<T>(k: nat, e: seq<T>, i: nat)
    requires 4 <= k <= |e| && k % 2 == 0 && i < |e|
    ensures EvenEnd(k, e)[i] == e[if i == 0 then k - 3 else if i == 1 then k - 2 else if i < k - 2 then i - 1
                                  else if i == k - 2 then k - 1 else if i == k - 1 then 0 else i]
  {
  }

  /** One round of an odd level, as a rearrangement: one step along the cycle. */
  lemma OddStep<T>(k: nat, r: seq<T>, i: nat)
    requires 3 <= k <= |r| && k % 2 == 1 && i < k
    ensures Swap(EvenEnd(k - 1, r), k - 1, 0)[Cycle(k, i)] == r[Cycle(k, if i == k - 1 then 0 else i + 1)]
  {
    if k > 3 {
      hide EvenEnd;
      var p := Cycle(k, i);
      EvenEndAt(k - 1, r, p);
      EvenEndAt(k - 1, r, 0);
      EvenEndAt(k - 1, r, k - 1);
    }
  }

  // -------- closed forms ---------------------------------------------------------------

  /** End at level k, through its rounds. */
  lemma {:induction false} EndByRounds<T>(k: nat, e: seq<T>, c: nat)
    requires 1 < k <= |e| && c < k
    ensures End(k, e) == EndFrom(k, End(k - 1, Round(k, e, c)), c)
  {
    if c > 0 { EndByRounds(k, e, c - 1); }
  }

  /** Rounds stay where they are beyond the first k elements, and each rearranges them. */
  lemma {:induction false} OddRounds<T>(k: nat, e: seq<T>, c: nat)
    requires 3 <= k <= |e| && k % 2 == 1 && c < k
    requires forall x: seq<T> {:trigger End(k - 1, x)} :: |x| == |e| ==> End(k - 1, x) == EvenEnd(k - 1, x)
    ensures OddRound(k, e, c, Round(k, e, c))
  {
    hide Cycle, EvenEnd, Swap, EndFrom, End, MovedTo, OddRound;
    if c == 0 {
      OddStart(k, e);
    } else {
      OddRounds(k, e, c - 1);
      OddRoundNext(k, e, c - 1, Round(k, e, c - 1));
    }
  }

  lemma OddStart<T>(k: nat, e: seq<T>)
    requires 3 <= k <= |e| && k % 2 == 1
    ensures OddRound(k, e, 0, e)
  {
  }

  lemma BeyondStays<T>(k: nat, r: seq<T>)
    requires 3 <= k <= |r| && k % 2 == 1
    ensures forall i :: k <= i < |r| ==> Swap(EvenEnd(k - 1, r), k - 1, 0)[i] == r[i]
  {
    forall i | k <= i < |r| ensures Swap(EvenEnd(k - 1, r), k - 1, 0)[i] == r[i] { if k > 3 { EvenEndAt(k - 1, r, i); } }
  }

  lemma OddMove<T>(k: nat, e: seq<T>, c: nat, r: seq<T>, i: nat)
    requires 3 <= k <= |e| && k % 2 == 1 && |r| == |e| && c < k && OddRound(k, e, c, r) && i < k
    ensures MovedTo(k, e, c + 1, Swap(EvenEnd(k - 1, r), k - 1, 0), i)
  {
    hide EvenEnd, Cycle, Swap;
    var i2 := if i == k - 1 then 0 else i + 1;
    OddStep(k, r, i);
    assert MovedTo(k, e, c, r, i2);
  }

  lemma OddRoundNext<T>(k: nat, e: seq<T>, c: nat, r: seq<T>)
    requires 3 <= k <= |e| && k % 2 == 1 && |r| == |e| && c < k && OddRound(k, e, c, r)
    ensures OddRound(k, e, c + 1, Swap(EvenEnd(k - 1, r), k - 1, 0))
  {
    hide EvenEnd, Cycle, MovedTo, Swap;
    var r2 := Swap(EvenEnd(k - 1, r), k - 1, 0);
    var d := c + 1;
    forall i | 0 <= i < k ensures MovedTo(k, e, d, r2, i) { OddMove(k, e, c, r, i); }
    BeyondStays(k, r);
    assert r2[k..] == r[k..];
  }

  /** An odd level exchanges the two ends: its last round is one step short of going round. */
  lemma OddEnds<T>(k: nat, e: seq<T>)
    requires 3 <= k <= |e| && k % 2 == 1
    requires forall x: seq<T> {:trigger End(k - 1, x)} :: |x| == |e| ==> End(k - 1, x) == EvenEnd(k - 1, x)
    ensures End(k, e) == OddEnd(k, e)
  {
    hide End, Cycle, EvenEnd, Swap, Round, OddRound;
    OddRounds(k, e, k - 1);
    EndByRounds(k, e, k - 1);
    var r := Round(k, e, k - 1);
    OddRoundNext(k, e, k - 1, r);
    var full := Swap(EvenEnd(k - 1, r), k - 1, 0);
    WholeCycle(k, e, full);
    SwapTwice(EvenEnd(k - 1, r), k - 1, 0);
  }

  lemma SwapTwice<T>(x: seq<T>, i: nat, j: nat)
    requires i < |x| && j < |x|
    ensures Swap(Swap(x, i, j), j, i) == x
  {
  }

  /** Going round the whole cycle changes nothing. */
  lemma WholeCycle<T>(k: nat, e: seq<T>, r: seq<T>)
    requires 3 <= k <= |e| && k % 2 == 1 && |r| == |e| && OddRound(k, e, k, r)
    ensures r == e
  {
    hide Cycle;
    forall p | 0 <= p < |e| ensures r[p] == e[p] {
      if p < k {
        var i := CycleInverse(k, p);
        assert MovedTo(k, e, k, r, i);
      } else {
        assert r[p] == r[k..][p - k] == e[k..][p - k];
      }
    }
  }

  lemma CycleInverse(k: nat, p: nat) returns (i: nat)
    requires k >= 3 && k % 2 == 1 && p < k
    ensures i < k && Cycle(k, i) == p
  {
    i := if p == k - 1 then 0 else if p == 0 then k - 1 else if p == k - 2 || p == k - 3 then p else k - 3 - p;
  }

  lemma {:induction false} EvenRounds<T>(k: nat, e: seq<T>, c: nat)
    requires 4 <= k <= |e| && k % 2 == 0 && c < k
    requires forall x: seq<T> {:trigger End(k - 1, x)} :: |x| == |e| ==> End(k - 1, x) == OddEnd(k - 1, x)
    ensures EvenRound(k, e, c, Round(k, e, c))
  {
    hide End, EndFrom, OddEnd, EvenEnd, Swap, EvenRound;
    if c == 0 {
      EvenRoundFirst(k, e);
    } else {
      var r := Round(k, e, c - 1);
      EvenRounds(k, e, c - 1);
      EvenRoundNext(k, e, c - 1, r);
      assert End(k - 1, r) == OddEnd(k - 1, r);
      OddEndSwaps(k - 1, r);
      RoundAfter(k, e, c);
    }
  }

  lemma OddEndSwaps<T>(k: nat, e: seq<T>)
    requires 1 <= k <= |e| && k % 2 == 1
    ensures OddEnd(k, e) == Swap(e, 0, k - 1)
  {
  }

  lemma RoundAfter<T>(k: nat, e: seq<T>, c: nat)
    requires 4 <= k <= |e| && k % 2 == 0 && 0 < c < k
    ensures Round(k, e, c) == Swap(End(k - 1, Round(k, e, c - 1)), k - 1, c - 1)
  {
    hide End, EndFrom, Swap;
  }

  lemma EvenRoundFirst<T>(k: nat, e: seq<T>)
    requires 4 <= k <= |e| && k % 2 == 0
    ensures EvenRound(k, e, 0, e)
  {
  }

  lemma EvenEnds<T>(k: nat, e: seq<T>)
    requires 4 <= k <= |e| && k % 2 == 0
    requires forall x: seq<T> {:trigger End(k - 1, x)} :: |x| == |e| ==> End(k - 1, x) == OddEnd(k - 1, x)
    ensures End(k, e) == EvenEnd(k, e)
  {
    hide End;
    EvenRounds(k, e, k - 1);
    EndByRounds(k, e, k - 1);
    var r := Round(k, e, k - 1);
    var last := Swap(r, 0, k - 2);
    forall i | 0 <= i < |e| ensures last[i] == EvenEnd(k, e)[i] {
      EvenEndAt(k, e, i);
      if i >= k { assert r[i] == r[k..][i - k] == e[k..][i - k]; }
    }
  }

  lemma TwoEnds<T>(x: seq<T>)
    requires 2 <= |x|
    ensures End(2, x) == EvenEnd(2, x)
  {
    assert End(1, x) == x;
    assert End(2, x) == EndFrom(2, x, 0) == EndFrom(2, End(1, Swap(x, 1, 0)), 1) == Swap(x, 1, 0);
  }

  /** What a level leaves behind depends only on its parity: an even one its closed form, an odd
      one the two ends exchanged. */
  lemma {:induction false} EndClosed<T>(k: nat, n: nat)
    ensures forall x: seq<T> {:trigger End(k, x)} :: |x| == n && 2 <= k <= n ==> End(k, x) == Closed(k, x)
  {
    if 2 <= k <= n {
      forall x: seq<T> {:trigger End(k, x)} | |x| == n ensures End(k, x) == Closed(k, x) { EndClosedAt(k, x); }
    }
  }

  function Closed<T>(k: nat, x: seq<T>): seq<T>
    requires 2 <= k <= |x|
  {
    if k % 2 == 0 then EvenEnd(k, x) else OddEnd(k, x)
  }

  lemma {:induction false} EndClosedAt<T>(k: nat, x: seq<T>)
    requires 2 <= k <= |x|
    ensures End(k, x) == Closed(k, x)
  {
    hide Swap, EndFrom, End, OddEnd, EvenEnd;
    if k == 2 {
      TwoEnds(x);
    } else {
      forall y: seq<T> {:trigger End(k - 1, y)} | |y| == |x| ensures End(k - 1, y) == Closed(k - 1, y) { EndClosedAt(k - 1, y); }
      if k % 2 == 1 { OddEnds(k, x); } else { EvenEnds(k, x); }
    }
  }

  // -------- all different --------------------------------------------------------------

  ghost predicate Distinct<T>(s: seq<T>) {
    forall i, j :: 0 <= i < j < |s| ==> s[i] != s[j]
  }

  /** Which element of e stands last in round c of level k. */
  function LastOf(k: nat, c: nat): (p: nat)
    requires 2 <= k && c < k
    ensures p < k
  {
    if k % 2 == 1 then Cycle(k, c)
    else if c == 0 then k - 1 else if c == k - 1 then 0 else if c == 1 then k - 2 else c - 1
  }

  lemma LastDistinct(k: nat, c: nat, d: nat)
    requires 2 <= k && c < d < k
    ensures LastOf(k, c) != LastOf(k, d)
  {
    if k % 2 == 1 { CycleInjective(k, c, d); }
  }

  lemma TwoRounds<T>(e: seq<T>, c: nat)
    requires 2 <= |e| && c < 2
    ensures Round(2, e, c)[1] == e[LastOf(2, c)]
  {
    assert End(1, e) == e;
  }

  lemma RoundLast<T>(k: nat, e: seq<T>, c: nat)
    requires 2 <= k <= |e| && c < k
    ensures Round(k, e, c)[k - 1] == e[LastOf(k, c)]
  {
    hide Swap, EvenEnd, OddEnd, Cycle, Round, End, LastOf, OddRound, EvenRound;
    EndClosed<T>(k - 1, |e|);
    if k == 2 {
      TwoRounds(e, c);
    } else if k % 2 == 1 {
      OddRounds(k, e, c);
      OddLast(k, e, c, Round(k, e, c));
    } else {
      EvenRounds(k, e, c);
      EvenLast(k, e, c, Round(k, e, c));
    }
  }

  lemma OddLast<T>(k: nat, e: seq<T>, c: nat, r: seq<T>)
    requires 3 <= k <= |e| && k % 2 == 1 && |r| == |e| && c < k && OddRound(k, e, c, r)
    ensures r[k - 1] == e[LastOf(k, c)]
  {
    assert MovedTo(k, e, c, r, 0);
  }

  lemma EvenLast<T>(k: nat, e: seq<T>, c: nat, r: seq<T>)
    requires 4 <= k <= |e| && k % 2 == 0 && |r| == |e| && c < k && EvenRound(k, e, c, r)
    ensures r[k - 1] == e[LastOf(k, c)]
  {
  }

  lemma LastOnto(k: nat, p: nat) returns (c: nat)
    requires 2 <= k && p < k
    ensures c < k && LastOf(k, c) == p
  {
    if k % 2 == 1 {
      c := CycleInverse(k, p);
    } else {
      c := if p == k - 1 then 0 else if p == 0 then k - 1 else if p == k - 2 then 1 else p + 1;
    }
  }

  lemma {:induction false} RoundRearranges<T>(k: nat, e: seq<T>, c: nat)
    requires 1 < k <= |e| && c < k
    ensures Rearranges(k, e, Round(k, e, c))
  {
    hide Swap, End, Rearranges;
    if c == 0 {
      Unmoved(k, e);
    } else {
      var before := Round(k, e, c - 1);
      var done := End(k - 1, before);
      RoundRearranges(k, e, c - 1);
      EndRearranges(k - 1, before);
      RearrangesWider(k - 1, before, done);
      SwapRearranges(k, done, k - 1, Target(k - 1, c - 1));
      RearrangesChain(k, e, before, done);
      RearrangesChain(k, e, done, Round(k, e, c));
    }
  }

  lemma Unmoved<T>(k: nat, e: seq<T>)
    requires k <= |e|
    ensures Rearranges(k, e, e)
  {
  }

  lemma RearrangesChain<T>(k: nat, e: seq<T>, r: seq<T>, r2: seq<T>)
    requires k <= |e| && |r| == |e| && Rearranges(k, e, r) && Rearranges(k, r, r2)
    ensures Rearranges(k, e, r2)
  {
  }

  /** Everything recorded while the first k elements are permuted, the start included. */
  function All<T>(k: nat, e: seq<T>): seq<seq<T>>
    requires k <= |e|
  {
    [e] + Made(k, e)
  }

  /** The arrays of round c at level k, and those after it. */
  function Rest<T>(k: nat, e: seq<T>, c: nat): seq<seq<T>>
    requires 1 < k <= |e| && c < k
  {
    MadeFrom(k, End(k - 1, Round(k, e, c)), c)
  }

  /** A level is its rounds, one after the other. */
  lemma LevelSplit<T>(k: nat, e: seq<T>, c: nat)
    requires 1 < k <= |e| && c < k
    ensures All(k, e) == All(k - 1, Round(k, e, 0)) + Rest(k, e, 0)
    ensures Rest(k, e, c) == if c == k - 1 then [] else All(k - 1, Round(k, e, c + 1)) + Rest(k, e, c + 1)
  {
    Regroup([e], Made(k - 1, e), Rest(k, e, 0), []);
  }

  /** What round c records keeps the round's element at position k - 1. */
  lemma RoundKeeps<T>(k: nat, e: seq<T>, c: nat, r: seq<T>)
    requires 1 < k <= |e| && c < k && r in All(k - 1, Round(k, e, c))
    ensures |r| == |e| && r[k - 1] == e[LastOf(k, c)]
  {
    hide Round, LastOf, Made;
    var start := Round(k, e, c);
    RoundLast(k, e, c);
    MadeRearrange(k - 1, start);
    if r != start {
      assert r in Made(k - 1, start);
      assert r[k - 1] == r[k - 1..][0] == start[k - 1..][0];
    }
  }

  /** Later rounds never put the element of an earlier one there. */
  lemma {:induction false} RestElsewhere<T>(k: nat, e: seq<T>, b: nat, c: nat)
    requires 1 < k <= |e| && b <= c < k && Distinct(e)
    ensures forall r :: r in Rest(k, e, c) ==> |r| == |e| && r[k - 1] != e[LastOf(k, b)]
    decreases k - c
  {
    hide Round, LastOf, Made, All, Rest;
    LevelSplit(k, e, c);
    if c < k - 1 {
      RestElsewhere(k, e, b, c + 1);
      LastDistinct(k, b, c + 1);
      forall r | r in Rest(k, e, c) ensures |r| == |e| && r[k - 1] != e[LastOf(k, b)] {
        if r in All(k - 1, Round(k, e, c + 1)) { RoundKeeps(k, e, c + 1, r); } else { assert r in Rest(k, e, c + 1); }
      }
    }
  }

  lemma DistinctCounts<T>(s: seq<T>)
    ensures Distinct(s) <==> forall x :: x in s ==> multiset(s)[x] == 1
  {
    if Distinct(s) {
      forall x | x in s ensures multiset(s)[x] == 1 {
        var i :| 0 <= i < |s| && s[i] == x;
        CountAround(s, i);
        assert x !in s[..i] && x !in s[i + 1..];
      }
    } else {
      var i, j :| 0 <= i < j < |s| && s[i] == s[j];
      CountAround(s, i);
      assert s[i + 1..][j - i - 1] == s[i];
      assert s[i] in multiset(s[i + 1..]);
    }
  }

  lemma CountAround<T>(s: seq<T>, i: nat)
    requires i < |s|
    ensures multiset(s)[s[i]] == 1 + multiset(s[..i])[s[i]] + multiset(s[i + 1..])[s[i]]
  {
    var a, b := s[..i], s[i + 1..];
    assert s == a + [s[i]] + b;
    assert multiset(s) == multiset(a) + multiset([s[i]]) + multiset(b);
  }

  lemma DistinctKept<T>(s: seq<T>, r: seq<T>)
    requires Distinct(s) && multiset(r) == multiset(s)
    ensures Distinct(r)
  {
    DistinctCounts(s);
    DistinctCounts(r);
    forall x | x in r ensures multiset(r)[x] == 1 { assert x in multiset(r); assert x in s; }
  }

  lemma DistinctJoin<U>(s: seq<U>, t: seq<U>)
    requires Distinct(s) && Distinct(t) && forall x :: x in s ==> x !in t
    ensures Distinct(s + t)
  {
    forall i, j | 0 <= i < j < |s + t| ensures (s + t)[i] != (s + t)[j] {
      if i < |s| <= j { assert s[i] in s && t[j - |s|] in t; }
    }
  }

  /** For distinct elements no array is recorded twice. */
  lemma {:induction false} AllDistinct<T>(k: nat, e: seq<T>)
    requires k <= |e| && Distinct(e)
    ensures Distinct(All(k, e))
    decreases k, |e| + 1
  {
    if k > 1 {
      RestDistinct(k, e, 0);
      LevelSplit(k, e, 0);
    }
  }

  lemma {:induction false} RestDistinct<T>(k: nat, e: seq<T>, c: nat)
    requires 1 < k <= |e| && Distinct(e) && c < k
    ensures Distinct(All(k - 1, Round(k, e, c)) + Rest(k, e, c))
    decreases k, k - c
  {
    hide Round, LastOf, Made, All, Rest;
    var block, rest := All(k - 1, Round(k, e, c)), Rest(k, e, c);
    RoundRearranges(k, e, c);
    DistinctKept(e, Round(k, e, c));
    AllDistinct(k - 1, Round(k, e, c));
    LevelSplit(k, e, c);
    if c < k - 1 { RestDistinct(k, e, c + 1); }
    RestElsewhere(k, e, c, c);
    forall r | r in block ensures r !in rest { RoundKeeps(k, e, c, r); }
    DistinctJoin(block, rest);
  }

  /** What any round records is recorded. */
  lemma {:induction false} RoundIn<T>(k: nat, e: seq<T>, c: nat, r: seq<T>)
    requires 1 < k <= |e| && c < k && r in All(k - 1, Round(k, e, c)) + Rest(k, e, c)
    ensures r in All(k, e)
    decreases c
  {
    hide Round, Made, All, Rest;
    LevelSplit(k, e, 0);
    if c > 0 {
      LevelSplit(k, e, c - 1);
      RoundIn(k, e, c - 1, r);
    }
  }

  lemma FirstPart<T>(k: nat, e: seq<T>, r: seq<T>)
    requires k <= |e| && Rearranges(k, e, r)
    ensures multiset(r[..k]) == multiset(e[..k])
  {
    var a, b, x := e[..k], r[..k], e[k..];
    assert r == b + x && e == a + x;
    assert multiset(r) == multiset(b) + multiset(x) && multiset(e) == multiset(a) + multiset(x);
    assert multiset(b) == multiset(r) - multiset(x) && multiset(a) == multiset(e) - multiset(x);
  }

  lemma RearrangesNarrower<T>(k: nat, e: seq<T>, s: seq<T>, r: seq<T>)
    requires 0 < k <= |e| && Rearranges(k, e, s) && Rearranges(k, e, r) && s[k - 1] == r[k - 1]
    ensures Rearranges(k - 1, s, r)
  {
    assert r[k - 1..] == [r[k - 1]] + r[k..] && s[k - 1..] == [s[k - 1]] + s[k..];
  }

  lemma ShortComplete<T>(k: nat, e: seq<T>, r: seq<T>)
    requires k <= 1 && k <= |e| && Rearranges(k, e, r)
    ensures r == e
  {
    FirstPart(k, e, r);
    assert r == r[..k] + r[k..] && e == e[..k] + e[k..];
    if k == 1 {
      assert r[..1] == [r[0]] && e[..1] == [e[0]];
      assert r[0] in multiset(e[..1]);
    }
  }

  lemma LastComesFrom<T>(k: nat, e: seq<T>, r: seq<T>) returns (p: nat)
    requires 0 < k <= |e| && Rearranges(k, e, r)
    ensures p < k && e[p] == r[k - 1]
  {
    FirstPart(k, e, r);
    assert r[..k][k - 1] in multiset(e[..k]);
    p :| 0 <= p < k && e[p] == r[k - 1];
  }

  /** Every rearrangement is recorded, whether or not the elements are distinct. */
  lemma {:induction false} AllComplete<T>(k: nat, e: seq<T>, r: seq<T>)
    requires k <= |e| && Rearranges(k, e, r)
    ensures r in All(k, e)
    decreases k
  {
    hide Rearranges, Round, Made, LastOf;
    if k <= 1 {
      ShortComplete(k, e, r);
    } else {
      var p := LastComesFrom(k, e, r);
      var c := LastOnto(k, p);
      var start := Round(k, e, c);
      RoundLast(k, e, c);
      RoundRearranges(k, e, c);
      RearrangesNarrower(k, e, start, r);
      AllComplete(k - 1, start, r);
      RoundIn(k, e, c, r);
    }
  }

  /** The generator's promise: n! arrays, each a rearrangement of the input, every rearrangement
      among them, and none twice when the elements are distinct. */
  method Permutations<T>(elements: seq<T>) returns (made: seq<seq<T>>)
    ensures |made| == Factorial(|elements|)
    ensures forall r :: r in made <==> multiset(r) == multiset(elements)
    ensures Distinct(elements) ==> Distinct(made)
  {
    made := Permute(elements);
    var n := |elements|;
    assert made == All(n, elements);
    MadeCount(n, elements);
    MadeRearrange(n, elements);
    forall r | multiset(r) == multiset(elements) ensures r in made {
      assert |r| == |multiset(r)| == |multiset(elements)| == n;
      assert r[n..] == elements[n..];
      AllComplete(n, elements, r);
    }
    if Distinct(elements) { AllDistinct(n, elements); }
  }
}
