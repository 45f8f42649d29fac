/**
 The object slab between the page and a WebAssembly module: handles are indices into one array, and
 the list of free slots is kept in the slots themselves.
 */
module Slab {

  /** A slot holds an object, or the index of the next free slot. */
  datatype Cell<V> = Object(value: V) | Link(next: nat)

  /** Slots that stand for constants and are never given out. */
  const RESERVED: nat := 132

  /** The free list from slot `from`, ending at `end`. */
  ghost predicate Chain<V>(cells: seq<Cell<V>>, from: nat, free: seq<nat>, end: nat)
    decreases |free|
  {
    if free == [] then from == end
    else from == free[0] < |cells| && cells[from].Link? && Chain(cells, cells[from].next, free[1..], end)
  }

  ghost predicate Same<V>(cells: seq<Cell<V>>, cells2: seq<Cell<V>>, i: nat) {
    i < |cells| ==> i < |cells2| && cells2[i] == cells[i]
  }

  lemma {:induction false} ChainKept<V>(cells: seq<Cell<V>>, cells2: seq<Cell<V>>, from: nat, free: seq<nat>, end: nat)
    requires Chain(cells, from, free, end)
    requires forall i :: i in free ==> Same(cells, cells2, i)
    ensures Chain(cells2, from, free, end)
    decreases |free|
  {
    if free != [] {
      assert Same(cells, cells2, free[0]);
      assert free == [free[0]] + free[1..];
      ChainKept(cells, cells2, cells[from].next, free[1..], end);
    }
  }

  /** Where a walk of n links from a slot ends up. */
  function Walk<V>(cells: seq<Cell<V>>, from: nat, n: nat): nat
    decreases n
  {
    if n == 0 || from >= |cells| || cells[from].Object? then from else Walk(cells, cells[from].next, n - 1)
  }

  /** A walk along a chain visits its slots one after the other and then leaves the array: the
      list has no cycle, and is the only list from there. */
  lemma {:induction false} ChainWalk<V>(cells: seq<Cell<V>>, from: nat, free: seq<nat>, n: nat)
    requires Chain(cells, from, free, |cells|) && n <= |free|
    ensures Walk(cells, from, n) == if n < |free| then free[n] else |cells|
    decreases n
  {
    if n > 0 { ChainWalk(cells, cells[from].next, free[1..], n - 1); }
  }

  lemma {:induction false} ChainUnique<V>(cells: seq<Cell<V>>, from: nat, free: seq<nat>, free2: seq<nat>)
    requires Chain(cells, from, free, |cells|) && Chain(cells, from, free2, |cells|)
    ensures free == free2
    decreases |free|
  {
    if free != [] { ChainUnique(cells, cells[from].next, free[1..], free2[1..]); }
  }

  function Indices(low: nat, high: nat): (r: set<nat>)
    requires low <= high
    ensures |r| == high - low && forall i :: i in r <==> low <= i < high
    decreases high - low
  {
    if low == high then {} else Indices(low, high - 1) + {high - 1}
  }

  ghost predicate NoRepeats(s: seq<nat>) {
    forall i, j :: 0 <= i < j < |s| ==> s[i] != s[j]
  }

  function Elements(s: seq<nat>): (r: set<nat>)
    ensures forall i :: i in r <==> i in s
  {
    if s == [] then {} else Elements(s[1..]) + {s[0]}
  }

  lemma {:induction false} SeqCount(s: seq<nat>)
    requires NoRepeats(s)
    ensures |Elements(s)| == |s|
  {
    if s != [] {
      RestDistinct(s);
      hide NoRepeats;
      SeqCount(s[1..]);
    }
  }

  class Heap<V> {
    var cells: seq<Cell<V>>
    var head: nat
    /** The free slots, in the order they will be given out. */
    ghost var free: seq<nat>
    /** The most objects ever alive at once. */
    ghost var peak: nat
    /** The constants in the reserved slots. */
    ghost const constants: seq<V>

    ghost predicate Valid()
      reads this
    {
      && |constants| == RESERVED <= |cells|
      && (forall i :: 0 <= i < RESERVED ==> cells[i] == Object(constants[i]))
      && NoRepeats(free) && Chain(cells, head, free, |cells|)
      && (forall i :: i in free ==> RESERVED <= i < |cells|)
      && (forall i :: RESERVED <= i < |cells| ==> (cells[i].Link? <==> i in free))
      && |cells| == RESERVED + peak
    }

    /** What each live handle stands for. */
    ghost function Live(): map<nat, V>
      reads this
    {
      map h: nat | RESERVED <= h < |cells| && cells[h].Object? :: cells[h].value
    }

    constructor (constants: seq<V>)
      requires |constants| == RESERVED
      ensures Valid() && Live() == map[] && this.constants == constants && peak == 0
    {
      this.constants := constants;
      cells := seq(RESERVED, i requires 0 <= i < RESERVED => Object(constants[i]));
      head := RESERVED;
      free, peak := [], 0;
    }

    /** Live and free slots are all the slots there are. */
    lemma LiveAndFree()
      requires Valid()
      ensures |Live()| + |free| == peak
    {
      var f, l := Elements(free), Live().Keys;
      assert l + f == Indices(RESERVED, |cells|) && l * f == {};
      SeqCount(free);
      assert |l + f| == |l| + |f|;
      assert |Live()| == |l|;
    }

    /** Give out a handle for an object. */
    method Add(value: V) returns (handle: nat)
      requires Valid()
      modifies this
      ensures Valid() && handle >= RESERVED && handle !in old(Live()) && Live() == old(Live())[handle := value]
      ensures peak == if old(free) == [] then old(peak) + 1 else old(peak)
      ensures old(free) != [] ==> handle == old(free[0]) && free == old(free)[1..]
      ensures old(free) == [] ==> handle == old(|cells|) && free == [] && |Live()| == peak
    {
      hide NoRepeats;
      ghost var before := cells;
      if head == |cells| {
        Emptied();
        cells := cells + [Link(|cells| + 1)];
        free := [head];
        peak := peak + 1;
      }
      ghost var grown := cells;
      assert free[0] == head && head in free;
      handle := head;
      head := cells[handle].next;
      cells := cells[handle := Object(value)];
      RestDistinct(free);
      free := free[1..];
      ChainKept(grown, cells, head, free, |cells|);
      assert Live() == old(Live())[handle := value];
      if old(free) == [] { LiveAndFree(); }
    }

    /** A head past the array means that nothing is free. */
    lemma Emptied()
      requires Valid()
      ensures head == |cells| <==> free == []
    {
      if free != [] { assert free[0] in free; }
    }

    /** The object of a handle. */
    function Get(handle: nat): (value: V)
      requires Valid() && (handle < RESERVED || handle in Live())
      reads this
      ensures value == if handle < RESERVED then constants[handle] else Live()[handle]
    {
      cells[handle].value
    }

    /** The object of a handle, which is free from then on. */
    method Take(handle: nat) returns (value: V)
      requires Valid() && (handle < RESERVED || handle in Live())
      modifies this
      ensures Valid() && value == old(Get(handle)) && peak == old(peak)
      ensures Live() == old(Live()) - {handle}
      ensures free == if handle < RESERVED then old(free) else [handle] + old(free)
    {
      value := cells[handle].value;
      if handle < RESERVED {
        assert Live() == old(Live()) - {handle};
        return;
      }
      ghost var before := cells;
      assert handle !in free;
      cells := cells[handle := Link(head)];
      ChainKept(before, cells, head, free, |cells|);
      free := [handle] + free;
      head := handle;
      assert free[1..] == old(free);
      assert Live() == old(Live()) - {handle};
    }
  }

  lemma RestDistinct(s: seq<nat>)
    requires s != [] && NoRepeats(s)
    ensures NoRepeats(s[1..]) && s[0] !in s[1..] && forall i :: i in s <==> i == s[0] || i in s[1..]
  {
    assert s == [s[0]] + s[1..];
  }
}
