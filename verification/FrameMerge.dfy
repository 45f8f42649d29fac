/**
 Merging the answers of a sharded metric query: the rows of one frame are added to the rows of
 another that have the same time, or spliced in where the order of times wants them.  Values are
 real numbers.
 */
module FrameMerge {

  datatype Kind = Time | Number

  // -------- series ---------------------------------------------------------------------

  predicate Increasing(times: seq<real>) {
    forall i, j :: 0 <= i < j < |times| ==> times[i] < times[j]
  }

  /** What a column says about time t: the sum of its values there. */
  function At(times: seq<real>, column: seq<real>, t: real): real
    requires |times| == |column|
  {
    if times == [] then 0.0 else
      var n := |times| - 1;
      At(times[..n], column[..n], t) + Weight(times[n], column[n], t)
  }

  function Weight(time: real, value: real, t: real): real {
    if time == t then value else 0.0
  }

  function Sum(column: seq<real>): real {
    if column == [] then 0.0 else Sum(column[..|column| - 1]) + column[|column| - 1]
  }

  lemma {:induction false} AtJoin(s: seq<real>, c: seq<real>, s2: seq<real>, c2: seq<real>, t: real)
    requires |s| == |c| && |s2| == |c2|
    ensures At(s + s2, c + c2, t) == At(s, c, t) + At(s2, c2, t)
  {
    if s2 == [] {
      assert s + s2 == s && c + c2 == c;
    } else {
      var n := |s2| - 1;
      AtJoin(s, c, s2[..n], c2[..n], t);
      assert (s + s2)[..|s| + n] == s + s2[..n] && (c + c2)[..|s| + n] == c + c2[..n];
    }
  }

  lemma {:induction false} SumJoin(c: seq<real>, c2: seq<real>)
    ensures Sum(c + c2) == Sum(c) + Sum(c2)
  {
    if c2 == [] {
      assert c + c2 == c;
    } else {
      var n := |c2| - 1;
      SumJoin(c, c2[..n]);
      assert (c + c2)[..|c| + n] == c + c2[..n];
    }
  }

  function Splice<U>(s: seq<U>, at: nat, x: U): (r: seq<U>)
    requires at <= |s|
    ensures |r| == |s| + 1
  {
    s[..at] + [x] + s[at..]
  }

  lemma SpliceAt(times: seq<real>, column: seq<real>, at: nat, time: real, value: real, t: real)
    requires at <= |times| == |column|
    ensures At(Splice(times, at, time), Splice(column, at, value), t) == At(times, column, t) + Weight(time, value, t)
  {
    var (a, b) := (times[..at], times[at..]);
    var (c, d) := (column[..at], column[at..]);
    AtJoin(a, c, b, d, t);
    assert a + b == times && c + d == column;
    AtJoin(a + [time], c + [value], b, d, t);
    AtJoin(a, c, [time], [value], t);
    assert At([time], [value], t) == Weight(time, value, t);
  }

  lemma AddAt(times: seq<real>, column: seq<real>, at: nat, value: real, t: real)
    requires at < |times| == |column|
    ensures At(times, column[at := column[at] + value], t) == At(times, column, t) + Weight(times[at], value, t)
  {
    var (a, b) := (times[..at], times[at + 1..]);
    var (c, d) := (column[..at], column[at + 1..]);
    var v2 := column[at] + value;
    AtSplit(times, column, at, t);
    AtSplit(times, column[at := v2], at, t);
    assert column[at := v2][..at] == c && column[at := v2][at + 1..] == d;
  }

  lemma AtSplit(times: seq<real>, column: seq<real>, at: nat, t: real)
    requires at < |times| == |column|
    ensures At(times, column, t) == At(times[..at], column[..at], t) + Weight(times[at], column[at], t) + At(times[at + 1..], column[at + 1..], t)
  {
    hide At, Weight;
    var (a, x, b) := (times[..at], times[at], times[at + 1..]);
    var (c, v, d) := (column[..at], column[at], column[at + 1..]);
    AtJoin(a + [x], c + [v], b, d, t);
    AtJoin(a, c, [x], [v], t);
    AtOne(x, v, t);
    assert times == a + [x] + b && column == c + [v] + d;
  }

  lemma AtOne(x: real, v: real, t: real)
    ensures At([x], [v], t) == Weight(x, v, t)
  {
  }

  // -------- where a row belongs ------------------------------------------------------

  function Distance(a: real, b: real): real { if a <= b then b - a else a - b }

  /** What the plotting library promises of closestIdx on sorted values: an index of a nearest
      one, negative if there is none. */
  ghost predicate IsClosest(x: real, values: seq<real>, i: int) {
    if values == [] then i < 0
    else 0 <= i < |values| && forall j :: 0 <= j < |values| ==> Distance(x, values[i]) <= Distance(x, values[j])
  }

  ghost predicate FindsClosest(closest: (real, seq<real>) -> int) {
    forall x, values :: Increasing(values) ==> IsClosest(x, values, closest(x, values))
  }

  /** All times before position p are earlier than x, the others are not. */
  ghost predicate Divides(times: seq<real>, p: nat, x: real) {
    && p <= |times|
    && (forall i :: 0 <= i < p ==> times[i] < x)
    && (forall i :: p <= i < |times| ==> times[i] >= x)
  }

  /** The position of the row for time x. */
  function Place(closest: (real, seq<real>) -> int, x: real, times: seq<real>): (p: int)
  {
    var a := closest(x, times);
    if a < 0 then 0 else if a < |times| && x > times[a] then a + 1 else a
  }

  lemma PlaceDivides(closest: (real, seq<real>) -> int, x: real, times: seq<real>)
    requires Increasing(times) && FindsClosest(closest)
    ensures Place(closest, x, times) >= 0 && Divides(times, Place(closest, x, times), x)
  {
    var a := closest(x, times);
    assert IsClosest(x, times, a);
    if times != [] {
      if x > times[a] {
        if a + 1 < |times| { assert Distance(x, times[a]) <= Distance(x, times[a + 1]); }
      } else if a > 0 {
        assert Distance(x, times[a]) <= Distance(x, times[a - 1]);
      }
    }
  }

  ghost predicate Only(names: seq<string>, name: string, k: int) {
    0 <= k < |names| && forall i :: 0 <= i < |names| ==> (names[i] == name <==> i == k)
  }

  function Named(names: seq<string>, name: string, n: nat): (r: seq<nat>)
    requires n <= |names|
    ensures forall i :: i in r <==> 0 <= i < n && names[i] == name
    ensures forall i :: 0 <= i < |r| ==> r[i] < n && names[r[i]] == name
    ensures forall i, j :: 0 <= i < j < |r| ==> r[i] < r[j]
  {
    if n == 0 then [] else Named(names, name, n - 1) + if names[n - 1] == name then [n - 1] else []
  }

  lemma OneHit(name: string, names: seq<string>, k: int)
    requires Only(names, name, k)
    ensures Named(names, name, |names|) == [k]
  {
    var hits := Named(names, name, |names|);
    assert k in hits;
    assert hits[0] == k && hits[|hits| - 1] == k;
  }

  lemma HitOnly(name: string, names: seq<string>)
    requires |Named(names, name, |names|)| == 1
    ensures Only(names, name, Named(names, name, |names|)[0])
  {
    var hits := Named(names, name, |names|);
    forall i | 0 <= i < |names| ensures names[i] == name <==> i == hits[0] {
      if names[i] == name { assert i in hits; }
    }
  }

  lemma HitsAre(name: string, names: seq<string>)
    ensures forall k :: Only(names, name, k) ==> Named(names, name, |names|) == [k]
    ensures |Named(names, name, |names|)| == 1 ==> Only(names, name, Named(names, name, |names|)[0])
  {
    hide *;
    forall k | Only(names, name, k) ensures Named(names, name, |names|) == [k] { OneHit(name, names, k); }
    if |Named(names, name, |names|)| == 1 { HitOnly(name, names); }
  }

  /** The source column for column j: the one with its name if there is exactly one, else the one
      at its place, or none. */
  function Pair(name: string, j: nat, names: seq<string>): (p: int)
    ensures p < |names|
    ensures forall k :: Only(names, name, k) ==> p == k
    ensures p < 0 ==> j >= |names|
    ensures p >= 0 && p != j ==> Only(names, name, p)
  {
    HitsAre(name, names);
    var hits := Named(names, name, |names|);
    if |hits| == 1 then hits[0] else if j < |names| then j else -1
  }

  // -------- the merge, as a relation ---------------------------------------------------

  /** Which column is the time, and which source column belongs to each. */
  datatype Layout = Layout(time: nat, pairs: seq<int>)

  ghost predicate Fits(l: Layout, pre: seq<seq<real>>, src: seq<seq<real>>) {
    && l.time < |pre| == |l.pairs|
    && 0 <= l.pairs[l.time]
    && (forall j :: 0 <= j < |pre| ==> l.pairs[j] < |src|)
    && (forall j :: 0 <= j < |pre| ==> |pre[j]| == |pre[l.time]|)
    && (forall p :: 0 <= p < |src| ==> |src[p]| == |src[l.pairs[l.time]]|)
    && Increasing(pre[l.time])
  }

  function Rows(l: Layout, src: seq<seq<real>>): (times: seq<real>)
    requires l.time < |l.pairs| && 0 <= l.pairs[l.time] < |src|
  {
    src[l.pairs[l.time]]
  }

  /** Post is pre with the first n rows of src added: times stay increasing and are those of
      either; every paired column is, time by time, the sum of the two; the others are kept. */
  ghost predicate Adds(l: Layout, pre: seq<seq<real>>, src: seq<seq<real>>, n: nat, post: seq<seq<real>>)
    requires Fits(l, pre, src) && n <= |Rows(l, src)|
  {
    && |post| == |pre|
    && Increasing(post[l.time])
    && (forall t :: t in post[l.time] <==> t in pre[l.time] || t in Rows(l, src)[..n])
    && (forall j :: 0 <= j < |pre| && j != l.time ==> ColumnAdds(l, pre, src, n, post, j))
  }

  ghost predicate ColumnAdds(l: Layout, pre: seq<seq<real>>, src: seq<seq<real>>, n: nat, post: seq<seq<real>>, j: nat)
    requires Fits(l, pre, src) && n <= |Rows(l, src)| && |post| == |pre| && j < |pre|
  {
    if l.pairs[j] < 0 then post[j] == pre[j] else
      && |post[j]| == |post[l.time]|
      && Sum(post[j]) == Sum(pre[j]) + Sum(src[l.pairs[j]][..n])
      && forall t :: At(post[l.time], post[j], t) == At(pre[l.time], pre[j], t) + At(Rows(l, src)[..n], src[l.pairs[j]][..n], t)
  }

  // -------- one row --------------------------------------------------------------------

  /** Column j after the row of time x, with value v, is put at place a. */
  function RowColumn(l: Layout, cols: seq<seq<real>>, a: nat, matched: bool, v: real, j: nat): seq<real>
    requires l.time < |cols| == |l.pairs| && j < |cols|
    requires l.pairs[j] >= 0 ==> if matched then a < |cols[j]| else a <= |cols[j]|
  {
    if l.pairs[j] < 0 then cols[j]
    else if !matched then Splice(cols[j], a, v)
    else if j == l.time then cols[j]
    else cols[j][a := cols[j][a] + v]
  }

  lemma RowColumnAt(l: Layout, cols: seq<seq<real>>, a: nat, matched: bool, x: real, v: real, j: nat, t: real)
    requires l.time < |cols| == |l.pairs| && j < |cols| && j != l.time && l.pairs[j] >= 0 && l.pairs[l.time] >= 0
    requires |cols[j]| == |cols[l.time]| && Divides(cols[l.time], a, x)
    requires matched <==> a < |cols[l.time]| && cols[l.time][a] == x
    ensures var times := RowColumn(l, cols, a, matched, x, l.time); var column := RowColumn(l, cols, a, matched, v, j);
            |column| == |times| && At(times, column, t) == At(cols[l.time], cols[j], t) + Weight(x, v, t)
  {
    hide At, Splice, Weight;
    if matched { AddAt(cols[l.time], cols[j], a, v, t); } else { SpliceAt(cols[l.time], cols[j], a, x, v, t); }
  }

  lemma RowColumnSum(l: Layout, cols: seq<seq<real>>, a: nat, matched: bool, v: real, j: nat)
    requires l.time < |cols| == |l.pairs| && j < |cols| && j != l.time && l.pairs[j] >= 0
    requires if matched then a < |cols[j]| else a <= |cols[j]|
    ensures Sum(RowColumn(l, cols, a, matched, v, j)) == Sum(cols[j]) + v
  {
    var c := cols[j];
    var head, tail := c[..a], if matched then c[a + 1..] else c[a..];
    var put := if matched then c[a] + v else v;
    assert RowColumn(l, cols, a, matched, v, j) == head + [put] + tail;
    SumAround(head, put, tail);
    if matched { SumAround(head, c[a], tail); assert c == head + [c[a]] + tail; } else { SumJoin(head, tail); assert c == head + tail; }
  }

  lemma SumAround(head: seq<real>, x: real, tail: seq<real>)
    ensures Sum(head + [x] + tail) == Sum(head) + x + Sum(tail)
  {
    SumJoin(head + [x], tail);
    SumJoin(head, [x]);
    assert Sum([x]) == x;
  }

  lemma RowTimes(l: Layout, cols: seq<seq<real>>, a: nat, matched: bool, x: real)
    requires l.time < |cols| == |l.pairs| && l.pairs[l.time] >= 0
    requires Increasing(cols[l.time]) && Divides(cols[l.time], a, x)
    requires matched <==> a < |cols[l.time]| && cols[l.time][a] == x
    ensures var times := RowColumn(l, cols, a, matched, x, l.time);
            Increasing(times) && forall t :: t in times <==> t in cols[l.time] || t == x
  {
    var old_ := cols[l.time];
    var times := RowColumn(l, cols, a, matched, x, l.time);
    if !matched {
      assert old_ == old_[..a] + old_[a..];
      assert times == old_[..a] + [x] + old_[a..];
    }
  }

  lemma RowAdds(l: Layout, pre: seq<seq<real>>, src: seq<seq<real>>, n: nat, cols: seq<seq<real>>, a: nat, matched: bool, post: seq<seq<real>>)
    requires Fits(l, pre, src) && n < |Rows(l, src)| && Adds(l, pre, src, n, cols)
    requires Divides(cols[l.time], a, Rows(l, src)[n]) && (matched <==> a < |cols[l.time]| && cols[l.time][a] == Rows(l, src)[n])
    requires |post| == |cols| && forall j :: 0 <= j < |cols| ==> RowAt(l, src, n, cols, a, matched, post, j)
    ensures Adds(l, pre, src, n + 1, post)
  {
    hide At, Weight, RowColumn, Divides, Increasing;
    var x := Rows(l, src)[n];
    var d := n + 1;
    RowTimes(l, cols, a, matched, x);
    assert RowAt(l, src, n, cols, a, matched, post, l.time);
    assert Rows(l, src)[..d] == Rows(l, src)[..n] + [x];
    forall j | 0 <= j < |pre| && j != l.time ensures ColumnAdds(l, pre, src, d, post, j) {
      RowColumnAdds(l, pre, src, n, cols, a, matched, post, j);
    }
  }

  /** Post has the row in column j. */
  ghost predicate RowAt(l: Layout, src: seq<seq<real>>, n: nat, cols: seq<seq<real>>, a: nat, matched: bool, post: seq<seq<real>>, j: nat)
    requires l.time < |cols| == |l.pairs| && j < |cols| == |post|
    requires l.pairs[j] < |src| && (l.pairs[j] >= 0 ==> n < |src[l.pairs[j]]|)
  {
    && (l.pairs[j] >= 0 ==> if matched then a < |cols[j]| else a <= |cols[j]|)
    && post[j] == RowColumn(l, cols, a, matched, if l.pairs[j] < 0 then 0.0 else src[l.pairs[j]][n], j)
  }

  lemma RowHere(l: Layout, src: seq<seq<real>>, n: nat, cols: seq<seq<real>>, a: nat, matched: bool, post: seq<seq<real>>, j: nat)
    requires l.time < |cols| == |l.pairs| && j < |cols| == |post|
    requires l.pairs[j] < |src| && (l.pairs[j] >= 0 ==> n < |src[l.pairs[j]]|)
    requires l.pairs[j] >= 0 ==> if matched then a < |cols[j]| else a <= |cols[j]|
    requires post[j] == if l.pairs[j] < 0 || (matched && j == l.time) then cols[j]
                        else if matched then cols[j][a := cols[j][a] + src[l.pairs[j]][n]] else Splice(cols[j], a, src[l.pairs[j]][n])
    ensures RowAt(l, src, n, cols, a, matched, post, j)
  {
  }

  lemma RowKept(l: Layout, src: seq<seq<real>>, n: nat, cols: seq<seq<real>>, a: nat, matched: bool, was: seq<seq<real>>, post: seq<seq<real>>, j: nat)
    requires l.time < |cols| == |l.pairs| && j < |cols| == |post| == |was| && was[j] == post[j]
    requires l.pairs[j] < |src| && (l.pairs[j] >= 0 ==> n < |src[l.pairs[j]]|)
    requires RowAt(l, src, n, cols, a, matched, was, j)
    ensures RowAt(l, src, n, cols, a, matched, post, j)
  {
  }

  lemma RowSame(l: Layout, src: seq<seq<real>>, n: nat, cols: seq<seq<real>>, cols2: seq<seq<real>>, a: nat, matched: bool, post: seq<seq<real>>, j: nat)
    requires l.time < |cols| == |l.pairs| == |cols2| && j < |cols| == |post| && cols[j] == cols2[j]
    requires l.pairs[j] < |src| && (l.pairs[j] >= 0 ==> n < |src[l.pairs[j]]|)
    requires RowAt(l, src, n, cols, a, matched, post, j)
    ensures RowAt(l, src, n, cols2, a, matched, post, j)
  {
  }

  lemma RowColumnAdds(l: Layout, pre: seq<seq<real>>, src: seq<seq<real>>, n: nat, cols: seq<seq<real>>, a: nat, matched: bool, post: seq<seq<real>>, j: nat)
    requires Fits(l, pre, src) && n < |Rows(l, src)| && |cols| == |pre| == |post| && j < |pre| && j != l.time
    requires ColumnAdds(l, pre, src, n, cols, j)
    requires Divides(cols[l.time], a, Rows(l, src)[n]) && (matched <==> a < |cols[l.time]| && cols[l.time][a] == Rows(l, src)[n])
    requires RowAt(l, src, n, cols, a, matched, post, j) && RowAt(l, src, n, cols, a, matched, post, l.time)
    ensures ColumnAdds(l, pre, src, n + 1, post, j)
  {
    hide At, Weight, Divides, Increasing, Sum, RowColumn;
    if l.pairs[j] < 0 {
      Untouched(l, cols, a, matched, j);
    } else {
      var p := l.pairs[j];
      var x, v := Rows(l, src)[n], src[p][n];
      RowColumnSum(l, cols, a, matched, v, j);
      assert src[p][..n + 1] == src[p][..n] + [v];
      SumAround(src[p][..n], v, []);
      assert src[p][..n] + [v] + [] == src[p][..n + 1] && Sum([]) == 0.0 by { EmptySum(); }
      forall t ensures |post[j]| == |post[l.time]| && At(post[l.time], post[j], t) == At(pre[l.time], pre[j], t) + At(Rows(l, src)[..n + 1], src[p][..n + 1], t) {
        RowColumnAt(l, cols, a, matched, x, v, j, t);
        OneMore(Rows(l, src), src[p], n, t);
      }
    }
  }

  lemma EmptySum()
    ensures Sum([]) == 0.0
  {
  }

  lemma Untouched(l: Layout, cols: seq<seq<real>>, a: nat, matched: bool, j: nat)
    requires l.time < |cols| == |l.pairs| && j < |cols| && l.pairs[j] < 0
    ensures RowColumn(l, cols, a, matched, 0.0, j) == cols[j]
  {
  }

  lemma OneMore(times: seq<real>, column: seq<real>, n: nat, t: real)
    requires n < |times| == |column|
    ensures At(times[..n + 1], column[..n + 1], t) == At(times[..n], column[..n], t) + Weight(times[n], column[n], t)
  {
    assert times[..n + 1][..n] == times[..n] && column[..n + 1][..n] == column[..n];
  }

  // -------- the merge ------------------------------------------------------------------

  /** The first field of time type. */
  function TimeField(kinds: seq<Kind>): (i: nat)
    requires Time in kinds
    ensures i < |kinds| && kinds[i] == Time && forall k :: 0 <= k < i ==> kinds[k] != Time
  {
    if kinds[0] == Time then 0 else 1 + TimeField(kinds[1..])
  }

  class Frame {
    const names: seq<string>
    const kinds: seq<Kind>
    var columns: seq<seq<real>>

    constructor (names: seq<string>, kinds: seq<Kind>, columns: seq<seq<real>>)
      ensures this.names == names && this.kinds == kinds && this.columns == columns
    {
      this.names, this.kinds, this.columns := names, kinds, columns;
    }

    /** A metric frame: one time field, numbers beside it. */
    ghost predicate Shaped()
      reads this
    {
      |names| == |kinds| == |columns| && Time in kinds && forall k :: 0 <= k < |kinds| && kinds[k] == Time ==> k == TimeField(kinds)
    }

    ghost function LayoutFor(source: Frame): Layout
      requires Time in kinds && |kinds| == |names|
    {
      Layout(TimeField(kinds), seq(|names|, j requires 0 <= j < |names| => Pair(names[j], j, source.names)))
    }

    /** The source can be merged: times meet times. */
    ghost predicate Accepts(source: Frame)
      reads this, source
    {
      && Shaped() && source.Shaped() && source != this
      && Pair(names[TimeField(kinds)], TimeField(kinds), source.names) == TimeField(source.kinds)
      && Fits(LayoutFor(source), columns, source.columns)
    }

    /** The columns there are, and room for row n of the source at place a. */
    ghost predicate Ready(source: Frame, n: nat, a: nat, matched: bool)
      reads this, source
    {
      && |names| == |kinds| == |columns| && Time in kinds && source.Shaped() && source != this
      && (forall k :: 0 <= k < |kinds| && kinds[k] == Time ==> k == TimeField(kinds))
      && (forall p :: 0 <= p < |source.columns| ==> n < |source.columns[p]|)
      && forall j :: 0 <= j < |columns| ==> Room(source, a, matched, columns[j], j)
    }

    ghost predicate Room(source: Frame, a: nat, matched: bool, column: seq<real>, j: nat)
      requires j < |names|
    {
      Pair(names[j], j, source.names) >= 0 ==> if matched then a < |column| else a <= |column|
    }

    /** Column i of the row. */
    method MergeCell(source: Frame, n: nat, a: nat, matched: bool, i: nat)
      requires |names| == |kinds| == |columns| && Time in kinds && source.Shaped() && source != this && i < |names|
      requires forall k :: 0 <= k < |kinds| && kinds[k] == Time ==> k == TimeField(kinds)
      requires forall p :: 0 <= p < |source.columns| ==> n < |source.columns[p]|
      requires Room(source, a, matched, columns[i], i)
      modifies this
      ensures |columns| == |old(columns)| && RowAt(LayoutFor(source), source.columns, n, old(columns), a, matched, columns, i)
      ensures forall j :: 0 <= j < |columns| && j != i ==> columns[j] == old(columns)[j]
    {
      hide Splice, RowAt, Pair;
      var p := Pair(names[i], i, source.names);
      ghost var l, before := LayoutFor(source), columns;
      assert l.pairs[i] == p;
      if p >= 0 && !(matched && kinds[i] == Time) {
        var v := source.columns[p][n];
        columns := columns[i := if matched then columns[i][a := columns[i][a] + v] else Splice(columns[i], a, v)];
      }
      RowHere(l, source.columns, n, before, a, matched, columns, i);
    }

    /** Add or splice in row n of the source, column by column. */
    method MergeRow(source: Frame, n: nat, a: nat, matched: bool)
      requires Ready(source, n, a, matched)
      modifies this
      ensures |columns| == |old(columns)|
      ensures forall j :: 0 <= j < |columns| ==> RowAt(LayoutFor(source), source.columns, n, old(columns), a, matched, columns, j)
    {
      hide Splice, RowAt, Room, RowColumn, Pair;
      ghost var l, before := LayoutFor(source), columns;
      var width := if |names| >= |source.names| then |names| else |source.names|;
      for i := 0 to width
        invariant |columns| == |before|
        invariant forall j :: 0 <= j < |columns| && j < i ==> RowAt(l, source.columns, n, before, a, matched, columns, j)
        invariant forall j :: i <= j < |columns| ==> columns[j] == before[j]
      {
        if i >= |names| { continue; }
        ghost var was := columns;
        MergeCell(source, n, a, matched, i);
        RowSame(l, source.columns, n, was, before, a, matched, columns, i);
        forall j | 0 <= j < i ensures RowAt(l, source.columns, n, before, a, matched, columns, j) {
          RowKept(l, source.columns, n, before, a, matched, was, columns, j);
        }
      }
    }

    /** Merge the source in. */
    method Merge(source: Frame, closest: (real, seq<real>) -> int)
      requires Accepts(source) && FindsClosest(closest)
      modifies this
      ensures Adds(LayoutFor(source), old(columns), source.columns, |Rows(LayoutFor(source), source.columns)|, columns)
    {
      ghost var l := LayoutFor(source);
      ghost var pre := columns;
      var time, sourceTime := TimeField(kinds), TimeField(source.kinds);
      var rows := source.columns[sourceTime];
      AddsNothing(l, pre, source.columns);
      for n := 0 to |rows|
        invariant |columns| == |pre| && Adds(l, pre, source.columns, n, columns)
      {
        ghost var before := columns;
        PlaceDivides(closest, rows[n], columns[time]);
        var a := Place(closest, rows[n], columns[time]);
        var matched := a < |columns[time]| && columns[time][a] == rows[n];
        Lengths(l, pre, source.columns, n, columns);
        MergeRow(source, n, a, matched);
        RowAdds(l, pre, source.columns, n, before, a, matched, columns);
      }
    }
  }

  lemma AddsNothing(l: Layout, pre: seq<seq<real>>, src: seq<seq<real>>)
    requires Fits(l, pre, src)
    ensures Adds(l, pre, src, 0, pre)
  {
  }

  lemma Lengths(l: Layout, pre: seq<seq<real>>, src: seq<seq<real>>, n: nat, post: seq<seq<real>>)
    requires Fits(l, pre, src) && n <= |Rows(l, src)| && Adds(l, pre, src, n, post)
    ensures forall j :: 0 <= j < |post| && l.pairs[j] >= 0 ==> |post[j]| == |post[l.time]|
  {
    forall j | 0 <= j < |post| && l.pairs[j] >= 0 ensures |post[j]| == |post[l.time]| {
      if j != l.time { assert ColumnAdds(l, pre, src, n, post, j); }
    }
  }

  // -------- what follows ---------------------------------------------------------------

  /** The whole source is added. */
  ghost predicate AddsAll(l: Layout, pre: seq<seq<real>>, src: seq<seq<real>>, post: seq<seq<real>>)
    requires Fits(l, pre, src)
  {
    Adds(l, pre, src, |Rows(l, src)|, post)
  }

  ghost predicate EquallyLong(l: Layout, cols: seq<seq<real>>)
    requires l.time < |cols|
  {
    forall j :: 0 <= j < |cols| ==> |cols[j]| == |cols[l.time]|
  }

  lemma DropLast(s: seq<real>)
    requires s != [] && Increasing(s)
    ensures Increasing(s[..|s| - 1]) && s[|s| - 1] in s
    ensures forall x :: x in s[..|s| - 1] <==> x in s && x != s[|s| - 1]
    ensures forall x :: x in s ==> x <= s[|s| - 1]
  {
    var m := |s| - 1;
    assert s == s[..m] + [s[m]];
    assert s[m] in s;
  }

  lemma {:induction false} IncreasingUnique(s: seq<real>, t: seq<real>)
    requires Increasing(s) && Increasing(t) && forall x :: x in s <==> x in t
    ensures s == t
    decreases |s|
  {
    if t != [] { assert t[0] in t; }
    if s != [] {
      assert s[0] in s;
      hide Increasing;
      DropLast(s);
      DropLast(t);
      assert s[|s| - 1] in t && t[|t| - 1] in s;
      var s1, t1 := s[..|s| - 1], t[..|t| - 1];
      assert s[|s| - 1] == t[|t| - 1];
      forall x ensures x in s1 <==> x in t1 { assert x in s <==> x in t; }
      IncreasingUnique(s1, t1);
      assert s == s1 + [s[|s| - 1]] && t == t1 + [t[|t| - 1]];
    }
  }

  lemma {:induction false} AtAbsent(times: seq<real>, column: seq<real>, t: real)
    requires |times| == |column| && t !in times
    ensures At(times, column, t) == 0.0
  {
    if times != [] { AtAbsent(times[..|times| - 1], column[..|times| - 1], t); }
  }

  lemma AtOwn(times: seq<real>, column: seq<real>, i: nat)
    requires |times| == |column| && Increasing(times) && i < |times|
    ensures At(times, column, times[i]) == column[i]
  {
    AtSplit(times, column, i, times[i]);
    AtAbsent(times[..i], column[..i], times[i]);
    AtAbsent(times[i + 1..], column[i + 1..], times[i]);
  }

  lemma ColumnUnique(times: seq<real>, c: seq<real>, d: seq<real>)
    requires |times| == |c| == |d| && Increasing(times) && forall t :: At(times, c, t) == At(times, d, t)
    ensures c == d
  {
    forall i | 0 <= i < |c| ensures c[i] == d[i] {
      AtOwn(times, c, i);
      AtOwn(times, d, i);
    }
  }

  /** The columns stay equally long if and only if each finds a source column, or the source
      brings no new time. */
  lemma LongIff(l: Layout, pre: seq<seq<real>>, src: seq<seq<real>>, post: seq<seq<real>>)
    requires Fits(l, pre, src) && AddsAll(l, pre, src, post)
    ensures EquallyLong(l, post) <==>
            (forall j :: 0 <= j < |pre| ==> l.pairs[j] >= 0) || (forall t :: t in Rows(l, src) ==> t in pre[l.time])
  {
    hide At, Sum;
    Lengths(l, pre, src, |Rows(l, src)|, post);
    var rows := Rows(l, src);
    assert rows[..|rows|] == rows;
    if forall t :: t in rows ==> t in pre[l.time] {
      IncreasingUnique(pre[l.time], post[l.time]);
      forall j | 0 <= j < |post| ensures |post[j]| == |post[l.time]| { if j != l.time { assert ColumnAdds(l, pre, src, |rows|, post, j); } }
    } else {
      var t :| t in rows && t !in pre[l.time];
      if |post[l.time]| == |pre[l.time]| {
        LongerSet(pre[l.time], post[l.time], t);
        assert false;
      }
      if j :| 0 <= j < |pre| && l.pairs[j] < 0 {
        assert ColumnAdds(l, pre, src, |rows|, post, j);
        assert |post[j]| != |post[l.time]|;
      }
    }
  }

  /** A source without a column of our field's name or place leaves that column shorter than the
      times: with fields "time" and "sum" on our side, "time" alone on the other, and a new time. */
  lemma ColumnsPart(closest: (real, seq<real>) -> int)
    ensures Pair("time", 0, ["time"]) == 0 && Pair("sum", 1, ["time"]) == -1
    ensures var l, pre, src := Layout(0, [0, -1]), [[1.0], [5.0]], [[2.0]];
            Fits(l, pre, src) && forall post :: AddsAll(l, pre, src, post) ==> !EquallyLong(l, post) && |post[0]| == 2 && |post[1]| == 1
  {
    var l, pre, src := Layout(0, [0, -1]), [[1.0], [5.0]], [[2.0]];
    assert Only(["time"], "time", 0);
    assert "sum" != "time" by { assert |"sum"| != |"time"|; }
    forall post | AddsAll(l, pre, src, post)
      ensures !EquallyLong(l, post) && |post[0]| == 2 && |post[1]| == 1
    {
      OnePart(l, pre, src, post);
    }
  }

  lemma OnePart(l: Layout, pre: seq<seq<real>>, src: seq<seq<real>>, post: seq<seq<real>>)
    requires l == Layout(0, [0, -1]) && pre == [[1.0], [5.0]] && src == [[2.0]] && Fits(l, pre, src) && AddsAll(l, pre, src, post)
    ensures !EquallyLong(l, post) && |post[0]| == 2 && |post[1]| == 1
  {
    hide At, Sum;
    assert Rows(l, src)[..1] == [2.0];
    assert 2.0 in Rows(l, src) && 2.0 !in pre[0] && l.pairs[1] < 0;
    LongIff(l, pre, src, post);
    assert ColumnAdds(l, pre, src, 1, post, 1);
    var both := [1.0, 2.0];
    forall t ensures t in both <==> t in post[0] { assert t in post[0] <==> t in pre[0] || t in Rows(l, src)[..1]; }
    IncreasingUnique(both, post[0]);
  }

  lemma LongerSet(s: seq<real>, t: seq<real>, x: real)
    requires Increasing(s) && Increasing(t) && (forall y :: y in s ==> y in t) && x in t && x !in s
    ensures |t| > |s|
  {
    var a, b := set y | y in s, set y | y in t;
    SetSize(s);
    SetSize(t);
    assert x in b - a && a <= b;
    assert b == a + (b - a);
    assert |b| == |a| + |b - a|;
  }

  lemma {:induction false} SetSize(s: seq<real>)
    requires Increasing(s)
    ensures |set y | y in s| == |s|
  {
    if s != [] {
      var n := |s| - 1;
      SetSize(s[..n]);
      assert s == s[..n] + [s[n]];
      assert (set y | y in s) == (set y | y in s[..n]) + {s[n]};
    }
  }

  // -------- the order of the shards ----------------------------------------------------

  /** What all sources together say of column j at time t. */
  function AtAll(l: Layout, sources: seq<seq<seq<real>>>, j: nat, t: real): real
    requires l.time < |l.pairs| && j < |l.pairs| && l.pairs[l.time] >= 0 && l.pairs[j] >= 0
    requires AllRows(l, sources)
  {
    if sources == [] then 0.0 else
      var s := sources[|sources| - 1];
      AtAll(l, sources[..|sources| - 1], j, t) + At(Rows(l, s), s[l.pairs[j]], t)
  }

  /** A source with a column for every one of ours. */
  ghost predicate HasRows(l: Layout, s: seq<seq<real>>) {
    && l.time < |l.pairs| && 0 <= l.pairs[l.time] < |s|
    && forall j :: 0 <= j < |l.pairs| ==> 0 <= l.pairs[j] < |s| && |s[l.pairs[j]]| == |s[l.pairs[l.time]]|
  }

  ghost predicate AllRows(l: Layout, sources: seq<seq<seq<real>>>) {
    forall i :: 0 <= i < |sources| ==> HasRows(l, sources[i])
  }

  /** The states of a frame into which the sources are merged one after the other. */
  ghost predicate Chain(l: Layout, sources: seq<seq<seq<real>>>, states: seq<seq<seq<real>>>) {
    && |states| == |sources| + 1
    && AllRows(l, sources)
    && forall i :: 0 <= i < |sources| ==> Fits(l, states[i], sources[i]) && AddsAll(l, states[i], sources[i], states[i + 1])
  }

  /** The times of the merged frame are those of all sources. */
  lemma {:induction false} ChainTimes(l: Layout, sources: seq<seq<seq<real>>>, states: seq<seq<seq<real>>>, n: nat, t: real)
    requires Chain(l, sources, states) && n <= |sources| && l.time < |states[0]| == |l.pairs| && l.pairs[l.time] >= 0
    ensures |states[n]| == |l.pairs|
    ensures t in states[n][l.time] <==> t in states[0][l.time] || exists s :: s in sources[..n] && t in Rows(l, s)
  {
    hide At, ColumnAdds;
    if n > 0 {
      var m := n - 1;
      ChainTimes(l, sources, states, m, t);
      var s := sources[m];
      assert AddsAll(l, states[m], s, states[m + 1]);
      assert Rows(l, s)[..|Rows(l, s)|] == Rows(l, s);
      assert sources[..n][..m] == sources[..m] && sources[..n] == sources[..m] + [s];
    }
  }

  lemma {:induction false} ChainAt(l: Layout, sources: seq<seq<seq<real>>>, states: seq<seq<seq<real>>>, n: nat, j: nat, t: real)
    requires Chain(l, sources, states) && n <= |sources| && l.time < |states[0]| == |l.pairs| && j < |l.pairs| && j != l.time
    requires EquallyLong(l, states[0]) && l.pairs[l.time] >= 0 && l.pairs[j] >= 0
    ensures |states[n]| == |l.pairs| && |states[n][j]| == |states[n][l.time]|
    ensures At(states[n][l.time], states[n][j], t) == At(states[0][l.time], states[0][j], t) + AtAll(l, sources[..n], j, t)
  {
    hide At;
    if n > 0 {
      var m := n - 1;
      ChainAt(l, sources, states, m, j, t);
      var s := sources[m];
      assert AddsAll(l, states[m], s, states[m + 1]);
      assert ColumnAdds(l, states[m], s, |Rows(l, s)|, states[n], j);
      assert Rows(l, s)[..|Rows(l, s)|] == Rows(l, s) && s[l.pairs[j]][..|Rows(l, s)|] == s[l.pairs[j]];
      assert sources[..n][..m] == sources[..m] && sources[..n] == sources[..m] + [s];
    }
  }

  lemma {:induction false} AtAllRemove(l: Layout, sources: seq<seq<seq<real>>>, i: nat, j: nat, t: real)
    requires i < |sources| && AllRows(l, sources)
    requires l.time < |l.pairs| && j < |l.pairs| && l.pairs[l.time] >= 0 && l.pairs[j] >= 0
    ensures AtAll(l, sources, j, t) == AtAll(l, sources[..i] + sources[i + 1..], j, t) + At(Rows(l, sources[i]), sources[i][l.pairs[j]], t)
  {
    hide At;
    var n := |sources| - 1;
    if i == n {
      assert sources[..i] + sources[i + 1..] == sources[..n];
    } else {
      AtAllRemove(l, sources[..n], i, j, t);
      var rest := sources[..i] + sources[i + 1..];
      assert rest[..n - 1] == sources[..n][..i] + sources[..n][i + 1..] && rest[n - 1] == sources[n];
    }
  }

  lemma AtAllLast(l: Layout, sources: seq<seq<seq<real>>>, j: nat, t: real)
    requires sources != [] && AllRows(l, sources)
    requires l.time < |l.pairs| && j < |l.pairs| && l.pairs[l.time] >= 0 && l.pairs[j] >= 0
    ensures HasRows(l, sources[|sources| - 1])
    ensures var n := |sources| - 1;
            AtAll(l, sources, j, t) == AtAll(l, sources[..n], j, t) + At(Rows(l, sources[n]), sources[n][l.pairs[j]], t)
  {
  }

  lemma Without<U>(s: seq<U>, i: nat)
    requires i < |s|
    ensures multiset(s[..i] + s[i + 1..]) == multiset(s) - multiset{s[i]}
  {
    assert s == s[..i] + [s[i]] + s[i + 1..];
  }

  lemma {:induction false} AtAllOrder(l: Layout, sources: seq<seq<seq<real>>>, others: seq<seq<seq<real>>>, j: nat, t: real)
    requires multiset(sources) == multiset(others) && AllRows(l, sources) && AllRows(l, others)
    requires l.time < |l.pairs| && j < |l.pairs| && l.pairs[l.time] >= 0 && l.pairs[j] >= 0
    ensures AtAll(l, sources, j, t) == AtAll(l, others, j, t)
    decreases |sources|
  {
    hide At, HasRows, Rows;
    assert |sources| == |multiset(sources)| == |others|;
    if sources == [] {
      assert others == [];
    } else {
      hide AtAll;
      AtAllLast(l, sources, j, t);
      var n := |sources| - 1;
      var i := Found(sources, others);
      AtAllRemove(l, others, i, j, t);
      AtAllOrder(l, sources[..n], others[..i] + others[i + 1..], j, t);
    }
  }

  lemma Found<U>(s: seq<U>, t: seq<U>) returns (i: nat)
    requires s != [] && multiset(s) == multiset(t)
    ensures i < |t| && t[i] == s[|s| - 1] && multiset(s[..|s| - 1]) == multiset(t[..i] + t[i + 1..])
  {
    var n := |s| - 1;
    assert s[n] in multiset(t);
    i :| 0 <= i < |t| && t[i] == s[n];
    Without(t, i);
    Without(s, n);
    assert s[..n] + s[n + 1..] == s[..n];
  }

  /** The layout of columns already in order. */
  function InPlace(time: nat, width: nat): (l: Layout)
    ensures l.time == time && |l.pairs| == width && forall j :: 0 <= j < width ==> l.pairs[j] == j
  {
    Layout(time, seq(width, j => j))
  }

  ghost predicate AllPaired(l: Layout, width: nat) {
    forall j :: 0 <= j < |l.pairs| ==> 0 <= l.pairs[j] < width
  }

  /** The columns of a source in the order of the frame it is merged into. */
  function Arranged(l: Layout, cols: seq<seq<real>>): (r: seq<seq<real>>)
    requires AllPaired(l, |cols|)
    ensures |r| == |l.pairs| && forall j :: 0 <= j < |r| ==> r[j] == cols[l.pairs[j]]
  {
    seq(|l.pairs|, j requires 0 <= j < |l.pairs| => cols[l.pairs[j]])
  }

  /** Merging a source with a layout is merging its arranged columns in place. */
  lemma ArrangedAdds(l: Layout, pre: seq<seq<real>>, src: seq<seq<real>>, post: seq<seq<real>>)
    requires Fits(l, pre, src) && AllPaired(l, |src|) && AddsAll(l, pre, src, post)
    ensures var l2, src2 := InPlace(l.time, |pre|), Arranged(l, src);
            HasRows(l2, src2) && Fits(l2, pre, src2) && AddsAll(l2, pre, src2, post)
  {
    hide At, Sum, Increasing;
    var l2, src2, n := InPlace(l.time, |pre|), Arranged(l, src), |Rows(l, src)|;
    assert Rows(l2, src2) == Rows(l, src);
    forall j | 0 <= j < |pre| && j != l.time ensures ColumnAdds(l2, pre, src2, n, post, j) { assert ColumnAdds(l, pre, src, n, post, j); }
  }

  /** A source that has a column for every one of the frame's, whatever the rows. */
  ghost predicate Meets(frame: Frame, source: Frame)
    reads source
  {
    && frame != source && source.Shaped()
    && |frame.names| == |frame.kinds| && Time in frame.kinds
    && (forall k :: 0 <= k < |frame.kinds| && frame.kinds[k] == Time ==> k == TimeField(frame.kinds))
    && Pair(frame.names[TimeField(frame.kinds)], TimeField(frame.kinds), source.names) == TimeField(source.kinds)
    && AllPaired(frame.LayoutFor(source), |source.columns|)
  }

  ghost predicate AllMeet(frame: Frame, sources: seq<Frame>)
    reads sources
  {
    frame !in sources && |frame.names| == |frame.kinds| && Time in frame.kinds && forall k :: 0 <= k < |sources| ==> Meets(frame, sources[k])
  }

  /** Each source is merged with a layout of its own. */
  ghost function LayoutsOf(frame: Frame, sources: seq<Frame>): (ls: seq<Layout>)
    requires Time in frame.kinds && |frame.kinds| == |frame.names|
    ensures |ls| == |sources| && forall i :: 0 <= i < |ls| ==> ls[i] == frame.LayoutFor(sources[i])
  {
    seq(|sources|, i requires 0 <= i < |sources| => frame.LayoutFor(sources[i]))
  }

  ghost predicate AllFit(ls: seq<Layout>, cols: seq<seq<real>>, given: seq<seq<seq<real>>>) {
    |ls| == |given| && forall k :: 0 <= k < |given| ==> Fits(ls[k], cols, given[k])
  }

  /** The layouts put the time at the same place, and find every column. */
  ghost predicate AllArrange(ls: seq<Layout>, time: nat, width: nat, given: seq<seq<seq<real>>>) {
    |ls| == |given| && forall k :: 0 <= k < |given| ==> ls[k].time == time && |ls[k].pairs| == width && AllPaired(ls[k], |given[k]|)
  }

  ghost function AllArranged(ls: seq<Layout>, time: nat, width: nat, given: seq<seq<seq<real>>>): (r: seq<seq<seq<real>>>)
    requires AllArrange(ls, time, width, given)
    ensures |r| == |given| && forall k :: 0 <= k < |r| ==> r[k] == Arranged(ls[k], given[k])
  {
    seq(|given|, k requires 0 <= k < |given| => Arranged(ls[k], given[k]))
  }

  function ColumnsOf(sources: seq<Frame>): (r: seq<seq<seq<real>>>)
    reads sources
    ensures |r| == |sources| && forall i :: 0 <= i < |r| ==> r[i] == sources[i].columns
  {
    seq(|sources|, i requires 0 <= i < |sources| reads sources => sources[i].columns)
  }

  lemma Accepted(frame: Frame, source: Frame)
    requires Meets(frame, source) && Fits(frame.LayoutFor(source), frame.columns, source.columns)
    ensures frame.Accepts(source)
  {
    hide Pair, Increasing, AllPaired;
  }

  /** After a merge every column is long again, so the next source fits. */
  lemma StaysFit(l: Layout, pre: seq<seq<real>>, src: seq<seq<real>>, post: seq<seq<real>>, l2: Layout, next: seq<seq<real>>)
    requires Fits(l, pre, src) && AddsAll(l, pre, src, post) && AllPaired(l, |src|) && l2.time == l.time && Fits(l2, pre, next)
    ensures Fits(l2, post, next)
  {
    hide At, Sum, ColumnAdds;
    Lengths(l, pre, src, |Rows(l, src)|, post);
  }

  lemma AllStayFit(ls: seq<Layout>, pre: seq<seq<real>>, given: seq<seq<seq<real>>>, i: nat, post: seq<seq<real>>, time: nat, width: nat)
    requires i < |given| && AllFit(ls, pre, given) && AllArrange(ls, time, width, given) && AddsAll(ls[i], pre, given[i], post)
    ensures AllFit(ls, post, given)
  {
    hide Fits, AddsAll, AllPaired;
    forall k | 0 <= k < |given| ensures Fits(ls[k], post, given[k]) { StaysFit(ls[i], pre, given[i], post, ls[k], given[k]); }
  }

  lemma WholeAdded(l: Layout, pre: seq<seq<real>>, src: seq<seq<real>>, post: seq<seq<real>>)
    requires Fits(l, pre, src) && Adds(l, pre, src, |Rows(l, src)|, post)
    ensures AddsAll(l, pre, src, post)
  {
  }

  lemma OneOf(frame: Frame, sources: seq<Frame>, cols: seq<seq<real>>, given: seq<seq<seq<real>>>, i: nat)
    requires i < |sources| == |given| && AllMeet(frame, sources) && AllFit(LayoutsOf(frame, sources), cols, given)
    ensures Meets(frame, sources[i]) && frame != sources[i] && Fits(frame.LayoutFor(sources[i]), cols, given[i])
    ensures LayoutsOf(frame, sources)[i] == frame.LayoutFor(sources[i])
  {
    hide Fits;
  }

  lemma Arrange(frame: Frame, sources: seq<Frame>)
    requires AllMeet(frame, sources)
    ensures AllArrange(LayoutsOf(frame, sources), TimeField(frame.kinds), |frame.names|, ColumnsOf(sources))
  {
    hide Pair, AllPaired;
    forall k | 0 <= k < |sources| ensures AllPaired(LayoutsOf(frame, sources)[k], |sources[k].columns|) { assert Meets(frame, sources[k]); }
  }

  lemma ChainStarts(l: Layout, sources: seq<seq<seq<real>>>, cols: seq<seq<real>>)
    ensures Chain(l, sources[..0], [cols])
  {
  }

  lemma ChainGrows(l: Layout, sources: seq<seq<seq<real>>>, states: seq<seq<seq<real>>>, i: nat, post: seq<seq<real>>)
    requires i < |sources| && Chain(l, sources[..i], states) && HasRows(l, sources[i])
    requires Fits(l, states[i], sources[i]) && AddsAll(l, states[i], sources[i], post)
    ensures Chain(l, sources[..i + 1], states + [post])
  {
    hide HasRows, Fits, AddsAll;
    assert sources[..i + 1] == sources[..i] + [sources[i]];
  }

  /** One more source, with its own layout, in a chain of arranged ones. */
  lemma ChainArranged(ls: seq<Layout>, given: seq<seq<seq<real>>>, states: seq<seq<seq<real>>>, i: nat, post: seq<seq<real>>, time: nat, width: nat)
    requires i < |given| && i < |states| && AllArrange(ls, time, width, given)
    requires Fits(ls[i], states[i], given[i]) && AddsAll(ls[i], states[i], given[i], post)
    requires Chain(InPlace(time, width), AllArranged(ls, time, width, given)[..i], states)
    ensures Chain(InPlace(time, width), AllArranged(ls, time, width, given)[..i + 1], states + [post])
  {
    hide AddsAll, HasRows, AllPaired;
    FitsWidth(ls[i], states[i], given[i]);
    ArrangedAdds(ls[i], states[i], given[i], post);
    hide Fits;
    ChainGrows(InPlace(time, width), AllArranged(ls, time, width, given), states, i, post);
  }

  lemma FitsWidth(l: Layout, pre: seq<seq<real>>, src: seq<seq<real>>)
    requires Fits(l, pre, src)
    ensures |pre| == |l.pairs|
  {
  }

  /** One answer merged, with its own layout. */
  method MergeOne(frame: Frame, source: Frame, closest: (real, seq<real>) -> int)
    requires Meets(frame, source) && frame != source && Time in frame.kinds && |frame.kinds| == |frame.names|
    requires FindsClosest(closest) && Fits(frame.LayoutFor(source), frame.columns, source.columns)
    modifies frame
    ensures Fits(frame.LayoutFor(source), old(frame.columns), source.columns)
    ensures AddsAll(frame.LayoutFor(source), old(frame.columns), source.columns, frame.columns)
  {
    hide *;
    Accepted(frame, source);
    ghost var pre := frame.columns;
    frame.Merge(source, closest);
    WholeAdded(frame.LayoutFor(source), pre, source.columns, frame.columns);
  }

  /** Answers merged into a frame, one after the other: the states passed through are a chain, so
      what is proved of chains holds of the run. */
  method MergeAll(frame: Frame, sources: seq<Frame>, closest: (real, seq<real>) -> int) returns (ghost states: seq<seq<seq<real>>>)
    requires FindsClosest(closest) && frame !in sources && Time in frame.kinds && |frame.kinds| == |frame.names| && AllMeet(frame, sources)
    requires AllFit(LayoutsOf(frame, sources), frame.columns, ColumnsOf(sources))
    requires AllArrange(LayoutsOf(frame, sources), TimeField(frame.kinds), |frame.names|, ColumnsOf(sources))
    modifies frame
    ensures ColumnsOf(sources) == old(ColumnsOf(sources))
    ensures |states| == |sources| + 1 && states[0] == old(frame.columns) && states[|sources|] == frame.columns
    ensures Chain(InPlace(TimeField(frame.kinds), |frame.names|), AllArranged(LayoutsOf(frame, sources), TimeField(frame.kinds), |frame.names|, ColumnsOf(sources)), states)
  {
    hide *;
    states := [frame.columns];
    ghost var given, ls := ColumnsOf(sources), LayoutsOf(frame, sources);
    ghost var l, arranged := InPlace(TimeField(frame.kinds), |frame.names|), AllArranged(ls, TimeField(frame.kinds), |frame.names|, given);
    ChainStarts(l, arranged, frame.columns);
    for i := 0 to |sources|
      invariant |states| == i + 1 && states[0] == old(frame.columns) && states[i] == frame.columns
      invariant ColumnsOf(sources) == given && AllMeet(frame, sources)
      invariant AllFit(ls, frame.columns, given) && Chain(l, arranged[..i], states)
    {
      ghost var before := frame.columns;
      OneOf(frame, sources, before, given, i);
      MergeOne(frame, sources[i], closest);
      AllStayFit(ls, before, given, i, frame.columns, l.time, |frame.names|);
      ChainArranged(ls, given, states, i, frame.columns, l.time, |frame.names|);
      states := states + [frame.columns];
    }
    assert arranged[..|sources|] == arranged;
  }

  /** Whatever order the shards answer in, the merged frame is the same. */
  lemma OrderFree(l: Layout, sources: seq<seq<seq<real>>>, states: seq<seq<seq<real>>>, others: seq<seq<seq<real>>>, states2: seq<seq<seq<real>>>)
    requires Chain(l, sources, states) && Chain(l, others, states2) && multiset(sources) == multiset(others)
    requires states[0] == states2[0] && l.time < |states[0]| == |l.pairs| && l.pairs[l.time] >= 0 && EquallyLong(l, states[0]) && Increasing(states[0][l.time])
    requires forall j :: 0 <= j < |l.pairs| ==> l.pairs[j] >= 0
    ensures states[|sources|] == states2[|others|]
  {
    hide At, AtAll;
    assert |sources| == |multiset(sources)| == |others|;
    var n := |sources|;
    var x, y := states[n], states2[n];
    assert sources[..n] == sources && others[..n] == others;
    ChainTimes(l, sources, states, n, 0.0);
    ChainTimes(l, others, states2, n, 0.0);
    forall t ensures t in x[l.time] <==> t in y[l.time] {
      ChainTimes(l, sources, states, n, t);
      ChainTimes(l, others, states2, n, t);
      assert forall s :: s in sources <==> s in multiset(others);
    }
    ChainIncreasing(l, sources, states, n);
    ChainIncreasing(l, others, states2, n);
    IncreasingUnique(x[l.time], y[l.time]);
    forall j | 0 <= j < |x| ensures x[j] == y[j] {
      if j != l.time {
        ChainAt(l, sources, states, n, j, 0.0);
        ChainAt(l, others, states2, n, j, 0.0);
        forall t ensures At(x[l.time], x[j], t) == At(x[l.time], y[j], t) {
          ChainAt(l, sources, states, n, j, t);
          ChainAt(l, others, states2, n, j, t);
          AtAllOrder(l, sources, others, j, t);
        }
        ColumnUnique(x[l.time], x[j], y[j]);
      }
    }
  }

  lemma ChainIncreasing(l: Layout, sources: seq<seq<seq<real>>>, states: seq<seq<seq<real>>>, n: nat)
    requires Chain(l, sources, states) && n <= |sources| && l.time < |states[0]| && Increasing(states[0][l.time])
    ensures l.time < |states[n]| && Increasing(states[n][l.time])
  {
    if n > 0 { assert AddsAll(l, states[n - 1], sources[n - 1], states[n]); }
  }

  /** The copy made of the first answer is what merging it into a frame without rows gives, so a
      run may be read as a chain from the empty frame. */
  lemma FirstIsCopy(l: Layout, s: seq<seq<real>>, empty: seq<seq<real>>)
    requires l.time < |l.pairs| == |s| == |empty| && (forall j :: 0 <= j < |s| ==> l.pairs[j] == j && empty[j] == [])
    requires EquallyLong(l, s) && Increasing(s[l.time])
    ensures Fits(l, empty, s) && AddsAll(l, empty, s, s)
  {
    var n := |s[l.time]|;
    assert s[l.time][..n] == s[l.time];
    forall j | 0 <= j < |s| && j != l.time ensures ColumnAdds(l, empty, s, n, s, j) { assert s[j][..n] == s[j]; }
  }

  // -------- whichever answer comes first -----------------------------------------------

  /** A frame as a value. */
  datatype Table = Table(names: seq<string>, kinds: seq<Kind>, columns: seq<seq<real>>)

  function TableOf(f: Frame): Table
    reads f
  {
    Table(f.names, f.kinds, f.columns)
  }

  function TablesOf(frames: seq<Frame>): (r: seq<Table>)
    reads frames
    ensures |r| == |frames| && forall i :: 0 <= i < |r| ==> r[i] == TableOf(frames[i])
  {
    seq(|frames|, i requires 0 <= i < |frames| reads frames => TableOf(frames[i]))
  }

  ghost predicate Distinct(names: seq<string>) {
    forall i, j :: 0 <= i < j < |names| ==> names[i] != names[j]
  }

  /** Where a name stands. */
  function IndexOf(names: seq<string>, name: string): (i: nat)
    requires name in names
    ensures i < |names| && names[i] == name
  {
    if names[0] == name then 0 else 1 + IndexOf(names[1..], name)
  }

  /** A table of distinct fields, one of them the time, in order of time. */
  ghost predicate Regular(t: Table) {
    && |t.names| == |t.kinds| == |t.columns| && Distinct(t.names) && Time in t.kinds
    && (forall k :: 0 <= k < |t.kinds| && t.kinds[k] == Time ==> k == TimeField(t.kinds))
    && (forall j :: 0 <= j < |t.columns| ==> |t.columns[j]| == |t.columns[TimeField(t.kinds)]|)
    && Increasing(t.columns[TimeField(t.kinds)])
  }

  /** The same fields, in whatever order. */
  ghost predicate Alike(a: Table, b: Table) {
    && Regular(a) && Regular(b) && (forall name :: name in a.names <==> name in b.names)
    && a.names[TimeField(a.kinds)] == b.names[TimeField(b.kinds)]
  }

  ghost predicate AllAlike(tables: seq<Table>) {
    forall i, j :: 0 <= i < |tables| && 0 <= j < |tables| ==> Alike(tables[i], tables[j])
  }

  ghost predicate Has(names: seq<string>, t: Table) {
    |t.names| == |t.columns| && forall name :: name in names ==> name in t.names
  }

  /** The columns of a table in the order of the names. */
  ghost function InOrder(names: seq<string>, t: Table): (r: seq<seq<real>>)
    requires Has(names, t)
    ensures |r| == |names| && forall j :: 0 <= j < |r| ==> r[j] == t.columns[IndexOf(t.names, names[j])]
  {
    seq(|names|, j requires 0 <= j < |names| => t.columns[IndexOf(t.names, names[j])])
  }

  ghost predicate AllHave(names: seq<string>, tables: seq<Table>) {
    forall i :: 0 <= i < |tables| ==> Has(names, tables[i])
  }

  ghost function AllInOrder(names: seq<string>, tables: seq<Table>): (r: seq<seq<seq<real>>>)
    requires AllHave(names, tables)
    ensures |r| == |tables| && forall i :: 0 <= i < |r| ==> r[i] == InOrder(names, tables[i])
  {
    seq(|tables|, i requires 0 <= i < |tables| => InOrder(names, tables[i]))
  }

  function Empty(width: nat): (r: seq<seq<real>>)
    ensures |r| == width && forall j :: 0 <= j < width ==> r[j] == []
  {
    seq(width, _ => [])
  }

  /** A run: the fields are those of the first answer, and the columns are what a chain from an
      empty frame through all answers, the first included, ends with. */
  ghost predicate RunOf(tables: seq<Table>, r: Table) {
    && tables != [] && r.names == tables[0].names && r.kinds == tables[0].kinds && Time in r.kinds
    && AllHave(r.names, tables)
    && exists states :: RunThrough(tables, r, states)
  }

  ghost predicate RunThrough(tables: seq<Table>, r: Table, states: seq<seq<seq<real>>>)
    requires Time in r.kinds && AllHave(r.names, tables)
  {
    && |states| == |tables| + 1 && states[0] == Empty(|r.names|) && states[|tables|] == r.columns
    && Chain(InPlace(TimeField(r.kinds), |r.names|), AllInOrder(r.names, tables), states)
  }

  /** Every field has the same column in both. */
  ghost predicate SameFields(a: Table, b: Table) {
    && |a.names| == |a.columns| && |b.names| == |b.columns|
    && (forall name :: name in a.names <==> name in b.names)
    && forall name :: name in a.names ==> a.columns[IndexOf(a.names, name)] == b.columns[IndexOf(b.names, name)]
  }

  lemma OnlyThere(names: seq<string>, name: string, i: nat)
    requires Distinct(names) && i < |names| && names[i] == name
    ensures Only(names, name, i) && IndexOf(names, name) == i
  {
  }

  /** With distinct names pairing is by name. */
  lemma PairByName(name: string, j: nat, names: seq<string>)
    requires Distinct(names) && name in names
    ensures Pair(name, j, names) == IndexOf(names, name)
  {
    hide Pair, Only, IndexOf;
    OnlyThere(names, name, IndexOf(names, name));
  }

  // -------- a run ----------------------------------------------------------------------

  /** The first answer is copied. */
  method Copied(first: Frame) returns (frame: Frame)
    ensures fresh(frame) && TableOf(frame) == TableOf(first)
  {
    frame := new Frame(first.names, first.kinds, first.columns);
  }

  lemma AlikeMeets(frame: Frame, source: Frame)
    requires frame != source && Alike(TableOf(frame), TableOf(source))
    ensures Meets(frame, source) && frame.LayoutFor(source).time == TimeField(frame.kinds)
    ensures Fits(frame.LayoutFor(source), frame.columns, source.columns)
    ensures Has(frame.names, TableOf(source)) && AllPaired(frame.LayoutFor(source), |source.columns|) && Arranged(frame.LayoutFor(source), source.columns) == InOrder(frame.names, TableOf(source))
  {
    hide Pair, Increasing, IndexOf, Only;
    var l, time := frame.LayoutFor(source), TimeField(frame.kinds);
    forall j | 0 <= j < |frame.names| ensures 0 <= l.pairs[j] < |source.columns| && l.pairs[j] == IndexOf(source.names, frame.names[j]) {
      assert frame.names[j] in frame.names;
      PairByName(frame.names[j], j, source.names);
    }
    OnlyThere(source.names, frame.names[time], TimeField(source.kinds));
  }

  lemma MeetAll(frame: Frame, sources: seq<Frame>)
    requires frame !in sources && Regular(TableOf(frame)) && forall k :: 0 <= k < |sources| ==> Alike(TableOf(frame), TableOf(sources[k]))
    ensures AllMeet(frame, sources)
    ensures AllFit(LayoutsOf(frame, sources), frame.columns, ColumnsOf(sources))
    ensures AllArrange(LayoutsOf(frame, sources), TimeField(frame.kinds), |frame.names|, ColumnsOf(sources))
    ensures AllHave(frame.names, TablesOf(sources))
    ensures AllArranged(LayoutsOf(frame, sources), TimeField(frame.kinds), |frame.names|, ColumnsOf(sources)) == AllInOrder(frame.names, TablesOf(sources))
  {
    hide Meets, Fits, Alike, Has, IndexOf, Pair;
    forall k | 0 <= k < |sources|
      ensures Meets(frame, sources[k]) && Fits(frame.LayoutFor(sources[k]), frame.columns, sources[k].columns) && Has(frame.names, TableOf(sources[k]))
      ensures AllPaired(frame.LayoutFor(sources[k]), |sources[k].columns|)
      ensures Arranged(frame.LayoutFor(sources[k]), sources[k].columns) == InOrder(frame.names, TableOf(sources[k]))
    {
      AlikeMeets(frame, sources[k]);
    }
    Arrange(frame, sources);
  }

  /** A table in its own order is itself, and merging it into an empty frame gives it. */
  lemma FirstInOrder(t: Table)
    requires Regular(t)
    ensures Has(t.names, t) && InOrder(t.names, t) == t.columns
    ensures var l := InPlace(TimeField(t.kinds), |t.names|);
            HasRows(l, t.columns) && Fits(l, Empty(|t.names|), t.columns) && AddsAll(l, Empty(|t.names|), t.columns, t.columns)
  {
    hide IndexOf, Increasing;
    forall j | 0 <= j < |t.names| ensures IndexOf(t.names, t.names[j]) == j { OnlyThere(t.names, t.names[j], j); }
    FirstIsCopy(InPlace(TimeField(t.kinds), |t.names|), t.columns, Empty(|t.names|));
  }

  /** A chain with one source more in front. */
  lemma ChainFront(l: Layout, first: seq<seq<real>>, empty: seq<seq<real>>, sources: seq<seq<seq<real>>>, states: seq<seq<seq<real>>>)
    requires HasRows(l, first) && Fits(l, empty, first) && AddsAll(l, empty, first, first) && Chain(l, sources, states) && states[0] == first
    ensures Chain(l, [first] + sources, [empty] + states)
  {
    hide HasRows, Fits, AddsAll;
    var all, from := [first] + sources, [empty] + states;
    forall i | 0 <= i < |all| ensures HasRows(l, all[i]) { if i > 0 { assert all[i] == sources[i - 1]; } }
    forall i | 0 <= i < |all| ensures Fits(l, from[i], all[i]) && AddsAll(l, from[i], all[i], from[i + 1]) {
      if i > 0 { assert Fits(l, states[i - 1], sources[i - 1]); }
    }
  }

  /** A run over the answers, whichever of them comes first: it is copied, the others are merged
      in, each with a layout of its own. */
  method MergeRun(answers: seq<Frame>, closest: (real, seq<real>) -> int) returns (frame: Frame)
    requires FindsClosest(closest) && answers != [] && AllAlike(TablesOf(answers))
    ensures fresh(frame) && TablesOf(answers) == old(TablesOf(answers)) && RunOf(TablesOf(answers), TableOf(frame))
  {
    hide *;
    frame := Copied(answers[0]);
    TableParts(frame);
    TableParts(answers[0]);
    ghost var tables, rest := TablesOf(answers), TablesOf(answers[1..]);
    AlikeRest(answers, frame);
    MeetAll(frame, answers[1..]);
    ghost var states := MergeAll(frame, answers[1..], closest);
    RestTables(answers);
    TableParts(frame);
    RunEnds(tables, rest, TableOf(frame), states);
  }

  lemma AlikeRest(answers: seq<Frame>, frame: Frame)
    requires answers != [] && AllAlike(TablesOf(answers)) && frame !in answers && TableOf(frame) == TableOf(answers[0])
    ensures frame !in answers[1..] && Regular(TableOf(frame)) && Time in frame.kinds && |frame.kinds| == |frame.names|
    ensures forall k :: 0 <= k < |answers[1..]| ==> Alike(TableOf(frame), TableOf(answers[1..][k]))
  {
    var t := TablesOf(answers);
    assert Alike(t[0], t[0]);
    forall k | 0 <= k < |answers[1..]| ensures Alike(TableOf(frame), TableOf(answers[1..][k])) { assert Alike(t[0], t[k + 1]); }
  }

  lemma TableParts(f: Frame)
    ensures TableOf(f) == Table(f.names, f.kinds, f.columns)
  {
  }

  lemma RestTables(answers: seq<Frame>)
    requires answers != []
    ensures TablesOf(answers)[1..] == TablesOf(answers[1..]) && TablesOf(answers)[0] == TableOf(answers[0])
  {
  }

  lemma RunEnds(tables: seq<Table>, rest: seq<Table>, r: Table, states: seq<seq<seq<real>>>)
    requires tables != [] && AllAlike(tables) && rest == tables[1..] && r.names == tables[0].names && r.kinds == tables[0].kinds
    requires Time in r.kinds && AllHave(r.names, rest) && |states| == |tables| && states[0] == tables[0].columns && states[|rest|] == r.columns
    requires Chain(InPlace(TimeField(r.kinds), |r.names|), AllInOrder(r.names, rest), states)
    ensures RunOf(tables, r)
  {
    hide AddsAll, Fits, HasRows, Regular, Has, Chain;
    var l, empty := InPlace(TimeField(r.kinds), |r.names|), Empty(|r.names|);
    assert Alike(tables[0], tables[0]);
    FirstInOrder(tables[0]);
    ChainFront(l, tables[0].columns, empty, AllInOrder(r.names, rest), states);
    forall i | 0 <= i < |tables| ensures Has(r.names, tables[i]) { if i > 0 { assert tables[i] == rest[i - 1]; } }
    assert AllInOrder(r.names, tables) == [tables[0].columns] + AllInOrder(r.names, rest);
    assert RunThrough(tables, r, [empty] + states);
  }

  // -------- any order ------------------------------------------------------------------

  /** Where the fields of the first list of names stand in the second. */
  ghost function Moved(time: nat, names: seq<string>, names2: seq<string>): (l: Layout)
    requires forall name :: name in names ==> name in names2
    ensures l.time == time && |l.pairs| == |names| && forall j :: 0 <= j < |names| ==> l.pairs[j] == IndexOf(names2, names[j])
  {
    Layout(time, seq(|names|, j requires 0 <= j < |names| => IndexOf(names2, names[j])))
  }

  /** A rearrangement that keeps the time apart. */
  ghost predicate Moves(l: Layout, time: nat, width: nat) {
    && l.time < |l.pairs| && AllPaired(l, width) && l.pairs[l.time] == time < width
    && forall j :: 0 <= j < |l.pairs| && j != l.time ==> l.pairs[j] != time
  }

  /** Rearranging the columns of both sides rearranges what a merge adds. */
  lemma AddsMoved(l: Layout, time: nat, width: nat, pre: seq<seq<real>>, src: seq<seq<real>>, post: seq<seq<real>>)
    requires Moves(l, time, width) && HasRows(InPlace(time, width), src) && Fits(InPlace(time, width), pre, src) && AddsAll(InPlace(time, width), pre, src, post)
    ensures |pre| == |post| == width <= |src|
    ensures var l2 := InPlace(l.time, |l.pairs|); var pre2, src2, post2 := Arranged(l, pre), Arranged(l, src), Arranged(l, post);
            HasRows(l2, src2) && Fits(l2, pre2, src2) && AddsAll(l2, pre2, src2, post2)
  {
    hide At, Sum, Increasing;
    var l1, l2, n := InPlace(time, width), InPlace(l.time, |l.pairs|), |src[time]|;
    assert HasRows(l1, src) && l1.pairs[width - 1] < |src|;
    var pre2, src2, post2 := Arranged(l, pre), Arranged(l, src), Arranged(l, post);
    forall j | 0 <= j < |l.pairs| ensures src2[j] == src[l1.pairs[l.pairs[j]]] && |pre[l.pairs[j]]| == |pre[time]| { }
    assert Rows(l2, src2) == Rows(l1, src);
    forall j | 0 <= j < |pre2| && j != l.time ensures ColumnAdds(l2, pre2, src2, n, post2, j) {
      assert ColumnAdds(l1, pre, src, n, post, l.pairs[j]);
    }
  }

  ghost function AllMoved(l: Layout, given: seq<seq<seq<real>>>): (r: seq<seq<seq<real>>>)
    requires forall k :: 0 <= k < |given| ==> AllPaired(l, |given[k]|)
    ensures |r| == |given| && forall k :: 0 <= k < |r| ==> r[k] == Arranged(l, given[k])
  {
    seq(|given|, k requires 0 <= k < |given| => Arranged(l, given[k]))
  }

  lemma ChainWidth(l: Layout, sources: seq<seq<seq<real>>>, states: seq<seq<seq<real>>>, n: nat)
    requires Chain(l, sources, states) && n <= |sources| && |states[0]| == |l.pairs|
    ensures |states[n]| == |l.pairs|
  {
    if n > 0 { assert AddsAll(l, states[n - 1], sources[n - 1], states[n]); }
  }

  lemma ChainMoved(l: Layout, time: nat, width: nat, sources: seq<seq<seq<real>>>, states: seq<seq<seq<real>>>)
    requires Moves(l, time, width) && Chain(InPlace(time, width), sources, states) && |states[0]| == width
    requires forall k :: 0 <= k < |sources| ==> |sources[k]| == width
    ensures forall k :: 0 <= k < |sources| ==> AllPaired(l, |sources[k]|)
    ensures forall k :: 0 <= k < |states| ==> AllPaired(l, |states[k]|)
    ensures Chain(InPlace(l.time, |l.pairs|), AllMoved(l, sources), AllMoved(l, states))
  {
    hide AddsAll, Fits, HasRows, AllPaired;
    forall k | 0 <= k < |states| ensures |states[k]| == width { ChainWidth(InPlace(time, width), sources, states, k); }
    var l2, given, from := InPlace(l.time, |l.pairs|), AllMoved(l, sources), AllMoved(l, states);
    forall i | 0 <= i < |sources| ensures HasRows(l2, given[i]) && Fits(l2, from[i], given[i]) && AddsAll(l2, from[i], given[i], from[i + 1]) {
      AddsMoved(l, time, width, states[i], sources[i], states[i + 1]);
    }
  }

  lemma MovedInOrder(names: seq<string>, names2: seq<string>, time: nat, t: Table)
    requires (forall name :: name in names <==> name in names2) && Has(names, t)
    ensures Has(names2, t) && AllPaired(Moved(time, names, names2), |names2|)
    ensures Arranged(Moved(time, names, names2), InOrder(names2, t)) == InOrder(names, t)
  {
    hide IndexOf;
    forall j | 0 <= j < |names| ensures names[j] in names2 { assert names[j] in names; }
  }

  lemma TimeMoves(a: Table, b: Table)
    requires Alike(a, b)
    ensures Moves(Moved(TimeField(a.kinds), a.names, b.names), TimeField(b.kinds), |b.names|)
  {
    hide IndexOf, Increasing;
    var l, time := Moved(TimeField(a.kinds), a.names, b.names), TimeField(b.kinds);
    forall j | 0 <= j < |a.names| ensures 0 <= l.pairs[j] < |b.names| && b.names[l.pairs[j]] == a.names[j] { assert a.names[j] in a.names; }
    OnlyThere(b.names, a.names[l.time], time);
    forall j | 0 <= j < |a.names| && j != l.time ensures l.pairs[j] != time {
      if j < l.time { assert a.names[j] != a.names[l.time]; } else { assert a.names[l.time] != a.names[j]; }
    }
  }

  lemma {:induction false} BagInOrder(names: seq<string>, tables: seq<Table>, others: seq<Table>)
    requires multiset(tables) == multiset(others) && AllHave(names, tables) && AllHave(names, others)
    ensures multiset(AllInOrder(names, tables)) == multiset(AllInOrder(names, others))
    decreases |tables|
  {
    hide Has;
    assert |tables| == |multiset(tables)| == |others|;
    if tables == [] {
      assert others == [];
    } else {
      var n := |tables| - 1;
      var i := Found(tables, others);
      var less := others[..i] + others[i + 1..];
      BagInOrder(names, tables[..n], less);
      var x, y := AllInOrder(names, tables), AllInOrder(names, others);
      assert x == AllInOrder(names, tables[..n]) + [x[n]];
      assert AllInOrder(names, less) == y[..i] + y[i + 1..];
      Without(y, i);
      assert y[i] == x[n] && y[i] in multiset(y);
    }
  }

  /** Whatever order the shards answer in, and whichever answer comes first, every field of the
      merged frame has the same column. */
  lemma AnyOrder(tables: seq<Table>, others: seq<Table>, r: Table, q: Table)
    requires multiset(tables) == multiset(others) && AllAlike(tables) && RunOf(tables, r) && RunOf(others, q)
    ensures SameFields(r, q)
  {
    hide Chain, IndexOf, Regular;
    var states :| RunThrough(tables, r, states);
    var states2 :| RunThrough(others, q, states2);
    FirstsAlike(tables, others);
    AnyOrderThrough(tables, others, r, q, states, states2);
  }

  lemma FirstsAlike(tables: seq<Table>, others: seq<Table>)
    requires multiset(tables) == multiset(others) && AllAlike(tables) && tables != []
    ensures others != [] && Alike(tables[0], others[0])
  {
    hide Alike;
    assert |others| == |multiset(tables)| == |tables|;
    assert others[0] in multiset(tables);
    var i :| 0 <= i < |tables| && tables[i] == others[0];
  }

  lemma AnyOrderThrough(tables: seq<Table>, others: seq<Table>, r: Table, q: Table, states: seq<seq<seq<real>>>, states2: seq<seq<seq<real>>>)
    requires multiset(tables) == multiset(others) && tables != [] && others != [] && Alike(tables[0], others[0])
    requires r.names == tables[0].names && r.kinds == tables[0].kinds && AllHave(r.names, tables) && RunThrough(tables, r, states)
    requires q.names == others[0].names && q.kinds == others[0].kinds && AllHave(q.names, others) && RunThrough(others, q, states2)
    ensures SameFields(r, q)
  {
    hide Chain, IndexOf, Moves, AllPaired, Increasing;
    var time, time2, width := TimeField(r.kinds), TimeField(q.kinds), |q.names|;
    var l := Moved(time, r.names, q.names);
    TimeMoves(tables[0], others[0]);
    ChainMoved(l, time2, width, AllInOrder(q.names, others), states2);
    forall i | 0 <= i < |others| ensures Has(r.names, others[i]) && Arranged(l, InOrder(q.names, others[i])) == InOrder(r.names, others[i]) {
      assert Has(q.names, others[i]);
      MovedInOrder(r.names, q.names, time, others[i]);
    }
    assert AllMoved(l, AllInOrder(q.names, others)) == AllInOrder(r.names, others);
    BagInOrder(r.names, tables, others);
    assert Arranged(l, Empty(width)) == Empty(|r.names|);
    var l2 := InPlace(time, |r.names|);
    NoneIncreasing();
    OrderFree(l2, AllInOrder(r.names, tables), states, AllInOrder(r.names, others), AllMoved(l, states2));
    assert |others| == |multiset(others)| == |tables|;
    assert r.columns == Arranged(l, q.columns);
    ChainWidth(InPlace(time2, width), AllInOrder(q.names, others), states2, |others|);
    ByName(r, q, l);
  }

  lemma NoneIncreasing()
    ensures Increasing([])
  {
  }

  lemma ByName(r: Table, q: Table, l: Layout)
    requires (forall name :: name in r.names <==> name in q.names) && |q.names| == |q.columns|
    requires l == Moved(l.time, r.names, q.names) && AllPaired(l, |q.columns|) && r.columns == Arranged(l, q.columns)
    ensures SameFields(r, q)
  {
    hide IndexOf;
  }
}
