/**
 The sandwich view of a flame graph: the subtrees below (or the callers above) several items are
 merged into one tree, in which items with the same path of labels share a node.  The work list of
 the original visits the merged tree level by level.
 */
module Sandwich {

  /** An item of the flame graph with what lies next in the merge's direction. */
  datatype Item = Item(name: string, value: int, indexes: seq<nat>, next: seq<Item>)

  // -------- items by path --------------------------------------------------------------

  function Sum(f: Item -> int, items: seq<Item>): int {
    if items == [] then 0 else Sum(f, items[..|items| - 1]) + f(items[|items| - 1])
  }

  function Value(item: Item): int { item.value }

  /** The number of items in a subtree. */
  function Size(item: Item): (r: int)
    ensures r >= 1
    decreases item, 0
  {
    1 + SizeBelow(item, |item.next|)
  }

  function SizeBelow(item: Item, n: nat): (r: int)
    requires n <= |item.next|
    ensures r >= 0
    decreases item, 0, n
  {
    if n == 0 then 0 else SizeBelow(item, n - 1) + Size(item.next[n - 1])
  }

  function Indexes(items: seq<Item>): seq<nat> {
    if items == [] then [] else Indexes(items[..|items| - 1]) + items[|items| - 1].indexes
  }

  function Nexts(items: seq<Item>): seq<Item> {
    if items == [] then [] else Nexts(items[..|items| - 1]) + items[|items| - 1].next
  }

  function Labelled(items: seq<Item>, name: string): seq<Item> {
    if items == [] then [] else
      var last := items[|items| - 1];
      Labelled(items[..|items| - 1], name) + if last.name == name then [last] else []
  }

  /** The items that are reached from the roots along a path of labels. */
  function ItemsAt(roots: seq<Item>, path: seq<string>): seq<Item> {
    if path == [] then roots
    else Labelled(Nexts(ItemsAt(roots, path[..|path| - 1])), path[|path| - 1])
  }

  // -------- what the lists of a path hold ----------------------------------------------

  /** The lengths of the first n lists together. */
  function Start<T>(lists: seq<seq<T>>, n: nat): nat
    requires n <= |lists|
  {
    if n == 0 then 0 else Start(lists, n - 1) + |lists[n - 1]|
  }

  /** Entry j of list i stands at the sum of the lengths before list i, plus j, and there are no
      further entries. */
  ghost predicate Joins<T>(lists: seq<seq<T>>, whole: seq<T>) {
    |whole| == Start(lists, |lists|) && forall i :: 0 <= i < |lists| ==> StandsAt(lists[i], whole, Start(lists, i))
  }

  ghost predicate StandsAt<T>(list: seq<T>, whole: seq<T>, at: nat) {
    at + |list| <= |whole| && forall j :: 0 <= j < |list| ==> whole[at + j] == list[j]
  }

  lemma {:induction false} StartBefore<T>(lists: seq<seq<T>>, more: seq<T>, n: nat)
    requires n <= |lists|
    ensures Start(lists + [more], n) == Start(lists, n)
  {
    if n > 0 { StartBefore(lists, more, n - 1); }
  }

  lemma JoinsMore<T>(lists: seq<seq<T>>, whole: seq<T>, more: seq<T>)
    requires Joins(lists, whole)
    ensures Joins(lists + [more], whole + more)
  {
    hide StandsAt, Start;
    var all, n := lists + [more], |lists|;
    StartLast(lists, more);
    StartBefore(lists, more, n);
    forall i | 0 <= i < |all| ensures StandsAt(all[i], whole + more, Start(all, i)) {
      StartBefore(lists, more, i);
      if i < n {
        assert all[i] == lists[i] && StandsAt(lists[i], whole, Start(lists, i));
        StandsStill(lists[i], whole, Start(lists, i), more);
      } else {
        StandsLast(whole, more);
      }
    }
  }

  lemma StartLast<T>(lists: seq<seq<T>>, more: seq<T>)
    ensures Start(lists + [more], |lists| + 1) == Start(lists + [more], |lists|) + |more|
  {
  }

  lemma StandsStill<T>(list: seq<T>, whole: seq<T>, at: nat, more: seq<T>)
    requires StandsAt(list, whole, at)
    ensures StandsAt(list, whole + more, at)
  {
  }

  lemma StandsLast<T>(whole: seq<T>, more: seq<T>)
    ensures StandsAt(more, whole + more, |whole|)
  {
  }

  ghost function IndexLists(items: seq<Item>): (r: seq<seq<nat>>)
    ensures |r| == |items| && forall i :: 0 <= i < |r| ==> r[i] == items[i].indexes
  {
    seq(|items|, i requires 0 <= i < |items| => items[i].indexes)
  }

  ghost function NextLists(items: seq<Item>): (r: seq<seq<Item>>)
    ensures |r| == |items| && forall i :: 0 <= i < |r| ==> r[i] == items[i].next
  {
    seq(|items|, i requires 0 <= i < |items| => items[i].next)
  }

  /** The indexes of all items, one list behind the other. */
  lemma {:induction false} IndexesJoin(items: seq<Item>)
    ensures Joins(IndexLists(items), Indexes(items))
  {
    hide *;
    IndexesLast(items);
    if items != [] {
      var n := |items| - 1;
      IndexesJoin(items[..n]);
      assert IndexLists(items) == IndexLists(items[..n]) + [items[n].indexes];
      JoinsMore(IndexLists(items[..n]), Indexes(items[..n]), items[n].indexes);
    }
  }

  lemma IndexesLast(items: seq<Item>)
    ensures items == [] ==> Joins(IndexLists(items), Indexes(items))
    ensures items != [] ==> var n := |items| - 1; Indexes(items) == Indexes(items[..n]) + items[n].indexes
  {
  }

  /** And so for what lies next to them. */
  lemma {:induction false} NextsJoin(items: seq<Item>)
    ensures Joins(NextLists(items), Nexts(items))
  {
    hide *;
    NextsLast(items);
    if items != [] {
      var n := |items| - 1;
      NextsJoin(items[..n]);
      assert NextLists(items) == NextLists(items[..n]) + [items[n].next];
      JoinsMore(NextLists(items[..n]), Nexts(items[..n]), items[n].next);
    }
  }

  lemma NextsLast(items: seq<Item>)
    ensures items == [] ==> Joins(NextLists(items), Nexts(items))
    ensures items != [] ==> var n := |items| - 1; Nexts(items) == Nexts(items[..n]) + items[n].next
  {
  }

  /** The items at these places, which rise, are those with the label. */
  ghost predicate Selects(items: seq<Item>, name: string, picked: seq<Item>, places: seq<nat>) {
    && |places| == |picked| && (forall k :: 0 <= k < |places| ==> places[k] < |items| && picked[k] == items[places[k]])
    && (forall j, k :: 0 <= j < k < |places| ==> places[j] < places[k])
    && forall i: nat :: i in places <==> i < |items| && items[i].name == name
  }

  lemma {:induction false} LabelledSelects(items: seq<Item>, name: string) returns (places: seq<nat>)
    ensures Selects(items, name, Labelled(items, name), places)
  {
    if items == [] {
      places := [];
    } else {
      var n := |items| - 1;
      var before := LabelledSelects(items[..n], name);
      places := before + if items[n].name == name then [n] else [];
      forall i: nat ensures i in places <==> i < |items| && items[i].name == name {
        assert i in before <==> i < n && items[..n][i].name == name;
      }
    }
  }

  /** Item x is reached from the roots along the labels. */
  ghost predicate Reached(roots: seq<Item>, path: seq<string>, x: Item) {
    if path == [] then x in roots
    else x.name == path[|path| - 1] && exists y: Item :: Reached(roots, path[..|path| - 1], y) && x in y.next
  }

  /** The items of a path are those reached along it. */
  lemma {:induction false} ReachedAt(roots: seq<Item>, path: seq<string>, x: Item)
    ensures x in ItemsAt(roots, path) <==> Reached(roots, path, x)
  {
    if path != [] {
      var front, name := path[..|path| - 1], path[|path| - 1];
      var before := ItemsAt(roots, front);
      forall y: Item ensures y in before <==> Reached(roots, front, y) { ReachedAt(roots, front, y); }
      InLabelled(Nexts(before), name, x);
      InNexts(before, x);
    }
  }

  lemma {:induction false} InLabelled(items: seq<Item>, name: string, x: Item)
    ensures x in Labelled(items, name) <==> x in items && x.name == name
  {
    if items != [] {
      var n := |items| - 1;
      InLabelled(items[..n], name, x);
      assert items == items[..n] + [items[n]];
    }
  }

  lemma {:induction false} InNexts(items: seq<Item>, x: Item)
    ensures x in Nexts(items) <==> exists y: Item :: y in items && x in y.next
  {
    if items != [] {
      var n := |items| - 1;
      InNexts(items[..n], x);
      assert items == items[..n] + [items[n]];
    }
  }

  predicate HasLabel(items: seq<Item>, name: string) {
    exists i :: 0 <= i < |items| && items[i].name == name
  }

  lemma {:induction false} LabelledEmpty(items: seq<Item>, name: string)
    ensures Labelled(items, name) == [] <==> !HasLabel(items, name)
  {
    if items != [] {
      var n := |items| - 1;
      LabelledEmpty(items[..n], name);
      if HasLabel(items, name) {
        var i :| 0 <= i < |items| && items[i].name == name;
        if i < n { assert items[..n][i].name == name; }
      }
      if HasLabel(items[..n], name) {
        var i :| 0 <= i < n && items[..n][i].name == name;
        assert items[i].name == name;
      }
    }
  }

  lemma {:induction false} SumJoin(f: Item -> int, a: seq<Item>, b: seq<Item>)
    ensures Sum(f, a + b) == Sum(f, a) + Sum(f, b)
  {
    if b == [] {
      assert a + b == a;
    } else {
      var n := |b| - 1;
      SumJoin(f, a, b[..n]);
      assert (a + b)[..|a| + n] == a + b[..n];
    }
  }

  // -------- groups ---------------------------------------------------------------------

  ghost predicate NoRepeats<U>(s: seq<U>) {
    forall i, j :: 0 <= i < j < |s| ==> s[i] != s[j]
  }

  /** The order in which grouping lists its groups: some order of the labels that occur. */
  ghost predicate Arranges(arrange: seq<Item> -> seq<string>) {
    forall items :: Arranged(items, arrange(items))
  }

  ghost predicate Arranged(items: seq<Item>, labels: seq<string>) {
    NoRepeats(labels) && forall l :: l in labels <==> HasLabel(items, l)
  }

  function GroupSum(f: Item -> int, labels: seq<string>, items: seq<Item>): int {
    if labels == [] then 0 else GroupSum(f, labels[..|labels| - 1], items) + Sum(f, Labelled(items, labels[|labels| - 1]))
  }

  lemma LabelledLast(f: Item -> int, items: seq<Item>, name: string)
    requires items != []
    ensures var last := items[|items| - 1];
            Sum(f, Labelled(items, name)) == Sum(f, Labelled(items[..|items| - 1], name)) + if last.name == name then f(last) else 0
  {
    var last := items[|items| - 1];
    if last.name != name {
      assert Labelled(items[..|items| - 1], name) + [] == Labelled(items[..|items| - 1], name);
    } else {
      SumJoin(f, Labelled(items[..|items| - 1], name), [last]);
      assert Sum(f, [last]) == f(last) by { assert Sum(f, []) == 0; }
    }
  }

  lemma GroupSumStep(f: Item -> int, labels: seq<string>, items: seq<Item>)
    requires labels != []
    ensures var n := |labels| - 1; GroupSum(f, labels, items) == GroupSum(f, labels[..n], items) + Sum(f, Labelled(items, labels[n]))
  {
  }

  lemma LastLabel(labels: seq<string>, name: string)
    requires labels != [] && NoRepeats(labels)
    ensures var n := |labels| - 1; NoRepeats(labels[..n]) && (name in labels <==> name in labels[..n] || name == labels[n]) && labels[n] !in labels[..n]
  {
    assert labels == labels[..|labels| - 1] + [labels[|labels| - 1]];
  }

  lemma {:induction false} GroupSumLast(f: Item -> int, labels: seq<string>, items: seq<Item>)
    requires NoRepeats(labels) && items != []
    ensures var last := items[|items| - 1];
            GroupSum(f, labels, items) == GroupSum(f, labels, items[..|items| - 1]) + if last.name in labels then f(last) else 0
  {
    if labels == [] { return; }
    hide *;
    var last := items[|items| - 1];
    LastLabel(labels, last.name);
    GroupSumLast(f, labels[..|labels| - 1], items);
    GroupSumStep(f, labels, items);
    GroupSumStep(f, labels, items[..|items| - 1]);
    LabelledLast(f, items, labels[|labels| - 1]);
  }

  lemma {:induction false} GroupSumNone(f: Item -> int, labels: seq<string>)
    ensures GroupSum(f, labels, []) == 0
  {
    if labels != [] { GroupSumNone(f, labels[..|labels| - 1]); }
  }

  lemma {:induction false} GroupSumCovered(f: Item -> int, labels: seq<string>, items: seq<Item>)
    requires NoRepeats(labels) && forall i :: 0 <= i < |items| ==> items[i].name in labels
    ensures GroupSum(f, labels, items) == Sum(f, items)
    decreases |items|
  {
    if items == [] {
      GroupSumNone(f, labels);
    } else {
      GroupSumCovered(f, labels, items[..|items| - 1]);
      GroupSumLast(f, labels, items);
    }
  }

  /** Grouping loses nothing and counts nothing twice. */
  lemma GroupsKeepSum(f: Item -> int, labels: seq<string>, items: seq<Item>)
    requires Arranged(items, labels)
    ensures GroupSum(f, labels, items) == Sum(f, items)
  {
    forall i | 0 <= i < |items| ensures items[i].name in labels { assert HasLabel(items, items[i].name); }
    GroupSumCovered(f, labels, items);
  }

  lemma {:induction false} NextsSmaller(items: seq<Item>)
    ensures Sum(Size, Nexts(items)) == Sum(Size, items) - |items|
  {
    if items != [] {
      var n := |items| - 1;
      NextsSmaller(items[..n]);
      SumJoin(Size, Nexts(items[..n]), items[n].next);
      BelowSum(items[n], |items[n].next|);
      assert items[n].next[..|items[n].next|] == items[n].next;
    }
  }

  lemma BelowStep(item: Item, n: nat)
    requires n <= |item.next|
    ensures n == 0 ==> SizeBelow(item, n) == 0 == Sum(Size, item.next[..n])
    ensures n > 0 ==> SizeBelow(item, n) == SizeBelow(item, n - 1) + Size(item.next[n - 1])
  {
  }

  lemma SumLast(f: Item -> int, items: seq<Item>, n: nat)
    requires 0 < n <= |items|
    ensures Sum(f, items[..n]) == Sum(f, items[..n - 1]) + f(items[n - 1])
  {
    assert items[..n][..n - 1] == items[..n - 1];
  }

  lemma {:induction false} BelowSum(item: Item, n: nat)
    requires n <= |item.next|
    ensures SizeBelow(item, n) == Sum(Size, item.next[..n])
  {
    hide *;
    BelowStep(item, n);
    if n > 0 {
      BelowSum(item, n - 1);
      SumLast(Size, item.next, n);
    }
  }

  // -------- the merge ------------------------------------------------------------------

  /** A merged node; nodes are known by their place in the list of all of them. */
  datatype Node = Node(value: int, indexes: seq<nat>, start: int, level: nat, back: int, forward: seq<nat>)

  /** Items to be merged into one node. */
  datatype Task = Task(previous: int, items: seq<Item>, level: nat)

  function ForwardSum(nodes: seq<Node>, forward: seq<nat>): int
    requires forall i :: 0 <= i < |forward| ==> forward[i] < |nodes|
  {
    if forward == [] then 0 else ForwardSum(nodes, forward[..|forward| - 1]) + nodes[forward[|forward| - 1]].value
  }

  /** The values still to come below node k. */
  function Pending(tasks: seq<Task>, k: nat): int {
    if tasks == [] then 0 else
      (if tasks[0].previous == k then Sum(Value, tasks[0].items) else 0) + Pending(tasks[1..], k)
  }

  function Work(tasks: seq<Task>): int {
    if tasks == [] then 0 else Sum(Size, tasks[0].items) + Work(tasks[1..])
  }

  function NewTasks(id: nat, labels: seq<string>, items: seq<Item>, level: nat): seq<Task> {
    seq(|labels|, i requires 0 <= i < |labels| => Task(id, Labelled(items, labels[i]), level))
  }

  function NewPaths(path: seq<string>, labels: seq<string>): seq<seq<string>> {
    seq(|labels|, i requires 0 <= i < |labels| => path + [labels[i]])
  }

  lemma {:induction false} PendingJoin(a: seq<Task>, b: seq<Task>, k: nat)
    ensures Pending(a + b, k) == Pending(a, k) + Pending(b, k)
    decreases |a|
  {
    if a == [] {
      assert a + b == b;
    } else {
      PendingJoin(a[1..], b, k);
      assert (a + b)[1..] == a[1..] + b;
    }
  }

  lemma {:induction false} WorkJoin(a: seq<Task>, b: seq<Task>)
    ensures Work(a + b) == Work(a) + Work(b)
    decreases |a|
  {
    if a == [] {
      assert a + b == b;
    } else {
      WorkJoin(a[1..], b);
      assert (a + b)[1..] == a[1..] + b;
    }
  }

  lemma {:induction false} NewTasksSums(id: nat, labels: seq<string>, items: seq<Item>, level: nat, k: nat)
    ensures Pending(NewTasks(id, labels, items, level), k) == if k == id then GroupSum(Value, labels, items) else 0
    ensures Work(NewTasks(id, labels, items, level)) == GroupSum(Size, labels, items)
    decreases |labels|
  {
    hide Pending, Work;
    var all := NewTasks(id, labels, items, level);
    if labels != [] {
      var n := |labels| - 1;
      var last := Task(id, Labelled(items, labels[n]), level);
      NewTasksSums(id, labels[..n], items, level, k);
      hide Labelled, Sum;
      assert all == NewTasks(id, labels[..n], items, level) + [last];
      PendingJoin(NewTasks(id, labels[..n], items, level), [last], k);
      WorkJoin(NewTasks(id, labels[..n], items, level), [last]);
      OneTask(last, k);
    } else {
      assert all == [];
      NoTasks(k);
    }
  }

  lemma OneTask(task: Task, k: nat)
    ensures Pending([task], k) == (if task.previous == k then Sum(Value, task.items) else 0) && Work([task]) == Sum(Size, task.items)
  {
    NoTasks(k);
  }

  lemma NoTasks(k: nat)
    ensures Pending([], k) == 0 == Work([])
  {
  }

  // -------- what every step keeps ------------------------------------------------------

  type Path = seq<string>

  function Front(path: Path): Path
    requires path != []
  {
    path[..|path| - 1]
  }

  /** A node merges exactly the items of its path, and hangs below the node of the path before. */
  ghost predicate NodeOk(roots: seq<Item>, nodes: seq<Node>, paths: seq<Path>, k: nat)
    requires k < |nodes| == |paths|
  {
    var items := ItemsAt(roots, paths[k]);
    && nodes[k].value == Sum(Value, items) && nodes[k].indexes == Indexes(items) && nodes[k].level == |paths[k]|
    && (paths[k] == [] || items != [])
    && if paths[k] == [] then nodes[k].back == -1 && nodes[k].start == 0
       else 0 <= nodes[k].back < k && paths[nodes[k].back] == Front(paths[k]) && k in nodes[nodes[k].back].forward
  }

  /** The nodes in front of k, each listed once, follow each other without a gap from where k
      starts. */
  ghost predicate Linked(nodes: seq<Node>, k: nat)
    requires k < |nodes|
  {
    && (forall i :: 0 <= i < |nodes[k].forward| ==> k < nodes[k].forward[i] < |nodes|)
    && (forall i, j :: 0 <= i < j < |nodes[k].forward| ==> nodes[k].forward[i] < nodes[k].forward[j])
    && forall i :: 0 <= i < |nodes[k].forward| ==> Placed(nodes, k, i)
  }

  ghost predicate Placed(nodes: seq<Node>, k: nat, i: nat)
    requires k < |nodes| && i < |nodes[k].forward| && forall j :: 0 <= j < |nodes[k].forward| ==> nodes[k].forward[j] < |nodes|
  {
    var child := nodes[nodes[k].forward[i]];
    child.back == k && child.start == nodes[k].start + ForwardSum(nodes, nodes[k].forward[..i])
  }

  /** What is merged below k and what is still to come add up to all that lies below its items. */
  ghost predicate Balanced(roots: seq<Item>, nodes: seq<Node>, paths: seq<Path>, tasks: seq<Task>, k: nat)
    requires k < |nodes| == |paths| && Linked(nodes, k)
  {
    ForwardSum(nodes, nodes[k].forward) + Pending(tasks, k) == Sum(Value, Nexts(ItemsAt(roots, paths[k])))
  }

  ghost predicate TaskOk(roots: seq<Item>, paths: seq<Path>, task: Task, path: Path) {
    && task.items == ItemsAt(roots, path) && task.level == |path| && (path == [] || task.items != [])
    && if path == [] then task.previous == -1 else 0 <= task.previous < |paths| && paths[task.previous] == Front(path)
  }

  ghost predicate Closed(roots: seq<Item>, paths: seq<Path>, known: seq<Path>, k: nat)
    requires k < |paths|
  {
    forall l :: HasLabel(Nexts(ItemsAt(roots, paths[k])), l) ==> paths[k] + [l] in known
  }

  ghost predicate Progress(roots: seq<Item>, nodes: seq<Node>, paths: seq<Path>, tasks: seq<Task>, taskPaths: seq<Path>) {
    && |nodes| == |paths| && |tasks| == |taskPaths|
    && (forall k :: 0 <= k < |nodes| ==> NodeOk(roots, nodes, paths, k))
    && (forall k :: 0 <= k < |nodes| ==> Linked(nodes, k))
    && (forall k :: 0 <= k < |nodes| ==> Balanced(roots, nodes, paths, tasks, k))
    && (forall q :: 0 <= q < |tasks| ==> TaskOk(roots, paths, tasks[q], taskPaths[q]))
    && (forall k :: 0 <= k < |paths| ==> Closed(roots, paths, paths + taskPaths, k))
    && NoRepeats(paths + taskPaths) && [] in paths + taskPaths
  }

  /** The list of nodes after a task has become the next one. */
  function Visited(nodes: seq<Node>, task: Task): seq<Node>
    requires task.previous < |nodes|
    requires forall k :: 0 <= k < |nodes| ==> Linked(nodes, k)
  {
    var id := |nodes|;
    var start := if task.previous < 0 then 0 else
      assert Linked(nodes, task.previous);
      var before := nodes[task.previous];
      before.start + ForwardSum(nodes, before.forward);
    var node := Node(Sum(Value, task.items), Indexes(task.items), start, task.level, task.previous, []);
    if task.previous < 0 then nodes + [node]
    else nodes[task.previous := nodes[task.previous].(forward := nodes[task.previous].forward + [id])] + [node]
  }

  lemma {:induction false} ForwardSumSame(nodes: seq<Node>, nodes2: seq<Node>, forward: seq<nat>)
    requires |nodes| <= |nodes2| && forall i :: 0 <= i < |forward| ==> forward[i] < |nodes|
    requires forall i :: 0 <= i < |nodes| ==> nodes2[i].value == nodes[i].value
    ensures ForwardSum(nodes2, forward) == ForwardSum(nodes, forward)
  {
    if forward != [] { ForwardSumSame(nodes, nodes2, forward[..|forward| - 1]); }
  }

  lemma VisitedSame(nodes: seq<Node>, task: Task)
    requires task.previous < |nodes| && forall k :: 0 <= k < |nodes| ==> Linked(nodes, k)
    ensures var nodes2 := Visited(nodes, task);
            |nodes2| == |nodes| + 1 && forall k :: 0 <= k < |nodes| ==> SameBut(nodes, nodes2, k, task.previous)
  {
  }

  /** Node k is as before, except that the previous node has one more in front of it. */
  ghost predicate SameBut(nodes: seq<Node>, nodes2: seq<Node>, k: nat, previous: int)
    requires k < |nodes| < |nodes2|
  {
    nodes2[k] == if k == previous then nodes[k].(forward := nodes[k].forward + [|nodes|]) else nodes[k]
  }

  lemma VisitedLinked(nodes: seq<Node>, task: Task, k: nat)
    requires task.previous < |nodes| && (forall k :: 0 <= k < |nodes| ==> Linked(nodes, k)) && k <= |nodes|
    ensures Linked(Visited(nodes, task), k)
  {
    var nodes2 := Visited(nodes, task);
    VisitedSame(nodes, task);
    forall i | 0 <= i < |nodes| ensures nodes2[i].value == nodes[i].value { assert SameBut(nodes, nodes2, i, task.previous); }
    if k < |nodes| {
      assert SameBut(nodes, nodes2, k, task.previous) && Linked(nodes, k);
      forall i | 0 <= i < |nodes2[k].forward| ensures Placed(nodes2, k, i) {
        if i < |nodes[k].forward| { StillPlaced(nodes, nodes2, task.previous, k, i); } else { NewPlaced(nodes, task); }
      }
    }
  }

  lemma StillPlaced(nodes: seq<Node>, nodes2: seq<Node>, previous: int, k: nat, i: nat)
    requires k < |nodes| < |nodes2| && i < |nodes[k].forward| && Linked(nodes, k) && SameBut(nodes, nodes2, k, previous)
    requires forall j :: 0 <= j < |nodes| ==> SameBut(nodes, nodes2, j, previous)
    requires forall j :: 0 <= j < |nodes| ==> nodes2[j].value == nodes[j].value
    ensures (forall j :: 0 <= j < |nodes2[k].forward| ==> nodes2[k].forward[j] < |nodes2|) && Placed(nodes2, k, i)
  {
    hide ForwardSum;
    var before := nodes[k].forward;
    assert Placed(nodes, k, i) && nodes2[k].forward[..i] == before[..i];
    assert SameBut(nodes, nodes2, before[i], previous);
    ForwardSumSame(nodes, nodes2, before[..i]);
  }

  lemma NewPlaced(nodes: seq<Node>, task: Task)
    requires 0 <= task.previous < |nodes| && forall k :: 0 <= k < |nodes| ==> Linked(nodes, k)
    requires forall i :: 0 <= i < |nodes| ==> Visited(nodes, task)[i].value == nodes[i].value
    ensures var nodes2 := Visited(nodes, task);
            (forall j :: 0 <= j < |nodes2[task.previous].forward| ==> nodes2[task.previous].forward[j] < |nodes2|)
            && Placed(nodes2, task.previous, |nodes[task.previous].forward|)
  {
    hide ForwardSum;
    var nodes2, before := Visited(nodes, task), nodes[task.previous].forward;
    assert SameBut(nodes, nodes2, task.previous, task.previous) && Linked(nodes, task.previous);
    assert nodes2[task.previous].forward[..|before|] == before;
    ForwardSumSame(nodes, nodes2, before);
  }

  lemma VisitedSum(nodes: seq<Node>, task: Task, k: nat)
    requires task.previous < |nodes| && (forall k :: 0 <= k < |nodes| ==> Linked(nodes, k)) && k <= |nodes|
    requires Linked(Visited(nodes, task), k) && (k < |nodes| ==> Linked(nodes, k))
    ensures var nodes2 := Visited(nodes, task);
            ForwardSum(nodes2, nodes2[k].forward) == if k == |nodes| then 0
              else ForwardSum(nodes, nodes[k].forward) + if k == task.previous then Sum(Value, task.items) else 0
  {
    var nodes2 := Visited(nodes, task);
    VisitedSame(nodes, task);
    forall i | 0 <= i < |nodes| ensures nodes2[i].value == nodes[i].value { assert SameBut(nodes, nodes2, i, task.previous); }
    if k < |nodes| {
      assert SameBut(nodes, nodes2, k, task.previous);
      ForwardSumSame(nodes, nodes2, nodes[k].forward);
      if k == task.previous { assert nodes2[k].forward[..|nodes[k].forward|] == nodes[k].forward; }
    }
  }

  // -------- one step -------------------------------------------------------------------

  /** The state after the first task has been worked off. */
  ghost predicate Stepped(roots: seq<Item>, nodes: seq<Node>, paths: seq<Path>, tasks: seq<Task>, taskPaths: seq<Path>, labels: seq<string>,
                          nodes2: seq<Node>, paths2: seq<Path>, tasks2: seq<Task>, taskPaths2: seq<Path>) {
    && Progress(roots, nodes, paths, tasks, taskPaths) && tasks != []
    && Arranged(Nexts(tasks[0].items), labels)
    && (tasks[0].previous < |nodes| && nodes2 == Visited(nodes, tasks[0])) && paths2 == paths + [taskPaths[0]]
    && tasks2 == tasks[1..] + NewTasks(|nodes|, labels, Nexts(tasks[0].items), tasks[0].level + 1)
    && taskPaths2 == taskPaths[1..] + NewPaths(taskPaths[0], labels)
  }

  lemma StepNode(roots: seq<Item>, nodes: seq<Node>, paths: seq<Path>, tasks: seq<Task>, taskPaths: seq<Path>, labels: seq<string>,
                 nodes2: seq<Node>, paths2: seq<Path>, tasks2: seq<Task>, taskPaths2: seq<Path>, k: nat)
    requires Stepped(roots, nodes, paths, tasks, taskPaths, labels, nodes2, paths2, tasks2, taskPaths2) && k <= |nodes|
    ensures |nodes2| == |paths2| == |nodes| + 1 && NodeOk(roots, nodes2, paths2, k)
  {
    hide ItemsAt, Sum, Indexes, ForwardSum;
    var e := tasks[0];
    VisitedSame(nodes, e);
    assert TaskOk(roots, paths, e, taskPaths[0]);
    if k < |nodes| {
      assert NodeOk(roots, nodes, paths, k) && SameBut(nodes, nodes2, k, e.previous);
      if paths[k] != [] { assert SameBut(nodes, nodes2, nodes[k].back, e.previous); }
    } else if taskPaths[0] != [] {
      assert SameBut(nodes, nodes2, e.previous, e.previous);
    }
  }

  lemma {:induction false} PendingNone(tasks: seq<Task>, k: nat)
    requires forall q :: 0 <= q < |tasks| ==> tasks[q].previous != k
    ensures Pending(tasks, k) == 0
    decreases |tasks|
  {
    if tasks != [] { PendingNone(tasks[1..], k); }
  }

  lemma StepBalanced(roots: seq<Item>, nodes: seq<Node>, paths: seq<Path>, tasks: seq<Task>, taskPaths: seq<Path>, labels: seq<string>,
                     nodes2: seq<Node>, paths2: seq<Path>, tasks2: seq<Task>, taskPaths2: seq<Path>, k: nat)
    requires Stepped(roots, nodes, paths, tasks, taskPaths, labels, nodes2, paths2, tasks2, taskPaths2) && k <= |nodes|
    ensures |nodes2| == |paths2| == |nodes| + 1 && Linked(nodes2, k) && Balanced(roots, nodes2, paths2, tasks2, k)
  {
    hide ItemsAt, Sum, Indexes, ForwardSum, Pending, GroupSum, Nexts, NewTasks;
    var e := tasks[0];
    var c := Nexts(e.items);
    VisitedSame(nodes, e);
    VisitedLinked(nodes, e, k);
    if k < |nodes| { assert Linked(nodes, k) && Balanced(roots, nodes, paths, tasks, k); }
    VisitedSum(nodes, e, k);
    PendingJoin(tasks[1..], NewTasks(|nodes|, labels, c, e.level + 1), k);
    NewTasksSums(|nodes|, labels, c, e.level + 1, k);
    GroupsKeepSum(Value, labels, c);
    PendingHead(tasks, k);
    assert TaskOk(roots, paths, e, taskPaths[0]);
    if k == |nodes| {
      forall q | 0 <= q < |tasks[1..]| ensures tasks[1..][q].previous != k { assert TaskOk(roots, paths, tasks[q + 1], taskPaths[q + 1]); }
      PendingNone(tasks[1..], k);
    }
  }

  lemma PendingHead(tasks: seq<Task>, k: nat)
    requires tasks != []
    ensures Pending(tasks, k) == (if tasks[0].previous == k then Sum(Value, tasks[0].items) else 0) + Pending(tasks[1..], k)
  {
  }

  lemma StepTask(roots: seq<Item>, nodes: seq<Node>, paths: seq<Path>, tasks: seq<Task>, taskPaths: seq<Path>, labels: seq<string>,
                 nodes2: seq<Node>, paths2: seq<Path>, tasks2: seq<Task>, taskPaths2: seq<Path>, q: nat)
    requires Stepped(roots, nodes, paths, tasks, taskPaths, labels, nodes2, paths2, tasks2, taskPaths2) && q < |tasks2|
    ensures |tasks2| == |taskPaths2| && TaskOk(roots, paths2, tasks2[q], taskPaths2[q])
  {
    hide Sum, Indexes, ForwardSum, Pending, Visited;
    var p, n := taskPaths[0], |tasks| - 1;
    assert TaskOk(roots, paths, tasks[0], p);
    if q < n {
      assert TaskOk(roots, paths, tasks[q + 1], taskPaths[q + 1]);
    } else {
      var l := labels[q - n];
      assert (p + [l])[..|p|] == p;
      assert l in labels;
      LabelledEmpty(Nexts(tasks[0].items), l);
    }
  }

  /** Whoever is known has the path before it among the nodes. */
  lemma FrontVisited(roots: seq<Item>, nodes: seq<Node>, paths: seq<Path>, tasks: seq<Task>, taskPaths: seq<Path>, x: Path) returns (j: nat)
    requires Progress(roots, nodes, paths, tasks, taskPaths) && x in paths + taskPaths && x != []
    ensures j < |paths| && paths[j] == Front(x)
  {
    hide ItemsAt, Sum, Indexes, ForwardSum, Pending, Linked, Balanced, Closed;
    var known := paths + taskPaths;
    var i :| 0 <= i < |known| && known[i] == x;
    if i < |paths| {
      assert NodeOk(roots, nodes, paths, i);
      j := nodes[i].back;
    } else {
      assert TaskOk(roots, paths, tasks[i - |paths|], taskPaths[i - |paths|]);
      j := tasks[i - |paths|].previous;
    }
  }

  lemma NewPathNew(roots: seq<Item>, nodes: seq<Node>, paths: seq<Path>, tasks: seq<Task>, taskPaths: seq<Path>, l: string)
    requires Progress(roots, nodes, paths, tasks, taskPaths) && tasks != []
    ensures taskPaths[0] + [l] !in paths + taskPaths
  {
    var known, p := paths + taskPaths, taskPaths[0];
    var x := p + [l];
    assert Front(x) == p && known[|paths|] == p && forall j :: 0 <= j < |paths| ==> known[j] == paths[j];
    if x in known { var j := FrontVisited(roots, nodes, paths, tasks, taskPaths, x); }
  }

  lemma StepDistinct(roots: seq<Item>, nodes: seq<Node>, paths: seq<Path>, tasks: seq<Task>, taskPaths: seq<Path>, labels: seq<string>)
    requires Progress(roots, nodes, paths, tasks, taskPaths) && tasks != [] && NoRepeats(labels)
    ensures NoRepeats((paths + taskPaths) + NewPaths(taskPaths[0], labels))
  {
    var known, p := paths + taskPaths, taskPaths[0];
    assert NoRepeats(known);
    var new_ := NewPaths(p, labels);
    forall i, j | 0 <= i < j < |known + new_| ensures (known + new_)[i] != (known + new_)[j] {
      if j >= |known| {
        var b := j - |known|;
        assert (p + [labels[b]])[|p|] == labels[b];
        if i < |known| {
          NewPathNew(roots, nodes, paths, tasks, taskPaths, labels[b]);
        } else {
          assert (p + [labels[i - |known|]])[|p|] == labels[i - |known|];
        }
      }
    }
  }

  lemma StepClosed(roots: seq<Item>, nodes: seq<Node>, paths: seq<Path>, tasks: seq<Task>, taskPaths: seq<Path>, labels: seq<string>,
                   nodes2: seq<Node>, paths2: seq<Path>, tasks2: seq<Task>, taskPaths2: seq<Path>, k: nat)
    requires Stepped(roots, nodes, paths, tasks, taskPaths, labels, nodes2, paths2, tasks2, taskPaths2) && k <= |nodes|
    ensures k < |paths2| && Closed(roots, paths2, paths2 + taskPaths2, k)
  {
    hide Sum, Indexes, ForwardSum, Pending, Visited, HasLabel, ItemsAt, Nexts;
    var p := taskPaths[0];
    assert TaskOk(roots, paths, tasks[0], p);
    var new_ := NewPaths(p, labels);
    assert paths2 + taskPaths2 == (paths + taskPaths) + new_;
    forall l | HasLabel(Nexts(ItemsAt(roots, paths2[k])), l) ensures paths2[k] + [l] in paths2 + taskPaths2 {
      if k < |paths| {
        assert Closed(roots, paths, paths + taskPaths, k);
      } else {
        var i :| 0 <= i < |labels| && labels[i] == l;
        assert new_[i] == p + [l];
      }
    }
  }

  lemma StepKeeps(roots: seq<Item>, nodes: seq<Node>, paths: seq<Path>, tasks: seq<Task>, taskPaths: seq<Path>, labels: seq<string>,
                  nodes2: seq<Node>, paths2: seq<Path>, tasks2: seq<Task>, taskPaths2: seq<Path>)
    requires Stepped(roots, nodes, paths, tasks, taskPaths, labels, nodes2, paths2, tasks2, taskPaths2)
    ensures Progress(roots, nodes2, paths2, tasks2, taskPaths2)
  {
    hide NodeOk, Linked, Balanced, TaskOk, Closed, ItemsAt, Nexts, Visited;
    StepNode(roots, nodes, paths, tasks, taskPaths, labels, nodes2, paths2, tasks2, taskPaths2, |nodes|);
    forall k | 0 <= k < |nodes2| ensures NodeOk(roots, nodes2, paths2, k) {
      StepNode(roots, nodes, paths, tasks, taskPaths, labels, nodes2, paths2, tasks2, taskPaths2, k);
    }
    forall k | 0 <= k < |nodes2| ensures Linked(nodes2, k) && Balanced(roots, nodes2, paths2, tasks2, k) {
      StepBalanced(roots, nodes, paths, tasks, taskPaths, labels, nodes2, paths2, tasks2, taskPaths2, k);
    }
    forall q | 0 <= q < |tasks2| ensures TaskOk(roots, paths2, tasks2[q], taskPaths2[q]) {
      StepTask(roots, nodes, paths, tasks, taskPaths, labels, nodes2, paths2, tasks2, taskPaths2, q);
    }
    forall k | 0 <= k < |paths2| ensures Closed(roots, paths2, paths2 + taskPaths2, k) {
      StepClosed(roots, nodes, paths, tasks, taskPaths, labels, nodes2, paths2, tasks2, taskPaths2, k);
    }
    StepDistinct(roots, nodes, paths, tasks, taskPaths, labels);
    assert paths2 + taskPaths2 == (paths + taskPaths) + NewPaths(taskPaths[0], labels);
  }

  lemma NoLabels(labels: seq<string>)
    requires Arranged([], labels)
    ensures labels == []
  {
    var first := if labels == [] then "" else labels[0];
    assert labels != [] ==> first in labels;
  }

  lemma StepWork(tasks: seq<Task>, labels: seq<string>, id: nat)
    requires tasks != [] && Arranged(Nexts(tasks[0].items), labels)
    ensures var c := Nexts(tasks[0].items); var tasks2 := tasks[1..] + NewTasks(id, labels, c, tasks[0].level + 1);
            Work(tasks2) == Work(tasks) - |tasks[0].items| && (tasks[0].items == [] ==> |tasks2| < |tasks|)
  {
    hide *;
    var e := tasks[0];
    var c := Nexts(e.items);
    WorkJoin(tasks[1..], NewTasks(id, labels, c, e.level + 1));
    NewTasksSums(id, labels, c, e.level + 1, id);
    GroupsKeepSum(Size, labels, c);
    NextsSmaller(e.items);
    WorkFirst(tasks);
    TaskCount(id, labels, c, e.level + 1);
    if e.items == [] { NothingNext(labels); }
  }

  lemma WorkFirst(tasks: seq<Task>)
    requires tasks != []
    ensures Work(tasks) == Sum(Size, tasks[0].items) + Work(tasks[1..])
  {
    hide Sum, Size;
  }

  lemma TaskCount(id: nat, labels: seq<string>, items: seq<Item>, level: nat)
    ensures |NewTasks(id, labels, items, level)| == |labels|
  {
  }

  lemma NothingNext(labels: seq<string>)
    requires Arranged(Nexts([]), labels)
    ensures labels == []
  {
    NoLabels(labels);
  }

  lemma {:induction false} WorkPositive(tasks: seq<Task>)
    ensures Work(tasks) >= 0
    decreases |tasks|
  {
    if tasks != [] {
      WorkPositive(tasks[1..]);
      SizesPositive(tasks[0].items);
    }
  }

  lemma {:induction false} SizesPositive(items: seq<Item>)
    ensures Sum(Size, items) >= 0
  {
    if items != [] { SizesPositive(items[..|items| - 1]); }
  }

  // -------- the whole merge ------------------------------------------------------------

  /** The nodes of one level, in the order they were made. */
  function OnLevel(paths: seq<Path>, level: nat): seq<nat> {
    if paths == [] then [] else
      var n := |paths| - 1;
      OnLevel(paths[..n], level) + if |paths[n]| == level then [n] else []
  }

  ghost predicate LevelsOk(levels: seq<seq<nat>>, paths: seq<Path>) {
    && (forall d :: 0 <= d < |levels| ==> levels[d] == OnLevel(paths, d) && levels[d] != [])
    && forall k :: 0 <= k < |paths| ==> |paths[k]| < |levels|
  }

  lemma {:induction false} NothingDeeper(paths: seq<Path>, level: nat)
    requires forall k :: 0 <= k < |paths| ==> |paths[k]| < level
    ensures OnLevel(paths, level) == []
  {
    if paths != [] { NothingDeeper(paths[..|paths| - 1], level); }
  }

  /** The node goes on its level's list, which is made if it is the first there. */
  method PutOnLevel(levels: seq<seq<nat>>, level: nat, id: nat, ghost paths: seq<Path>, ghost path: Path) returns (r: seq<seq<nat>>)
    requires LevelsOk(levels, paths) && level == |path| <= |levels| && id == |paths|
    ensures LevelsOk(r, paths + [path]) && |r| >= |levels| && |r| > level
  {
    r := levels;
    if level == |r| {
      NothingDeeper(paths, level);
      r := r + [[]];
    }
    assert (paths + [path])[..|paths|] == paths;
    r := r[level := r[level] + [id]];
    forall d | 0 <= d < |r| ensures r[d] == OnLevel(paths + [path], d) && r[d] != [] {
      assert OnLevel(paths, d) + [] == OnLevel(paths, d);
    }
  }

  /** Every path that leads anywhere has a node at the end. */
  lemma {:induction false} AllReached(roots: seq<Item>, nodes: seq<Node>, paths: seq<Path>, path: Path)
    requires Progress(roots, nodes, paths, [], []) && (ItemsAt(roots, path) != [] || path == [])
    ensures path in paths
  {
    assert paths + [] == paths;
    if path != [] {
      var front, l := Front(path), path[|path| - 1];
      LabelledEmpty(Nexts(ItemsAt(roots, front)), l);
      assert Nexts([]) == [];
      AllReached(roots, nodes, paths, front);
      var k :| 0 <= k < |paths| && paths[k] == front;
      assert Closed(roots, paths, paths + [], k);
      assert front + [l] == path;
    }
  }

  /** No item weighs less than what lies next to it. */
  ghost predicate Contained(items: seq<Item>) {
    forall i :: 0 <= i < |items| ==> Sum(Value, items[i].next) <= items[i].value
  }

  lemma {:induction false} NextsWithin(items: seq<Item>)
    requires Contained(items)
    ensures Sum(Value, Nexts(items)) <= Sum(Value, items)
  {
    if items != [] {
      NextsWithin(items[..|items| - 1]);
      SumJoin(Value, Nexts(items[..|items| - 1]), items[|items| - 1].next);
    }
  }

  /** The merge is the tree of paths of labels: one node for every path, whose value is the sum
      over all items with that path; siblings side by side; and what is below a node is exactly
      what is below its items. */
  ghost predicate Merged(roots: seq<Item>, nodes: seq<Node>, paths: seq<Path>) {
    && |nodes| == |paths| && NoRepeats(paths)
    && (forall path :: path in paths <==> path == [] || ItemsAt(roots, path) != [])
    && (forall k :: 0 <= k < |nodes| ==> NodeOk(roots, nodes, paths, k) && Linked(nodes, k) && Sums(roots, nodes, paths, k))
    && (forall k :: 0 <= k < |nodes| ==> Joins(IndexLists(ItemsAt(roots, paths[k])), nodes[k].indexes))
  }

  ghost predicate Sums(roots: seq<Item>, nodes: seq<Node>, paths: seq<Path>, k: nat)
    requires k < |nodes| == |paths| && Linked(nodes, k)
  {
    ForwardSum(nodes, nodes[k].forward) == Sum(Value, Nexts(ItemsAt(roots, paths[k])))
  }

  /** Children stay within their parent exactly if all that lies next to the items together does
      not weigh more than the items; so they do if no single item is outweighed. */
  lemma WithinParent(roots: seq<Item>, nodes: seq<Node>, paths: seq<Path>, k: nat)
    requires Merged(roots, nodes, paths) && k < |nodes|
    ensures Linked(nodes, k)
    ensures var items := ItemsAt(roots, paths[k]);
            && (ForwardSum(nodes, nodes[k].forward) <= nodes[k].value <==> Sum(Value, Nexts(items)) <= Sum(Value, items))
            && (Contained(items) ==> ForwardSum(nodes, nodes[k].forward) <= nodes[k].value)
  {
    assert NodeOk(roots, nodes, paths, k) && Linked(nodes, k) && Sums(roots, nodes, paths, k);
    if Contained(ItemsAt(roots, paths[k])) { NextsWithin(ItemsAt(roots, paths[k])); }
  }

  lemma AllMerged(roots: seq<Item>, nodes: seq<Node>, paths: seq<Path>)
    requires Progress(roots, nodes, paths, [], [])
    ensures Merged(roots, nodes, paths)
  {
    assert paths + [] == paths;
    forall path ensures path in paths <==> path == [] || ItemsAt(roots, path) != [] {
      if path in paths {
        var k :| 0 <= k < |paths| && paths[k] == path;
        assert NodeOk(roots, nodes, paths, k);
      } else if path == [] || ItemsAt(roots, path) != [] {
        AllReached(roots, nodes, paths, path);
      }
    }
    forall k | 0 <= k < |nodes| ensures NodeOk(roots, nodes, paths, k) && Linked(nodes, k) && Sums(roots, nodes, paths, k) {
      assert Balanced(roots, nodes, paths, [], k);
    }
    forall k | 0 <= k < |nodes| ensures Joins(IndexLists(ItemsAt(roots, paths[k])), nodes[k].indexes) {
      assert NodeOk(roots, nodes, paths, k);
      IndexesJoin(ItemsAt(roots, paths[k]));
    }
  }

  /** The items the nodes stand for, counted. */
  ghost function Placements(roots: seq<Item>, paths: seq<Path>): int {
    if paths == [] then 0 else Placements(roots, paths[..|paths| - 1]) + |ItemsAt(roots, paths[|paths| - 1])|
  }

  lemma PlacementsNext(roots: seq<Item>, paths: seq<Path>, path: Path)
    ensures Placements(roots, paths + [path]) == Placements(roots, paths) + |ItemsAt(roots, path)|
  {
    assert (paths + [path])[..|paths|] == paths;
  }

  lemma WorkOfRoots(roots: seq<Item>)
    ensures Work([Task(-1, roots, 0)]) == Sum(Size, roots) && Work([]) == 0 && Placements(roots, []) == 0
  {
    OneTask(Task(-1, roots, 0), 0);
  }

  /** Make the node of the first task. */
  method Visit(nodes0: seq<Node>, task: Task) returns (nodes: seq<Node>)
    requires task.previous < |nodes0| && forall k :: 0 <= k < |nodes0| ==> Linked(nodes0, k)
    ensures nodes == Visited(nodes0, task)
  {
    nodes := nodes0;
    var id := |nodes|;
    var value, start := 0, 0;
    for i := 0 to |task.items|
      invariant value == Sum(Value, task.items[..i])
    {
      assert task.items[..i + 1][..i] == task.items[..i];
      value := value + task.items[i].value;
    }
    assert task.items[..|task.items|] == task.items;
    if task.previous >= 0 {
      assert Linked(nodes, task.previous);
      var before := nodes[task.previous];
      var sum := 0;
      for i := 0 to |before.forward|
        invariant sum == ForwardSum(nodes, before.forward[..i])
      {
        assert before.forward[..i + 1][..i] == before.forward[..i];
        sum := sum + nodes[before.forward[i]].value;
      }
      assert before.forward[..|before.forward|] == before.forward;
      start := before.start + sum;
      nodes := nodes[task.previous := before.(forward := before.forward + [id])];
    }
    nodes := nodes + [Node(value, Indexes(task.items), start, task.level, task.previous, [])];
  }

  /** The merge.  The path of each node is returned beside it, to say which node is which. */
  method MergeItems(roots: seq<Item>, arrange: seq<Item> -> seq<string>)
    returns (levels: seq<seq<nat>>, nodes: seq<Node>, paths: seq<Path>)
    requires Arranges(arrange)
    ensures Merged(roots, nodes, paths) && LevelsOk(levels, paths)
    ensures Placements(roots, paths) == Sum(Size, roots)
  {
    hide NodeOk, Linked, Balanced, Closed, ItemsAt, Visited, Placements, Work, Size;
    WorkOfRoots(roots);
    levels, nodes, paths := [], [], [];
    var tasks: seq<Task> := [Task(-1, roots, 0)];
    var taskPaths: seq<Path> := [[]];
    Begun(roots);
    while tasks != []
      invariant Progress(roots, nodes, paths, tasks, taskPaths) && LevelsOk(levels, paths)
      invariant forall q :: 0 <= q < |tasks| ==> tasks[q].level <= |levels|
      invariant Placements(roots, paths) + Work(tasks) == Sum(Size, roots)
      decreases Work(tasks), |tasks|
    {
      var e, id := tasks[0], |nodes|;
      ghost var nodes0, paths0, tasks0, taskPaths0 := nodes, paths, tasks, taskPaths;
      assert TaskOk(roots, paths, e, taskPaths[0]);
      nodes := Visit(nodes, e);
      levels := PutOnLevel(levels, e.level, id, paths, taskPaths[0]);
      var c := Nexts(e.items);
      var labels := arrange(c);
      assert Arranged(c, labels);
      tasks := tasks[1..] + NewTasks(id, labels, c, e.level + 1);
      paths, taskPaths := paths + [taskPaths[0]], taskPaths[1..] + NewPaths(taskPaths[0], labels);
      StepKeeps(roots, nodes0, paths0, tasks0, taskPaths0, labels, nodes, paths, tasks, taskPaths);
      StepWork(tasks0, labels, id);
      PlacementsNext(roots, paths0, taskPaths0[0]);
      WorkPositive(tasks);
    }
    AllMerged(roots, nodes, paths);
  }

  lemma Begun(roots: seq<Item>)
    ensures Progress(roots, [], [], [Task(-1, roots, 0)], [[]])
  {
    var known: seq<Path> := [] + [[]];
    assert known[0] == [];
  }

  // -------- upwards --------------------------------------------------------------------

  lemma {:induction false} OnLevelOf(paths: seq<Path>, level: nat)
    ensures forall k: nat :: k in OnLevel(paths, level) <==> k < |paths| && |paths[k]| == level
  {
    if paths != [] { OnLevelOf(paths[..|paths| - 1], level); }
  }

  function Reversed<U>(s: seq<U>): (r: seq<U>)
    ensures |r| == |s| && forall i :: 0 <= i < |s| ==> r[i] == s[|s| - 1 - i]
  {
    if s == [] then [] else Reversed(s[1..]) + [s[0]]
  }

  /** One row moved to level t. */
  method SetRow(nodes: seq<Node>, row: seq<nat>, t: nat) returns (r: seq<Node>)
    requires forall i :: 0 <= i < |row| ==> row[i] < |nodes|
    ensures |r| == |nodes| && forall k: nat :: k < |nodes| ==> r[k] == if k in row then nodes[k].(level := t) else nodes[k]
  {
    r := nodes;
    for i := 0 to |row|
      invariant |r| == |nodes|
      invariant forall k: nat :: k < |nodes| ==> r[k] == if k in row[..i] then nodes[k].(level := t) else nodes[k]
    {
      assert row[..i + 1] == row[..i] + [row[i]];
      r := r[row[i] := r[row[i]].(level := t)];
    }
    assert row[..|row|] == row;
  }

  /** Node k has its new level once its row is among the first t. */
  ghost predicate TurnedAt(nodes: seq<Node>, turned: seq<Node>, paths: seq<Path>, n: nat, t: nat, k: nat)
    requires k < |nodes| == |turned| == |paths|
  {
    turned[k] == if n - 1 - |paths[k]| < t && |paths[k]| < n then nodes[k].(level := n - 1 - |paths[k]|) else nodes[k]
  }

  lemma RowTurned(nodes: seq<Node>, turned: seq<Node>, turned2: seq<Node>, paths: seq<Path>, n: nat, t: nat, row: seq<nat>, k: nat)
    requires k < |nodes| == |turned| == |turned2| == |paths| && t < n && TurnedAt(nodes, turned, paths, n, t, k)
    requires k in row <==> |paths[k]| == n - 1 - t
    requires turned2[k] == if k in row then turned[k].(level := t) else turned[k]
    ensures TurnedAt(nodes, turned2, paths, n, t + 1, k)
  {
  }

  lemma TurnedDone(levels: seq<seq<nat>>, nodes: seq<Node>, turned: seq<Node>, paths: seq<Path>, k: nat)
    requires LevelsOk(levels, paths) && k < |nodes| == |turned| == |paths| && TurnedAt(nodes, turned, paths, |levels|, |levels|, k)
    ensures |paths[k]| < |levels| && turned[k] == nodes[k].(level := |levels| - 1 - |paths[k]|)
    ensures k in Reversed(levels)[turned[k].level]
  {
    LevelHolds(levels, paths, k);
    hide *;
    TurnedLevel(nodes, turned, paths, |levels|, k);
  }

  lemma LevelHolds(levels: seq<seq<nat>>, paths: seq<Path>, k: nat)
    requires LevelsOk(levels, paths) && k < |paths|
    ensures |paths[k]| < |levels| && k in levels[|paths[k]|]
  {
    hide OnLevel;
    OnLevelOf(paths, |paths[k]|);
  }

  lemma TurnedLevel(nodes: seq<Node>, turned: seq<Node>, paths: seq<Path>, n: nat, k: nat)
    requires k < |nodes| == |turned| == |paths| && |paths[k]| < n && TurnedAt(nodes, turned, paths, n, n, k)
    ensures turned[k] == nodes[k].(level := n - 1 - |paths[k]|)
  {
  }

  /** The levels turned over: callers are drawn above, so the farthest come first. */
  method TurnOver(levels: seq<seq<nat>>, nodes: seq<Node>, ghost paths: seq<Path>) returns (rows: seq<seq<nat>>, turned: seq<Node>)
    requires LevelsOk(levels, paths) && |nodes| == |paths| && forall k :: 0 <= k < |nodes| ==> nodes[k].level == |paths[k]|
    ensures rows == Reversed(levels) && |turned| == |nodes|
    ensures forall k: nat :: k < |nodes| ==> turned[k] == nodes[k].(level := |levels| - 1 - |paths[k]|) && k in rows[turned[k].level]
  {
    hide Reversed, OnLevel;
    rows, turned := Reversed(levels), nodes;
    var n := |levels|;
    forall k: nat | k < |nodes| ensures TurnedAt(nodes, turned, paths, n, 0, k) {}
    for t := 0 to |rows|
      invariant |turned| == |nodes|
      invariant forall k: nat :: k < |nodes| ==> TurnedAt(nodes, turned, paths, n, t, k)
    {
      OnLevelOf(paths, n - 1 - t);
      var row := rows[t];
      assert row == OnLevel(paths, n - 1 - t);
      hide TurnedAt;
      forall i | 0 <= i < |row| ensures row[i] < |nodes| { assert row[i] in row; }
      var before := turned;
      turned := SetRow(turned, row, t);
      var u := t + 1;
      forall k: nat | k < |nodes| ensures TurnedAt(nodes, turned, paths, n, u, k) { RowTurned(nodes, before, turned, paths, n, t, row, k); }
    }
    forall k: nat | k < |nodes| ensures turned[k] == nodes[k].(level := |levels| - 1 - |paths[k]|) && k in rows[turned[k].level] {
      TurnedDone(levels, nodes, turned, paths, k);
    }
  }
}
