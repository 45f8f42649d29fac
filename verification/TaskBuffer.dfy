/**
 The buffer in front of the telemetry transport: tasks wait in a queue of bounded size and run a
 bounded number at a time, and what a task comes to settles the promise given out for it.
 */
module TaskBuffer {

  /** A waiting task with the number of its promise. */
  datatype Entry<T> = Entry(task: T, promise: nat)

  datatype Outcome<R, E> = Resolved(value: R) | Rejected(reason: E)

  /** Promise and task belong together, whether the task waits or runs; a promise is settled or
      its task runs exactly if it has been started. */
  ghost predicate Pairs<T>(queue: seq<Entry<T>>, inFlight: map<nat, T>, done: set<nat>, taken: seq<T>) {
    && |queue| <= |taken|
    && (forall k :: 0 <= k < |queue| ==> queue[k] == Entry(taken[|taken| - |queue| + k], |taken| - |queue| + k))
    && (forall t :: t in inFlight ==> t < |taken| && inFlight[t] == taken[t])
    && inFlight.Keys !! done
    && forall t: nat :: t in inFlight.Keys + done <==> t < |taken| - |queue|
  }

  lemma PairsShort<T>(queue: seq<Entry<T>>, inFlight: map<nat, T>, done: set<nat>, taken: seq<T>)
    requires Pairs(queue, inFlight, done, taken)
    ensures |queue| <= |taken| && forall t :: t in inFlight ==> t < |taken| && inFlight[t] == taken[t]
    ensures queue == [] ==> forall t: nat :: t in inFlight.Keys + done <==> t < |taken|
    ensures forall t :: t in done ==> t < |taken|
  {
    forall t | t in done ensures t < |taken| { assert t in inFlight.Keys + done; }
  }

  lemma PairsTaken<T>(queue: seq<Entry<T>>, inFlight: map<nat, T>, done: set<nat>, taken: seq<T>, task: T)
    requires Pairs(queue, inFlight, done, taken)
    ensures Pairs(queue + [Entry(task, |taken|)], inFlight, done, taken + [task])
  {
  }

  lemma PairsStarted<T>(queue: seq<Entry<T>>, inFlight: map<nat, T>, done: set<nat>, taken: seq<T>)
    requires Pairs(queue, inFlight, done, taken) && queue != []
    ensures |taken| >= |queue| && queue[0] == Entry(taken[|taken| - |queue|], |taken| - |queue|) && queue[0].promise !in inFlight
    ensures Pairs(queue[1..], inFlight[queue[0].promise := queue[0].task], done, taken)
    ensures |inFlight[queue[0].promise := queue[0].task]| == |inFlight| + 1
  {
    var n := queue[0].promise;
    assert queue[0] == Entry(taken[|taken| - |queue| + 0], |taken| - |queue| + 0);
    assert n !in inFlight.Keys + done;
    assert inFlight[n := queue[0].task].Keys == inFlight.Keys + {n};
    var keys, left := inFlight[n := queue[0].task].Keys + done, |taken| - |queue|;
    forall t: nat ensures t in keys <==> t < left + 1 { assert t in inFlight.Keys + done <==> t < left; }
  }

  lemma PairsDone<T>(queue: seq<Entry<T>>, inFlight: map<nat, T>, done: set<nat>, taken: seq<T>, promise: nat)
    requires Pairs(queue, inFlight, done, taken) && promise in inFlight
    ensures Pairs(queue, inFlight - {promise}, done + {promise}, taken) && promise !in done && |inFlight - {promise}| == |inFlight| - 1
  {
    assert (inFlight - {promise}).Keys == inFlight.Keys - {promise};
    assert inFlight.Keys + done == (inFlight - {promise}).Keys + (done + {promise});
  }

  /** What was settled stays, and what was not is settled with what its own task came to. */
  ghost predicate Fulfilled<T, U>(before: map<nat, U>, after: map<nat, U>, taken: seq<T>, run: T -> U) {
    && (forall t :: t in before ==> t in after && after[t] == before[t])
    && forall t :: t in after && t !in before ==> t < |taken| && after[t] == run(taken[t])
  }

  lemma FulfilledAtFirst<T, U>(before: map<nat, U>, taken: seq<T>, run: T -> U)
    ensures Fulfilled(before, before, taken, run)
  {
  }

  lemma FulfilledMore<T, U>(before: map<nat, U>, after: map<nat, U>, taken: seq<T>, run: T -> U, t: nat)
    requires Fulfilled(before, after, taken, run) && t < |taken| && t !in after
    ensures Fulfilled(before, after[t := run(taken[t])], taken, run)
  {
  }

  lemma SomeKey<U>(m: map<nat, U>)
    requires |m| > 0
    ensures m.Keys != {}
  {
  }

  lemma KeySettled<U>(settled: map<nat, U>, promise: nat, outcome: U)
    ensures settled[promise := outcome].Keys == settled.Keys + {promise}
  {
  }

  class Buffer<T, R, E> {
    const size: int
    const concurrency: int
    var queue: seq<Entry<T>>
    var running: int
    /** Promises given out so far; they are numbered from 0. */
    var promises: nat
    /** The tasks that run, each under the promise its handlers will settle. */
    var inFlight: map<nat, T>
    var settled: map<nat, Outcome<R, E>>
    /** Every task ever taken, in order. */
    ghost var taken: seq<T>

    constructor (size: int, concurrency: int)
      ensures Valid() && this.size == size && this.concurrency == concurrency && taken == [] && settled == map[]
    {
      this.size, this.concurrency := size, concurrency;
      queue, running, promises, inFlight, settled := [], 0, 0, map[], map[];
      taken := [];
    }

    /** Tasks that were started: all that were taken and do not wait. */
    ghost function Started(): int
      reads this
    {
      promises - |queue|
    }

    ghost predicate Paired()
      reads this
    {
      promises == |taken| && running == |inFlight| && Pairs(queue, inFlight, settled.Keys, taken)
    }

    ghost predicate Valid()
      reads this
    {
      && Paired() && (running <= concurrency || running == 0)
      && (queue != [] ==> running >= concurrency)
      && (|queue| + running <= size || |queue| + running == 0)
    }

    /** Start the task that waits longest, if there is a free slot. */
    method StartNext()
      requires Paired()
      modifies this`queue, this`running, this`inFlight
      ensures Paired() && 0 <= old(Started()) <= |taken| && (old(queue) != [] ==> old(Started()) < |taken|)
      ensures queue == if old(running) < concurrency && old(queue) != [] then old(queue)[1..] else old(queue)
      ensures if old(running) < concurrency && old(queue) != []
        then running == old(running) + 1
             && inFlight == old(inFlight)[old(Started()) := taken[old(Started())]]
        else running == old(running) && inFlight == old(inFlight)
    {
      hide Pairs;
      PairsShort(queue, inFlight, settled.Keys, taken);
      if running < concurrency && |queue| > 0 {
        var next := queue[0];
        PairsStarted(queue, inFlight, settled.Keys, taken);
        queue := queue[1..];
        running := running + 1;
        inFlight := inFlight[next.promise := next.task];
      }
    }

    /** Take a task and give out its promise, unless the buffer is full. */
    method Add(task: T) returns (ok: bool, promise: nat)
      requires Valid()
      modifies this
      ensures Valid() && settled == old(settled)
      ensures ok <==> old(|queue| + running) < size
      ensures !ok ==> taken == old(taken) && queue == old(queue) && running == old(running) && inFlight == old(inFlight)
      ensures ok ==> taken == old(taken) + [task] && promise == |old(taken)|
      ensures ok && old(running) < concurrency ==> queue == [] && inFlight == old(inFlight)[promise := task]
      ensures ok && old(running) >= concurrency ==> queue == old(queue) + [Entry(task, promise)] && inFlight == old(inFlight)
    {
      hide Pairs;
      promise := promises;
      if |queue| + running >= size { return false, promise; }
      PairsTaken(queue, inFlight, settled.Keys, taken, task);
      queue := queue + [Entry(task, promise)];
      taken := taken + [task];
      promises := promises + 1;
      StartNext();
      return true, promise;
    }

    /** The task under a promise is done, well or not: its slot goes to the next in line, then its
        own promise is settled, once. */
    method Done(promise: nat, outcome: Outcome<R, E>)
      requires Valid() && promise in inFlight
      modifies this
      ensures Valid() && taken == old(taken) && promise !in old(settled) && settled == old(settled)[promise := outcome]
      ensures queue == (if old(queue) != [] && concurrency > 0 then old(queue)[1..] else old(queue)) && 0 <= old(Started())
      ensures old(queue) != [] ==> old(Started()) < |taken|
      ensures inFlight == if old(queue) != [] && concurrency > 0
                          then (old(inFlight) - {promise})[old(Started()) := taken[old(Started())]] else old(inFlight) - {promise}
    {
      hide Pairs;
      PairsDone(queue, inFlight, settled.Keys, taken, promise);
      KeySettled(settled, promise, outcome);
      inFlight := inFlight - {promise};
      settled := settled[promise := outcome];
      running := running - 1;
      StartNext();
    }

    /** When every task that runs gets done, in whatever order: every task taken is started, in
        line, and its promise is settled with what that very task came to. */
    method Drain(order: set<nat> -> nat, run: T -> Outcome<R, E>)
      requires Valid() && concurrency > 0 && forall a :: a != {} ==> order(a) in a
      modifies this
      ensures Valid() && taken == old(taken) && queue == [] && running == 0
      ensures forall t :: t in settled <==> 0 <= t < |taken|
      ensures Fulfilled(old(settled), settled, taken, run)
    {
      hide Pairs, Fulfilled;
      FulfilledAtFirst(settled, taken, run);
      while running > 0
        invariant Valid() && taken == old(taken)
        invariant Fulfilled(old(settled), settled, taken, run)
        decreases |taken| - |settled|
      {
        SomeKey(inFlight);
        var promise := order(inFlight.Keys);
        PairsShort(queue, inFlight, settled.Keys, taken);
        ghost var before := settled;
        SettledCount();
        Done(promise, run(inFlight[promise]));
        FulfilledMore(old(settled), before, taken, run, promise);
        SettledCount();
      }
      AllSettled();
    }

    lemma AllSettled()
      requires Valid() && running == 0 && queue == []
      ensures forall t :: t in settled <==> 0 <= t < |taken|
    {
      hide Pairs;
      PairsShort(queue, inFlight, settled.Keys, taken);
      assert inFlight == map[];
      forall t: nat ensures t in settled <==> t < |taken| { assert t in inFlight.Keys + settled.Keys <==> t < |taken|; }
    }

    lemma SettledCount()
      requires Valid()
      ensures |settled| <= |taken|
    {
      PairsShort(queue, inFlight, settled.Keys, taken);
      hide Pairs;
      Below(settled.Keys, |taken|);
    }
  }

  lemma {:induction false} Below(s: set<nat>, n: nat)
    requires forall i :: i in s ==> i < n
    ensures |s| <= n
  {
    if n == 0 {
      assert s == {};
    } else {
      Below(s - {n - 1}, n - 1);
    }
  }
}
