/**
 The sharded query runner: a query is sent for a group of stream shards at a time, slow or broken
 groups are retried smaller or later, and the answers are merged as they come.  The browser's
 callbacks are the methods On...; what the data source answers, and when, is left open.
 */
module ShardRunner {

  // -------- the size of the next group -------------------------------------------------

  /** The execution time a response reports, rounded to seconds.  `high` says that the
      floating-point product of a tenth came out above the exact one. */
  datatype Timing = Unreported | NotANumber | Took(seconds: int, high: bool)

  /** The least r with 10 * r >= tenths * size, or the next one if that is exact and came out high. */
  ghost predicate Ceiling(tenths: nat, size: nat, high: bool, r: nat) {
    if high && tenths * size % 10 == 0 then 10 * r == tenths * size + 10
    else 10 * r - 10 < tenths * size <= 10 * r
  }

  /** The greatest r with 2 * r <= size. */
  ghost predicate Half(size: nat, r: nat) {
    2 * r <= size < 2 * r + 2
  }

  /** What a response asks for: one and a half times the size up to a second, eleven tenths below
      six seconds, nine tenths below twenty, and half from there on; a single shard stays one. */
  ghost predicate Asks(empty: bool, timing: Timing, size: nat, r: nat) {
    if empty then r == size + 1
    else match timing
      case Unreported => r == size
      case NotANumber => if size == 1 then r == 1 else Half(size, r)
      case Took(seconds, high) =>
        && (seconds <= 1 ==> Half(3 * size, r))
        && (1 < seconds < 6 ==> Ceiling(11, size, high, r))
        && (6 <= seconds && size == 1 ==> r == 1)
        && (6 <= seconds < 20 && size > 1 ==> Ceiling(9, size, high, r))
        && (20 <= seconds && size > 1 ==> Half(size, r))
  }

  /** No more than seven tenths of what is left; one less if that is exact and came out low. */
  ghost predicate InShare(left: int, low: bool, r: nat) {
    10 * r <= 7 * left - if low && left % 10 == 0 then 10 else 0
  }

  /** As much as is wanted, but no more than the share of what is left, and at least one. */
  ghost predicate CutTo(wanted: nat, left: int, low: bool, r: nat) {
    && 1 <= r <= wanted
    && (r == 1 || InShare(left, low, r))
    && (r == wanted || !InShare(left, low, r + 1))
  }

  /** The size that follows a group of `size` shards when `left` are left after it. */
  ghost predicate Sized(r: Response, size: nat, left: int, next: nat) {
    exists wanted: nat :: Asks(r.empty, r.timing, size, wanted) && CutTo(wanted, left, r.low, next)
  }

  /** ceil(tenths / 10 * size): the product is only ever off when it should be a whole number. */
  function CeilTenths(tenths: nat, size: nat, high: bool): (r: nat)
    ensures Ceiling(tenths, size, high, r)
  {
    var exact := tenths * size;
    if exact % 10 == 0 && high then exact / 10 + 1 else (exact + 9) / 10
  }

  /** The size the response asks for. */
  function Wanted(empty: bool, timing: Timing, size: nat): (r: nat)
    requires size >= 1
    ensures r >= 1 && Asks(empty, timing, size, r)
    ensures !empty && timing.Took? && timing.seconds <= 1 ==> size <= r <= 2 * size
    ensures !empty && timing.Took? && 1 < timing.seconds < 6 ==> size < r <= 2 * size
    ensures !empty && timing.Took? && timing.seconds >= 6 ==> r <= size && size <= 2 * r + 1
    ensures !empty && timing.Unreported? ==> r == size
  {
    if empty then size + 1
    else match timing
      case Unreported => size
      case Took(seconds, high) =>
        if seconds <= 1 then 3 * size / 2
        else if seconds < 6 then CeilTenths(11, size, high)
        else if size == 1 then size
        else if seconds < 20 then CeilTenths(9, size, high)
        else size / 2
      case NotANumber => if size == 1 then size else size / 2
  }

  /** No more than seven tenths of what is left, and at least one shard.  `low` says that the
      floating-point product came out below the exact one. */
  function Capped(wanted: nat, left: int, low: bool): (r: nat)
    requires wanted >= 1
    ensures CutTo(wanted, left, low, r)
    ensures left >= 3 ==> 10 * r <= 7 * left
  {
    var share := if left % 10 == 0 && low then 7 * left / 10 - 1 else 7 * left / 10;
    var most := if share > 1 then share else 1;
    if wanted < most then wanted else most
  }

  /** The whole square root. */
  function Root(n: nat): (r: nat)
    ensures r * r <= n < (r + 1) * (r + 1)
  {
    if n == 0 then 0 else var s := Root(n - 1); if (s + 1) * (s + 1) <= n then s + 1 else s
  }

  lemma RootShrinks(n: nat)
    ensures n > 1 ==> 1 <= Root(n) < n
    ensures n >= 1 ==> Root(n) >= 1
  {
    hide Root;
    var r := Root(n);
    if r >= 2 { assert (r - 2) * r >= 0; }
  }

  // -------- the runner -----------------------------------------------------------------

  datatype Problem = NoProblem | OtherProblem | ParseError | TimedOut

  datatype Response = Response(problem: Problem, empty: bool, timing: Timing, low: bool)

  /** What a sub-query ends with: one response, or a broken stream. */
  datatype Outcome = Answered(response: Response) | Broken

  /** A merged response and the group it answers. */
  datatype Merged = Merged(group: seq<int>, response: Response)

  datatype Phase = Querying | Waiting | Finished

  datatype LoadingState = Streaming | Failed | Done

  const UNSHARDED := -1

  /** The shards of the query at position d: past the last one, the lines without a shard. */
  function Group(shards: seq<int>, d: nat, size: nat): (r: seq<int>)
    requires d <= |shards| && size >= 1
    ensures |r| >= 1
  {
    if d == |shards| then [UNSHARDED] else shards[d..Min(d + size, |shards|)]
  }

  function Min(a: int, b: int): int { if a <= b then a else b }

  /** The shards of the merged groups, in order. */
  function Flat(merged: seq<Merged>): seq<int> {
    if merged == [] then [] else Flat(merged[..|merged| - 1]) + merged[|merged| - 1].group
  }

  lemma FlatMore(merged: seq<Merged>, m: Merged)
    ensures Flat(merged + [m]) == Flat(merged) + m.group
  {
    assert (merged + [m])[..|merged|] == merged;
  }

  /** Everything a run has to ask for. */
  function Everything(shards: seq<int>): seq<int> {
    shards + [UNSHARDED]
  }

  ghost predicate AllSettled(merged: seq<Merged>) {
    forall i :: 0 <= i < |merged| ==> Settled(merged[i])
  }

  /** A response that was neither retried nor fatal. */
  predicate Settled(m: Merged) {
    m.response.problem.NoProblem? || m.response.problem.OtherProblem?
  }

  /** Timer retries spent on the group at position d. */
  function Tries(retries: map<nat, nat>, d: nat): nat {
    if d in retries then retries[d] else 0
  }

  ghost predicate FewTries(retries: map<nat, nat>) {
    forall d :: d in retries ==> retries[d] <= 4
  }

  /** How far a run is from its end: compared field by field. */
  datatype Rank = Rank(open: nat, shards: nat, size: nat, retries: nat, waiting: nat)

  predicate Below(a: Rank, b: Rank) {
    || a.open < b.open
    || (a.open == b.open && a.shards < b.shards)
    || (a.open == b.open && a.shards == b.shards && a.size < b.size)
    || (a.open == b.open && a.shards == b.shards && a.size == b.size && a.retries < b.retries)
    || (a.open == b.open && a.shards == b.shards && a.size == b.size && a.retries == b.retries && a.waiting < b.waiting)
  }

  /** One for a time-out or a broken stream. */
  function Trouble(outcome: Outcome): (t: nat)
    ensures t <= 1
  {
    if outcome.Broken? || outcome.response.problem.TimedOut? then 1 else 0
  }

  predicate Misparsed(outcome: Outcome) {
    outcome.Answered? && outcome.response.problem.ParseError?
  }

  /** A sub-query as it was sent: from which position on, and for how many shards. */
  datatype Sent = Sent(position: nat, size: nat)

  /** The sub-query sent next after an outcome: the same position again, with a smaller group if
      it can be smaller, or what follows a merged response. */
  ghost predicate Follows(shards: seq<int>, a: Sent, outcome: Outcome, b: Sent) {
    if Trouble(outcome) == 1 then b == Sent(a.position, if a.size > 1 then Root(a.size) else a.size)
    else
      var r := outcome.response;
      && a.size >= 1 && a.position < |shards| && !Misparsed(outcome)
      && b.position == Min(a.position + a.size, |shards|)
      && Sized(r, a.size, |shards| - (a.position + a.size), b.size)
  }

  class Runner {
    const shards: seq<int>
    var fatal: bool
    var merged: seq<Merged>
    var retries: map<nat, nat>
    var cycle: nat
    var size: nat
    var phase: Phase
    var state: LoadingState
    var completions: nat
    /** Whether the data source ever answered with a parse error. */
    ghost var misparsed: bool

    constructor (shards: seq<int>)
      requires shards != []
      ensures this.shards == shards && Valid() && phase == Querying && merged == [] && cycle == 0 && retries == map[] && !misparsed
      ensures size == Root(|shards|) && size * size <= |shards| < (size + 1) * (size + 1)
    {
      this.shards := shards;
      fatal, merged, retries, cycle, phase, state, completions := false, [], map[], 0, Querying, Streaming, 0;
      size := Root(|shards|);
      misparsed := false;
      RootShrinks(|shards|);
    }

    ghost predicate Valid()
      reads this
    {
      && cycle <= |shards| && size >= 1
      && FewTries(retries)
      && (if phase == Finished then Over() else Going())
    }

    /** While the run goes on, exactly the shards before the current position are merged. */
    ghost predicate Going()
      requires cycle <= |shards|
      reads this
    {
      !fatal && completions == 0 && state == Streaming && Flat(merged) == shards[..cycle] && AllSettled(merged)
    }

    /** At the end the subscriber is completed once, in error exactly if the run was fatal; if it
        was not, every shard and the unsharded lines are merged, in order, each once. */
    ghost predicate Over()
      reads this
    {
      && completions == 1
      && state == (if fatal then Failed else Done)
      && (!fatal ==> Flat(merged) == Everything(shards) && AllSettled(merged))
      && (fatal ==> Flat(merged) <= Everything(shards) && (merged == [] || AllSettled(merged[..|merged| - 1])))
      && (fatal ==> misparsed || exists d :: d in retries && retries[d] == 4)
    }

    ghost function Standing(): Rank
      requires Valid()
      reads this
    {
      if phase == Finished then Rank(0, 0, 0, 0, 0)
      else Rank(1, |shards| - cycle, size, 4 - Tries(retries, cycle), if phase == Waiting then 1 else 0)
    }

    method Finish()
      modifies this`state, this`completions, this`phase
      ensures phase == Finished && completions == old(completions) + 1 && state == (if fatal then Failed else Done)
    {
      state := if fatal then Failed else Done;
      completions := completions + 1;
      phase := Finished;
    }

    /** Send the query for the group at position d, unless the run is doomed. */
    method Query(d: nat, size: nat)
      modifies this`state, this`completions, this`phase, this`cycle, this`size
      ensures fatal ==> phase == Finished && completions == old(completions) + 1 && state == Failed
      ensures fatal ==> cycle == old(cycle) && this.size == old(this.size)
      ensures !fatal ==> phase == Querying && completions == old(completions) && state == old(state)
      ensures !fatal ==> cycle == d && this.size == size
    {
      if fatal {
        Finish();
      } else {
        cycle, this.size, phase := d, size, Querying;
      }
    }

    /** On to the next group. */
    method Advance(next: nat)
      requires cycle <= |shards| && size >= 1
      modifies this`state, this`completions, this`phase, this`cycle, this`size
      ensures fatal || old(cycle) == |shards| ==> phase == Finished && completions == old(completions) + 1
      ensures fatal || old(cycle) == |shards| ==> state == (if fatal then Failed else Done)
      ensures fatal || old(cycle) == |shards| ==> cycle == old(cycle) && size == old(size)
      ensures !(fatal || old(cycle) == |shards|) ==> phase == Querying && completions == old(completions) && state == old(state)
      ensures !(fatal || old(cycle) == |shards|) ==> cycle == Min(old(cycle) + old(size), |shards|) && size == next
    {
      var end := Min(cycle + size, |shards|);
      if cycle < |shards| && end <= |shards| { Query(end, next); } else { Finish(); }
    }

    /** After a time-out: a smaller group at once, or the same shard later, at most four times. */
    method Retry() returns (again: bool)
      requires cycle <= |shards| && size >= 1 && !fatal && FewTries(retries)
      modifies this`fatal, this`retries, this`phase, this`cycle, this`size, this`state, this`completions
      ensures again <==> old(size) > 1 || old(Tries(retries, cycle)) <= 3
      ensures fatal == !again && cycle == old(cycle) && completions == old(completions) && state == old(state)
      ensures old(size) > 1 ==> phase == Querying && size == Root(old(size)) && retries == old(retries)
      ensures old(size) == 1 ==> size == 1
      ensures again && old(size) == 1 ==> phase == Waiting && retries == old(retries)[cycle := old(Tries(retries, cycle)) + 1]
      ensures !again ==> phase == old(phase) && retries == old(retries) && Tries(retries, cycle) == 4
    {
      if size > 1 {
        var smaller := Root(size);
        Query(cycle, smaller);
        return true;
      }
      var tried := Tries(retries, cycle);
      if tried > 3 {
        fatal := true;
        return false;
      }
      retries := retries[cycle := tried + 1];
      phase := Waiting;
      return true;
    }

    /** Merge the response to the current query, then go on to the next. */
    method Merge(r: Response)
      requires cycle <= |shards| && size >= 1 && FewTries(retries) && phase == Querying
      requires completions == 0 && state == Streaming && Flat(merged) == shards[..cycle] && AllSettled(merged)
      requires if fatal then misparsed || exists d :: d in retries && retries[d] == 4 else Settled(Merged([], r))
      modifies this`state, this`completions, this`phase, this`cycle, this`size, this`merged
      ensures Valid() && merged == old(merged) + [Merged(Group(shards, old(cycle), old(size)), r)]
      ensures phase == Finished <==> fatal || old(cycle) == |shards|
      ensures phase == Finished || (phase == Querying && Next(r, old(cycle), old(size)))
    {
      hide Flat, Wanted, Capped;
      var next := Capped(Wanted(r.empty, r.timing, size), |shards| - (cycle + size), r.low);
      var m := Merged(Group(shards, cycle, size), r);
      FlatMore(merged, m);
      assert (merged + [m])[..|merged|] == merged;
      merged := merged + [m];
      Advance(next);
    }

    /** Where a merged response moves the run to. */
    ghost predicate Next(r: Response, from: nat, asked: nat)
      requires asked >= 1
      reads this
    {
      && cycle == Min(from + asked, |shards|)
      && Sized(r, asked, |shards| - (from + asked), size)
    }

    /** Where a retry leaves it: at a smaller group now, or at the same one later. */
    ghost predicate Again(from: nat, asked: nat, spent: nat)
      reads this
    {
      cycle == from && if asked > 1 then phase == Querying && size == Root(asked)
                       else phase == Waiting && size == asked && Tries(retries, cycle) == spent + 1
    }

    /** One response: retried, or merged and followed by the next group. */
    method OnResponse(r: Response)
      requires Valid() && phase == Querying
      modifies this
      ensures Valid() && Below(Standing(), old(Standing()))
      ensures merged == if Retries(r.problem, old(size), old(Tries(retries, cycle))) then old(merged)
                        else old(merged) + [Merged(Group(shards, old(cycle), old(size)), r)]
      ensures fatal == (r.problem.ParseError? || (r.problem.TimedOut? && old(size) == 1 && old(Tries(retries, cycle)) == 4))
      ensures phase != Finished && !Retries(r.problem, old(size), old(Tries(retries, cycle))) ==> phase == Querying && Next(r, old(cycle), old(size))
      ensures phase == Finished <==> fatal || (old(cycle) == |shards| && !Retries(r.problem, old(size), old(Tries(retries, cycle))))
      ensures Retries(r.problem, old(size), old(Tries(retries, cycle))) ==> Again(old(cycle), old(size), old(Tries(retries, cycle)))
      ensures retries == if Retries(r.problem, old(size), old(Tries(retries, cycle))) && old(size) == 1
                         then old(retries)[old(cycle) := old(Tries(retries, cycle)) + 1] else old(retries)
      ensures misparsed == (old(misparsed) || r.problem.ParseError?)
    {
      hide Flat, Wanted, Capped;
      if r.problem.ParseError? {
        fatal := true;
        misparsed := true;
      } else if r.problem.TimedOut? {
        RootShrinks(size);
        var again := Retry();
        if again { return; }
      }
      Merge(r);
    }

    /** A broken stream counts as a time-out, and has nothing to merge. */
    method OnBroken()
      requires Valid() && phase == Querying
      modifies this
      ensures Valid() && Below(Standing(), old(Standing())) && merged == old(merged) && misparsed == old(misparsed)
      ensures phase == Finished <==> old(size) == 1 && old(Tries(retries, cycle)) == 4
      ensures phase != Finished ==> Again(old(cycle), old(size), old(Tries(retries, cycle)))
      ensures retries == if old(size) == 1 && old(Tries(retries, cycle)) <= 3
                         then old(retries)[old(cycle) := old(Tries(retries, cycle)) + 1] else old(retries)
      ensures fatal <==> phase == Finished
    {
      RootShrinks(size);
      var again := Retry();
      if !again {
        if merged != [] { assert merged == merged[..|merged| - 1] + [merged[|merged| - 1]]; }
        Advance(size);
      }
    }

    /** Either of them. */
    method OnOutcome(outcome: Outcome)
      requires Valid() && phase == Querying
      modifies this
      ensures Valid() && Below(Standing(), old(Standing()))
      ensures fatal <==> Misparsed(outcome) || (Trouble(outcome) == 1 && old(size) == 1 && old(Tries(retries, cycle)) == 4)
      ensures retries == if Trouble(outcome) == 1 && old(size) == 1 && old(Tries(retries, cycle)) <= 3
                         then old(retries)[old(cycle) := old(Tries(retries, cycle)) + 1] else old(retries)
      ensures merged == old(merged) + if Gathered(outcome, fatal) then [Merged(Group(shards, old(cycle), old(size)), outcome.response)] else []
      ensures phase == Finished <==> fatal || (old(cycle) == |shards| && Trouble(outcome) == 0)
      ensures phase != Finished ==> Follows(shards, old(Sent(cycle, size)), outcome, Sent(cycle, size))
    {
      hide Flat, Wanted, Capped, Root, AllSettled, Everything, Group;
      match outcome
      case Answered(r) => OnResponse(r);
      case Broken => OnBroken();
    }

    /** The retry timer fires. */
    method OnTimer()
      requires Valid() && phase == Waiting
      modifies this
      ensures Valid() && Below(Standing(), old(Standing()))
      ensures phase == Querying && cycle == old(cycle) && size == old(size) && merged == old(merged)
      ensures retries == old(retries) && misparsed == old(misparsed) && fatal == old(fatal)
    {
      Query(cycle, size);
    }
  }

  /** Whether a response with this problem is asked for again. */
  predicate Retries(problem: Problem, size: nat, spent: nat) {
    problem.TimedOut? && (size > 1 || spent <= 3)
  }

  // -------- whole runs -----------------------------------------------------------------

  /** A response is merged unless it is asked for again; what made the run fatal is merged too. */
  predicate Gathered(outcome: Outcome, fatal: bool) {
    outcome.Answered? && (fatal || !outcome.response.problem.TimedOut?)
  }

  /** Troubles met at position d while one shard was asked for at a time. */
  ghost function Hits(source: nat -> Outcome, log: seq<Sent>, d: nat): nat {
    if log == [] then 0
    else
      var n := |log| - 1;
      Hits(source, log[..n], d) + if log[n] == Sent(d, 1) then Trouble(source(n)) else 0
  }

  ghost predicate SomeParseError(source: nat -> Outcome, asked: nat) {
    exists i :: 0 <= i < asked && Misparsed(source(i))
  }

  ghost predicate FiveAtOne(source: nat -> Outcome, log: seq<Sent>) {
    exists d :: Hits(source, log, d) == 5
  }

  /** The log of a run: it starts at the first shard with the whole square root, and each entry
      follows from the outcome of the one before. */
  ghost predicate Logged(shards: seq<int>, source: nat -> Outcome, log: seq<Sent>) {
    && (log != [] ==> log[0] == Sent(0, Root(|shards|)))
    && forall i :: 0 <= i < |log| - 1 ==> Follows(shards, log[i], source(i), log[i + 1])
  }

  /** The sub-query that comes after the log. */
  ghost predicate Due(shards: seq<int>, source: nat -> Outcome, log: seq<Sent>, s: Sent) {
    if log == [] then s == Sent(0, Root(|shards|)) else Follows(shards, log[|log| - 1], source(|log| - 1), s)
  }

  /** The responses merged for the entries of a log, the last of which may have ended the run. */
  ghost function Gathering(shards: seq<int>, source: nat -> Outcome, log: seq<Sent>, fatal: bool): seq<Merged>
    requires InRange(shards, log)
  {
    if log == [] then []
    else
      var n := |log| - 1;
      Gathering(shards, source, log[..n], false)
      + if Gathered(source(n), fatal) then [Merged(Group(shards, log[n].position, log[n].size), source(n).response)] else []
  }

  ghost predicate InRange(shards: seq<int>, log: seq<Sent>) {
    forall i :: 0 <= i < |log| ==> log[i].position <= |shards| && log[i].size >= 1
  }

  /** The retries counted are the troubles met. */
  ghost predicate Counted(source: nat -> Outcome, log: seq<Sent>, retries: map<nat, nat>) {
    forall d :: Hits(source, log, d) == Tries(retries, d)
  }

  lemma OneMoreHit(source: nat -> Outcome, log: seq<Sent>, s: Sent, d: nat)
    ensures Hits(source, log + [s], d) == Hits(source, log, d) + if s == Sent(d, 1) then Trouble(source(|log|)) else 0
  {
    assert (log + [s])[..|log|] == log;
  }

  lemma StillCounted(source: nat -> Outcome, log: seq<Sent>, s: Sent, retries: map<nat, nat>, after: map<nat, nat>)
    requires Counted(source, log, retries) && !(Trouble(source(|log|)) == 1 && s.size == 1 && Tries(retries, s.position) == 4)
    requires FewTries(retries)
    requires after == if Trouble(source(|log|)) == 1 && s.size == 1 && Tries(retries, s.position) <= 3
                      then retries[s.position := Tries(retries, s.position) + 1] else retries
    ensures Counted(source, log + [s], after)
  {
    hide Hits, Trouble;
    forall d ensures Hits(source, log + [s], d) == Tries(after, d) { OneMoreHit(source, log, s, d); }
  }

  lemma FifthHit(source: nat -> Outcome, log: seq<Sent>, s: Sent, retries: map<nat, nat>)
    requires Counted(source, log, retries) && Trouble(source(|log|)) == 1 && s.size == 1 && Tries(retries, s.position) == 4
    ensures FiveAtOne(source, log + [s])
  {
    OneMoreHit(source, log, s, s.position);
  }

  lemma NoFifth(source: nat -> Outcome, log: seq<Sent>, retries: map<nat, nat>)
    requires Counted(source, log, retries) && FewTries(retries)
    ensures !FiveAtOne(source, log)
  {
    hide Hits;
  }

  lemma ParseErrorSeen(source: nat -> Outcome, n: nat)
    ensures SomeParseError(source, n + 1) <==> SomeParseError(source, n) || Misparsed(source(n))
  {
    hide Misparsed;
  }

  lemma LogGrows(shards: seq<int>, source: nat -> Outcome, log: seq<Sent>, s: Sent)
    requires Logged(shards, source, log) && Due(shards, source, log, s)
    ensures Logged(shards, source, log + [s])
  {
    hide Follows, Root;
  }

  lemma GatheringGrows(shards: seq<int>, source: nat -> Outcome, log: seq<Sent>, s: Sent, fatal: bool)
    requires InRange(shards, log) && s.position <= |shards| && s.size >= 1
    ensures InRange(shards, log + [s])
    ensures Gathering(shards, source, log + [s], fatal) == Gathering(shards, source, log, false)
              + if Gathered(source(|log|), fatal) then [Merged(Group(shards, s.position, s.size), source(|log|).response)] else []
  {
    hide Gathered, Group;
    assert (log + [s])[..|log|] == log;
  }

  /** How a run stands after the outcomes of the log. */
  ghost predicate Recorded(shards: seq<int>, source: nat -> Outcome, log: seq<Sent>, merged: seq<Merged>, fatal: bool) {
    && Logged(shards, source, log) && InRange(shards, log)
    && merged == Gathering(shards, source, log, fatal)
    && (fatal <==> SomeParseError(source, |log|) || FiveAtOne(source, log))
  }

  lemma RecordStarts(shards: seq<int>, source: nat -> Outcome)
    ensures Recorded(shards, source, [], [], false) && Counted(source, [], map[])
    ensures Due(shards, source, [], Sent(0, Root(|shards|)))
  {
  }

  /** One outcome more. */
  lemma RecordKept(shards: seq<int>, source: nat -> Outcome, log: seq<Sent>, s: Sent, merged: seq<Merged>, after: seq<Merged>,
                   retries: map<nat, nat>, retries2: map<nat, nat>, fatal: bool)
    requires Recorded(shards, source, log, merged, false) && Counted(source, log, retries) && FewTries(retries) && FewTries(retries2)
    requires Due(shards, source, log, s) && s.position <= |shards| && s.size >= 1
    requires fatal <==> Misparsed(source(|log|)) || (Trouble(source(|log|)) == 1 && s.size == 1 && Tries(retries, s.position) == 4)
    requires retries2 == if Trouble(source(|log|)) == 1 && s.size == 1 && Tries(retries, s.position) <= 3
                         then retries[s.position := Tries(retries, s.position) + 1] else retries
    requires after == merged + if Gathered(source(|log|), fatal) then [Merged(Group(shards, s.position, s.size), source(|log|).response)] else []
    ensures Recorded(shards, source, log + [s], after, fatal)
    ensures !fatal ==> Counted(source, log + [s], retries2)
  {
    hide Logged, Due, Hits, Counted, FewTries, FiveAtOne, SomeParseError, Misparsed, Trouble, Gathered, Gathering, InRange, Group, Tries, Follows;
    LogGrows(shards, source, log, s);
    GatheringGrows(shards, source, log, s, fatal);
    ParseErrorSeen(source, |log|);
    if Trouble(source(|log|)) == 1 && s.size == 1 && Tries(retries, s.position) == 4 {
      FifthHit(source, log, s, retries);
    } else {
      StillCounted(source, log, s, retries, retries2);
      NoFifth(source, log + [s], retries2);
    }
  }

  /** Every run, whatever the data source answers to its i-th sub-query: it ends; it ends with
      everything merged once if there was no parse error and never a fifth trouble with one shard
      at one position, and in error otherwise; and the log says what was sent and merged. */
  method Run(shards: seq<int>, source: nat -> Outcome) returns (merged: seq<Merged>, state: LoadingState, ghost log: seq<Sent>)
    requires shards != []
    ensures state.Failed? <==> SomeParseError(source, |log|) || FiveAtOne(source, log)
    ensures state.Done? <==> !state.Failed?
    ensures state.Done? ==> Flat(merged) == Everything(shards) && AllSettled(merged)
    ensures Flat(merged) <= Everything(shards)
    ensures Logged(shards, source, log) && InRange(shards, log) && merged == Gathering(shards, source, log, state.Failed?)
  {
    hide Flat, Wanted, Capped, Root, AllSettled, Trouble, Follows, Hits, Gathering, Logged, FiveAtOne, SomeParseError, Group, Gathered, Misparsed, Tries, Counted, FewTries, InRange, Everything;
    var runner := new Runner(shards);
    var asked := 0;
    log := [];
    RecordStarts(shards, source);
    while runner.phase != Finished
      invariant runner.Valid() && runner.shards == shards && fresh(runner) && asked == |log|
      invariant Recorded(shards, source, log, runner.merged, runner.fatal)
      invariant !runner.fatal ==> Counted(source, log, runner.retries)
      invariant runner.phase != Finished ==> Due(shards, source, log, Sent(runner.cycle, runner.size))
      decreases runner.Standing().open, runner.Standing().shards, runner.Standing().size, runner.Standing().retries, runner.Standing().waiting
    {
      if runner.phase == Waiting {
        runner.OnTimer();
      } else {
        ghost var sent, before, tried := Sent(runner.cycle, runner.size), runner.merged, runner.retries;
        runner.OnOutcome(source(asked));
        RecordKept(shards, source, log, sent, before, runner.merged, tried, runner.retries, runner.fatal);
        log := log + [sent];
        asked := asked + 1;
      }
    }
    merged, state := runner.merged, runner.state;
  }
}
