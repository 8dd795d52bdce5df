/**
 * LapisMineRunnable: the once-per-tick task runner. Each tick it records the
 * clock in a TickTimeStorage and runs queued mine tasks until its time budget
 * is spent; once a second it retunes the budget from the server's measured
 * ticks per second.
 *
 * The clock (System.nanoTime) is a parameter: the readings one tick takes,
 * `clock[0]` at the start of the tick and `clock[k]` before the k-th poll of
 * the task queue; a tick polls at most once per queued task and once more.
 * What a mine task does when it runs is not part of this module.
 */
module Scheduler {

  import opened Wrappers
  import opened TickHistory

  /** A queued MineTask, known only by identity. */
  type TaskId = nat

  /** maxMillisPerTick: the largest budget a tick may spend on mine tasks. */
  const MaxMillisPerTick: int := 5
  /** The capacity of the tick history. */
  const HistorySize: nat := 25
  /** How many of the oldest readings calculateAdjustment looks at. */
  const Window: int := 20
  /** Ticks per second of a healthy server: Math.min(..., 20). */
  const FullSpeed: real := 20.0

  /** (long) (t / 1E6): nanoseconds to whole milliseconds, truncated toward zero. */
  function NanosToMillis(t: int): (ms: int)
    ensures t >= 0 ==> 0 <= ms * 1_000_000 <= t < ms * 1_000_000 + 1_000_000
    ensures t < 0 ==> ms * 1_000_000 - 1_000_000 < t <= ms * 1_000_000 <= 0
  {
    if t >= 0 then t / 1_000_000 else -((-t) / 1_000_000)
  }

  /** The conversion is symmetric around zero, as truncation is. */
  lemma NanosToMillisOdd(t: int)
    ensures NanosToMillis(-t) == -NanosToMillis(t)
  {
  }

  function Min(a: real, b: real): real
  {
    if a <= b then a else b
  }

  /** The span in milliseconds between the first and the last reading. */
  function SpanMillis(entries: seq<int>): int
    requires entries != []
  {
    NanosToMillis(entries[|entries| - 1]) - NanosToMillis(entries[0])
  }

  /** limitedTicksPerSecond: 1000 / (span / n), capped at 20; a zero span
      divides by zero to +Infinity and so reads as full speed. */
  function LimitedTps(entries: seq<int>): (tps: real)
    requires entries != []
    ensures tps <= FullSpeed
    ensures SpanMillis(entries) == 0 ==> tps == FullSpeed
    ensures SpanMillis(entries) > 0 ==> tps > 0.0
    ensures SpanMillis(entries) < 0 ==> tps < 0.0
  {
    var span := SpanMillis(entries);
    if span == 0 then FullSpeed
    else Min(1000.0 * |entries| as real / span as real, FullSpeed)
  }

  /** What calculateAdjustment takes off the maximum budget at a given rate. */
  function Penalty(tps: real): (p: int)
    ensures 0 <= p <= 4
    ensures tps >= 19.0 <==> p == 0
    ensures tps < 10.0 <==> p == 4
  {
    if tps < 10.0 then 4
    else if tps < 15.0 then 3
    else if tps < 18.0 then 2
    else if tps < 19.0 then 1
    else 0
  }

  /** A faster server is never penalised more than a slower one. */
  lemma PenaltyMonotone(slow: real, fast: real)
    requires slow <= fast
    ensures Penalty(fast) <= Penalty(slow)
  {
  }

  lemma QuotientAtLeast(a: real, b: real, c: real)
    requires b > 0.0 && a >= c * b
    ensures a / b >= c
  {
    var q := a / b;
    assert q * b == a;
    if q < c {
      assert (c - q) * b > 0.0;
    }
  }

  lemma QuotientBelow(a: real, b: real, c: real)
    requires b > 0.0 && a < c * b
    ensures a / b < c
  {
    var q := a / b;
    assert q * b == a;
  }

  /** Ticks at least 19 per second apart cost nothing. */
  lemma HealthyTicksNoPenalty(entries: seq<int>)
    requires entries != [] && SpanMillis(entries) > 0
    requires 1000 * |entries| >= 19 * SpanMillis(entries)
    ensures Penalty(LimitedTps(entries)) == 0
  {
    var span := SpanMillis(entries) as real;
    var n := |entries| as real;
    QuotientAtLeast(1000.0 * n, span, 19.0);
  }

  /** Under 10 ticks per second the budget drops to its minimum of 1 ms. */
  lemma StalledTicksFullPenalty(entries: seq<int>)
    requires entries != [] && SpanMillis(entries) > 0
    requires 1000 * |entries| < 10 * SpanMillis(entries)
    ensures Penalty(LimitedTps(entries)) == 4
  {
    var span := SpanMillis(entries) as real;
    var n := |entries| as real;
    QuotientBelow(1000.0 * n, span, 10.0);
  }

  /** The tasks one tick runs: poll while the clock reading taken before a
      poll is within `stop` and the queue is not empty. `k` is the index of
      the next clock reading. */
  function Drain(queue: seq<TaskId>, clock: seq<int>, k: nat, stop: int): (ran: seq<TaskId>)
    requires k + |queue| < |clock|
    ensures |ran| <= |queue| && ran == queue[..|ran|]
    ensures forall j :: k <= j < k + |ran| ==> clock[j] <= stop
    ensures |ran| < |queue| ==> clock[k + |ran|] > stop
    decreases |queue|
  {
    if clock[k] > stop || queue == [] then []
    else [queue[0]] + Drain(queue[1..], clock, k + 1, stop)
  }

  /** Drain is the only run that takes a prefix of the queue, polls within
      `stop` for every task it takes, and stops only when out of time or tasks. */
  lemma {:induction false} DrainUnique(queue: seq<TaskId>, clock: seq<int>, k: nat, stop: int,
                                       ran: seq<TaskId>, rest: seq<TaskId>)
    requires queue == ran + rest && k + |queue| < |clock|
    requires forall j :: k <= j < k + |ran| ==> clock[j] <= stop
    requires rest != [] ==> clock[k + |ran|] > stop
    ensures Drain(queue, clock, k, stop) == ran
    decreases |ran|
  {
    if ran == [] {
      assert queue == rest;
    } else {
      assert clock[k] <= stop;
      assert queue[0] == ran[0];
      assert queue[1..] == ran[1..] + rest;
      DrainUnique(queue[1..], clock, k + 1, stop, ran[1..], rest);
      assert ran == [ran[0]] + ran[1..];
    }
  }

  class LapisMineRunnable {
    /** taskDeque, head first. */
    var queue: seq<TaskId>
    /** tickTimeStorage */
    const history: TickTimeStorage
    /** currentMillisPerTick, a whole number of milliseconds. */
    var budget: int

    ghost predicate Valid()
      reads this, history
    {
      && 1 <= budget <= MaxMillisPerTick
      && history.size == HistorySize
      && history.Valid()
    }

    /** The constructor; the two timers it registers are the caller's business. */
    constructor ()
      ensures queue == [] && budget == MaxMillisPerTick
      ensures fresh(history) && history.times == []
      ensures Valid()
    {
      queue := [];
      history := new TickTimeStorage(HistorySize);
      budget := MaxMillisPerTick;
    }

    /** addTask: enqueue at the tail. */
    method AddTask(task: TaskId)
      modifies this
      ensures queue == old(queue) + [task]
      ensures budget == old(budget)
    {
      queue := queue + [task];
    }

    /** run: record the tick's start, then run tasks until the budget is spent. */
    method Run(clock: seq<int>) returns (ran: seq<TaskId>)
      requires Valid() && |queue| + 1 < |clock|
      modifies this, history
      ensures Valid()
      ensures history.times == Retained(old(history.times) + [clock[0]], HistorySize)
      ensures budget == old(budget)
      ensures old(queue) == ran + queue
      ensures ran == Drain(old(queue), clock, 1, clock[0] + budget * 1_000_000)
    {
      var systemNanos := clock[0];
      history.Add(systemNanos);
      var nanosThisTick := budget * 1_000_000;
      var stopTime := systemNanos + nanosThisTick;
      ran := RunTasks(clock, stopTime);
    }

    /** The polling loop of run: while the clock reading before a poll is
        within `stopTime` and a task is queued, take the head and run it. */
    method RunTasks(clock: seq<int>, stopTime: int) returns (ran: seq<TaskId>)
      requires |queue| + 1 < |clock|
      modifies this
      ensures budget == old(budget)
      ensures old(queue) == ran + queue
      ensures ran == Drain(old(queue), clock, 1, stopTime)
    {
      ran := [];
      var k := 1;
      while clock[k] <= stopTime && queue != []
        invariant budget == old(budget)
        invariant k == |ran| + 1
        invariant old(queue) == ran + queue && k + |queue| < |clock|
        invariant forall j :: 1 <= j < k ==> clock[j] <= stopTime
        decreases |queue|
      {
        ran := ran + [queue[0]];
        queue := queue[1..];
        k := k + 1;
      }
      DrainUnique(old(queue), clock, 1, stopTime, ran, queue);
    }

    /** calculateAdjustment: the change that brings the budget to the maximum
        less the penalty of the measured rate. The source reads the last of
        the entries, which fails on an empty history: nothing then. */
    function CalculateAdjustment(): (adj: Option<int>)
      reads this, history
      ensures adj.None? <==> history.times == []
      ensures adj.Some? ==>
        budget + adj.value == MaxMillisPerTick - Penalty(LimitedTps(Oldest(history.times, Window)))
    {
      var entries := Oldest(history.times, Window);
      if entries == [] then None
      else Some(MaxMillisPerTick - budget - Penalty(LimitedTps(entries)))
    }

    /** The once-a-second retune: currentMillisPerTick += calculateAdjustment(). */
    method Retune()
      modifies this
      ensures queue == old(queue)
      ensures history.times == [] ==> budget == old(budget)
      ensures history.times != [] ==>
        budget == MaxMillisPerTick - Penalty(LimitedTps(Oldest(history.times, Window)))
      ensures old(Valid()) ==> Valid()
    {
      var adj := CalculateAdjustment();
      if adj.Some? {
        budget := budget + adj.value;
      }
    }
  }

  /** A retuned budget stays within 1 to 5 ms, whatever the history holds. */
  lemma RetunedBudgetInRange(entries: seq<int>)
    requires entries != []
    ensures 1 <= MaxMillisPerTick - Penalty(LimitedTps(entries)) <= MaxMillisPerTick
  {
  }
}
