/** The sliding-window limiter. */
module Deadlines {
  import opened Queues

  datatype Timespec = Timespec(sec: int, nsec: int)

  const NANOS: int := 1_000_000_000

  function Nanos(t: Timespec): int {
    t.sec * NANOS + t.nsec
  }

  function DifferenceInNanos(left: Timespec, right: Timespec): (d: int)
    ensures d == Nanos(left) - Nanos(right)
  {
    var sec, nsec := left.sec - right.sec, left.nsec - right.nsec;
    sec * NANOS + nsec
  }

  /** CLOCK_MONOTONIC: any clock that never runs backwards. */
  class Clock {
    var time: Timespec

    constructor () {
      time := Timespec(0, 0);
    }

    method Now() returns (now: Timespec)
      modifies this
      ensures now == time && Nanos(old(time)) <= Nanos(now)
    {
      var later: Timespec := *;
      if Nanos(time) <= Nanos(later) {
        time := later;
      }
      now := time;
    }
  }

  ghost predicate Sorted(history: seq<Timespec>) {
    forall i, j :: 0 <= i < j < |history| ==> Nanos(history[i]) <= Nanos(history[j])
  }

  /** How many recorded events lie within the last maxTime nanoseconds. */
  function CountWithin(history: seq<Timespec>, now: Timespec, maxTime: int): nat {
    if history == [] then 0
    else CountWithin(history[1..], now, maxTime) + if Nanos(now) - Nanos(history[0]) <= maxTime then 1 else 0
  }

  lemma {:induction false} CountAll(history: seq<Timespec>, now: Timespec, maxTime: int)
    ensures CountWithin(history, now, maxTime) <= |history|
    ensures (forall i :: 0 <= i < |history| ==> Nanos(now) - Nanos(history[i]) <= maxTime)
            ==> CountWithin(history, now, maxTime) == |history|
  {
    if history == [] {
    } else {
      CountAll(history[1..], now, maxTime);
    }
  }

  /** In a sorted history, at least n events are recent exactly when the n-th last one is. */
  lemma {:induction false} CountBySample(history: seq<Timespec>, now: Timespec, maxTime: int, n: nat)
    requires Sorted(history) && 0 < n
    ensures CountWithin(history, now, maxTime) >= n
            <==> n <= |history| && Nanos(now) - Nanos(history[|history| - n]) <= maxTime
  {
    CountAll(history, now, maxTime);
    if n < |history| {
      CountBySample(history[1..], now, maxTime, n);
    } else if n == |history| {
      CountAll(history[1..], now, maxTime);
    }
  }

  /** No maxCount + 1 consecutive events lie within maxTime of each other. */
  ghost predicate RateBounded(history: seq<Timespec>, maxCount: nat, maxTime: int) {
    forall i, j :: 0 <= i && i + maxCount == j < |history| ==> Nanos(history[j]) - Nanos(history[i]) > maxTime
  }

  /** How many events fall into the window of length maxTime that starts at a given instant. */
  function CountInWindow(history: seq<Timespec>, from: int, maxTime: int): nat {
    if history == [] then 0
    else CountInWindow(history[1..], from, maxTime) + if from <= Nanos(history[0]) <= from + maxTime then 1 else 0
  }

  lemma {:induction false} CountInWindowSplit(history: seq<Timespec>, from: int, maxTime: int, n: nat)
    requires n <= |history|
    requires forall k :: n <= k < |history| ==> Nanos(history[k]) > from + maxTime
    ensures CountInWindow(history, from, maxTime) <= n
  {
    if history == [] {
    } else {
      CountInWindowSplit(history[1..], from, maxTime, if n == 0 then 0 else n - 1);
    }
  }

  /** Whichever window of length maxTime is looked at, at most maxCount events fall into it. */
  lemma {:induction false} WindowHoldsAtMost(history: seq<Timespec>, maxCount: nat, maxTime: int, from: int)
    requires Sorted(history) && RateBounded(history, maxCount, maxTime)
    ensures CountInWindow(history, from, maxTime) <= maxCount
  {
    if history == [] {
    } else if from <= Nanos(history[0]) {
      if maxCount < |history| {
        assert Nanos(history[0 + maxCount]) - Nanos(history[0]) > maxTime;
        CountInWindowSplit(history, from, maxTime, maxCount);
      } else {
        CountInWindowSplit(history, from, maxTime, |history|);
      }
    } else {
      var rest := history[1..];
      assert forall i :: 0 <= i < |rest| ==> rest[i] == history[i + 1];
      WindowHoldsAtMost(rest, maxCount, maxTime, from);
    }
  }

  /** The window is LastOf(history, capacity), element by element. */
  ghost predicate Holds(window: seq<Timespec>, history: seq<Timespec>, capacity: int) {
    && |window| == (if |history| <= capacity then |history| else capacity)
    && forall k :: 0 <= k < |window| ==> window[k] == history[|history| - |window| + k]
  }

  lemma HoldsIsLastOf(window: seq<Timespec>, history: seq<Timespec>, capacity: nat)
    ensures Holds(window, history, capacity) <==> window == LastOf(history, capacity)
  {
  }

  lemma HoldsMore(window: seq<Timespec>, history: seq<Timespec>, capacity: nat, t: Timespec)
    requires 0 < capacity && Holds(window, history, capacity)
    ensures Holds(Pushed(window, capacity, t), history + [t], capacity)
  {
    HoldsIsLastOf(window, history, capacity);
    PushedKeepsLast(history, capacity, t);
    HoldsIsLastOf(Pushed(window, capacity, t), history + [t], capacity);
  }

  class Deadline {
    const queue: Queue<Timespec>
    const maxTime: int
    const maxHealthCheckTime: int
    ghost var history: seq<Timespec>  // every increment ever made
    ghost const maxCount: int

    ghost predicate Valid()
      reads this, queue
    {
      && queue.Valid() && queue.maxCount == maxCount
      && Sorted(history)
      && Holds(queue.Contents(), history, maxCount)
    }

    /** No increment lies in the future. */
    ghost predicate Past(now: Timespec)
      reads this
    {
      history == [] || Nanos(history[|history| - 1]) <= Nanos(now)
    }

    constructor (maxCount: int := 25, maxTime: int := 10 * NANOS, maxHealthCheckTime: int := 30 * NANOS)
      requires 0 < maxCount
      ensures Valid() && history == [] && fresh(queue)
      ensures this.maxCount == maxCount && this.maxTime == maxTime && this.maxHealthCheckTime == maxHealthCheckTime
    {
      queue := new Queue(maxCount, Timespec(0, 0));
      this.maxTime, this.maxHealthCheckTime, this.maxCount := maxTime, maxHealthCheckTime, maxCount;
      history := [];
    }

    function MaxCount(): int
      reads queue
    {
      queue.maxCount
    }

    /** Deadline::operator bool: the one comparison with the oldest sample decides whether at least
        maxCount of all increments ever made are recent. */
    method Breached(clock: Clock) returns (breached: bool)
      requires Valid() && Past(clock.time)
      modifies clock
      ensures Past(clock.time) && Nanos(old(clock.time)) <= Nanos(clock.time)
      ensures breached <==> CountWithin(history, clock.time, maxTime) >= maxCount
      ensures breached ==> |history| >= maxCount
      ensures !breached && |history| >= maxCount ==>
                Nanos(clock.time) - Nanos(history[|history| - maxCount]) > maxTime
    {
      var curTime := clock.Now();
      CountBySample(history, curTime, maxTime, maxCount);
      if queue.IsFull() {
        return DifferenceInNanos(curTime, queue.First()) <= maxTime;
      }
      return false;
    }

    method HealthCheckNeeded(clock: Clock) returns (needed: bool)
      requires Valid()
      modifies clock
      ensures Nanos(old(clock.time)) <= Nanos(clock.time)
      ensures needed <==> history != [] && Nanos(clock.time) - Nanos(history[|history| - 1]) > maxHealthCheckTime
    {
      var curTime := clock.Now();
      if queue.rear != -1 {
        return DifferenceInNanos(curTime, queue.Last()) > maxHealthCheckTime;
      }
      return false;
    }

    method Increment(clock: Clock)
      requires Valid() && Past(clock.time)
      modifies this, queue, clock
      ensures Valid() && Past(clock.time) && Nanos(old(clock.time)) <= Nanos(clock.time)
      ensures history == old(history) + [clock.time]
    {
      var curTime := clock.Now();
      HoldsMore(queue.Contents(), history, maxCount, curTime);
      hide Holds, Pushed;
      queue.Add(curTime);
      history := history + [curTime];
    }
  }
}
