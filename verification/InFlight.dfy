/**
 The in-flight counter that limits concurrent requests (src/inflight.rs): guards count requests and
 their sizes, and a task that finds the counter exhausted is woken when a guard is dropped.
 */
module InFlight {
  import opened Prelude

  type Cap = n: nat | n < U16

  /** Zero means unlimited, for both limits. */
  datatype Limits = Limits(maxCap: Cap, maxSize: nat)

  /** `curCap` is a `u16` cell. `guards` are the sizes of the live guards, oldest first. */
  datatype Counter = Counter(curCap: nat, curSize: int, registered: bool, wakes: nat, guards: seq<nat>)

  /** `Call` creates a guard, `Finish` drops one, `Poll` is one poll of `available`. */
  datatype Event = Call(size: nat) | Finish(guard: nat) | Poll

  function Initially(): Counter { Counter(0, 0, false, 0, []) }

  predicate Available(l: Limits, c: Counter)
  {
    && (l.maxCap == 0 || c.curCap < l.maxCap)
    && (l.maxSize == 0 || c.curSize <= l.maxSize)
  }

  function Inc(c: Counter, size: nat): Counter
  {
    c.(curCap := if c.curCap + 1 == U16 then 0 else c.curCap + 1, curSize := c.curSize + size,
       guards := c.guards + [size])
  }

  function Remove(s: seq<nat>, k: nat): seq<nat>
    requires k < |s|
  {
    s[..k] + s[k + 1..]
  }

  function Dec(l: Limits, c: Counter, k: nat): Counter
    requires k < |c.guards|
  {
    var size := c.guards[k];
    var wake := c.curCap == l.maxCap || (c.curSize > l.maxSize && c.curSize - size <= l.maxSize);
    Counter(if c.curCap == 0 then U16 - 1 else c.curCap - 1, c.curSize - size,
            c.registered && !wake, if wake then c.wakes + 1 else c.wakes, Remove(c.guards, k))
  }

  /** `InFlightService::call` counts sizes only when there is a size limit. */
  function Counted(l: Limits, size: nat): nat { if l.maxSize > 0 then size else 0 }

  function Step(l: Limits, c: Counter, e: Event): Counter
  {
    match e
    case Call(size) => Inc(c, Counted(l, size))
    case Finish(k) => if k < |c.guards| then Dec(l, c, k) else c
    case Poll => if Available(l, c) then c else c.(registered := true)
  }

  function Run(l: Limits, c: Counter, events: seq<Event>): Counter
    decreases |events|
  {
    if events == [] then c else Run(l, Step(l, c, events[0]), events[1..])
  }

  function Sum(s: seq<nat>): nat
  {
    if s == [] then 0 else Sum(s[..|s| - 1]) + s[|s| - 1]
  }

  lemma {:induction false} SumConcat(a: seq<nat>, b: seq<nat>)
    ensures Sum(a + b) == Sum(a) + Sum(b)
  {
    if b == [] {
      assert a + b == a;
    } else {
      assert (a + b)[..|a + b| - 1] == a + b[..|b| - 1];
      SumConcat(a, b[..|b| - 1]);
    }
  }

  lemma {:induction false} SumRemove(s: seq<nat>, k: nat)
    requires k < |s|
    ensures Sum(Remove(s, k)) == Sum(s) - s[k]
  {
    var front := s[..|s| - 1];
    if k == |s| - 1 {
      assert Remove(s, k) == front;
    } else {
      SumRemove(front, k);
      assert Remove(s, k)[..|s| - 2] == Remove(front, k);
    }
  }

  // ---------------------------------------------------------------- every run

  /** The cells describe the live guards. */
  predicate Exact(c: Counter) { c.curCap == |c.guards| % U16 && c.curSize == Sum(c.guards) }

  lemma ModStep(n: nat)
    ensures (n + 1) % U16 == if n % U16 + 1 == U16 then 0 else n % U16 + 1
    ensures n % U16 == if (n + 1) % U16 == 0 then U16 - 1 else (n + 1) % U16 - 1
  {
  }

  lemma ExactStep(l: Limits, c: Counter, e: Event)
    requires Exact(c)
    ensures Exact(Step(l, c, e))
  {
    match e {
      case Call(size) =>
        ModStep(|c.guards|);
        assert (c.guards + [Counted(l, size)])[..|c.guards|] == c.guards;
      case Finish(k) =>
        if k < |c.guards| {
          ModStep(|c.guards| - 1);
          SumRemove(c.guards, k);
        }
      case Poll =>
    }
  }

  /** A registered task is still needed: the counter is still exhausted. */
  predicate Served(l: Limits, c: Counter) { c.registered ==> !Available(l, c) }

  /** A call makes the `u16` count wrap to 0 while a task waits for it and the size is no obstacle. */
  predicate WrapsUnderWaiter(l: Limits, c: Counter, e: Event)
  {
    && e.Call? && c.registered && l.maxCap > 0 && c.curCap == U16 - 1
    && (l.maxSize == 0 || c.curSize + Counted(l, e.size) <= l.maxSize)
  }

  /** One step keeps waiting tasks served exactly when the count does not wrap under them. */
  lemma WakeupStep(l: Limits, c: Counter, e: Event)
    requires Exact(c) && Served(l, c)
    ensures Served(l, Step(l, c, e)) <==> !WrapsUnderWaiter(l, c, e)
  {
    hide Sum;
    assert c.curCap < U16;
  }

  /** In every state of the run, a task that registered since the last wake-up is still needed. */
  predicate AlwaysServed(l: Limits, c: Counter, events: seq<Event>)
    decreases |events|
  {
    Served(l, c) && (events == [] || AlwaysServed(l, Step(l, c, events[0]), events[1..]))
  }

  predicate NeverWraps(l: Limits, c: Counter, events: seq<Event>)
    decreases |events|
  {
    events == [] || (!WrapsUnderWaiter(l, c, events[0]) && NeverWraps(l, Step(l, c, events[0]), events[1..]))
  }

  /** No wake-up is lost in a run exactly when the count never wraps under a waiting task. */
  lemma {:induction false} WaitersAreWoken(l: Limits, c: Counter, events: seq<Event>)
    requires Exact(c) && Served(l, c)
    ensures AlwaysServed(l, c, events) <==> NeverWraps(l, c, events)
    decreases |events|
  {
    hide Step, Exact, Served, WrapsUnderWaiter;
    if events != [] {
      ExactStep(l, c, events[0]);
      WakeupStep(l, c, events[0]);
      if !WrapsUnderWaiter(l, c, events[0]) {
        WaitersAreWoken(l, Step(l, c, events[0]), events[1..]);
      } else {
        assert !AlwaysServed(l, Step(l, c, events[0]), events[1..]);
      }
    }
  }

  lemma {:induction false} RunLast(l: Limits, c: Counter, events: seq<Event>, e: Event)
    ensures Run(l, c, events + [e]) == Step(l, Run(l, c, events), e)
    decreases |events|
  {
    hide Step;
    if events == [] {
      assert Run(l, c, [e]) == Run(l, Step(l, c, e), []);
    } else {
      assert (events + [e])[1..] == events[1..] + [e];
      RunLast(l, Step(l, c, events[0]), events[1..], e);
    }
  }

  /** `n` calls in a row that nobody waited for. */
  lemma {:induction false} ManyCalls(l: Limits, n: nat) returns (events: seq<Event>)
    requires n < U16
    ensures var c := Run(l, Initially(), events); c.curCap == n && !c.registered
  {
    if n == 0 {
      events := [];
    } else {
      var before := ManyCalls(l, n - 1);
      events := before + [Call(0)];
      RunLast(l, Initially(), before, Call(0));
    }
  }

  /** 65,536 guards look like none: a task keeps waiting although the counter is available again. */
  lemma OverflowLosesWakeup() returns (events: seq<Event>)
    ensures var l := Limits(1, 0); var c := Run(l, Initially(), events); c.registered && Available(l, c)
  {
    hide Run;
    var l := Limits(1, 0);
    var full := ManyCalls(l, U16 - 1);
    RunLast(l, Initially(), full, Poll);
    RunLast(l, Initially(), full + [Poll], Call(0));
    events := full + [Poll] + [Call(0)];
  }

  /** A call takes one slot and, under a size limit, its size; without one sizes do not count. */
  lemma CallCounts(l: Limits, c: Counter, size: nat)
    requires Exact(c)
    ensures var c' := Step(l, c, Call(size));
      && |c'.guards| == |c.guards| + 1 && c'.guards[..|c.guards|] == c.guards
      && c'.guards[|c.guards|] == (if l.maxSize == 0 then 0 else size)
      && c'.curSize == c.curSize + (if l.maxSize == 0 then 0 else size)
      && c'.registered == c.registered && c'.wakes == c.wakes
  {
  }

  /** There is room exactly while both limits that are set have some left, in terms of the live guards. */
  lemma AvailableExactly(l: Limits, c: Counter)
    requires Exact(c) && |c.guards| < U16
    ensures Available(l, c) <==>
      (l.maxCap == 0 || |c.guards| < l.maxCap) && (l.maxSize == 0 || Sum(c.guards) <= l.maxSize)
  {
  }

  /** A poll registers the task exactly when there is no room; only the end of a request takes that back. */
  lemma PollRegisters(l: Limits, c: Counter)
    ensures var c' := Step(l, c, Poll);
      c'.registered == (c.registered || !Available(l, c)) && c'.guards == c.guards && c'.wakes == c.wakes
  {
  }

  /**
   The end of a request gives back its slot and size, and wakes the task exactly when the count was at its
   maximum or the size falls back to its limit.
   */
  lemma FinishGivesBack(l: Limits, c: Counter, k: nat)
    requires Exact(c) && k < |c.guards| < U16
    ensures var c' := Step(l, c, Finish(k)); var sum, sum' := Sum(c.guards), Sum(c'.guards);
      && c'.guards == c.guards[..k] + c.guards[k + 1..] && sum' == sum - c.guards[k]
      && var woken := |c.guards| == l.maxCap || (sum > l.maxSize >= sum');
         c'.wakes == c.wakes + (if woken then 1 else 0) && c'.registered == (c.registered && !woken)
  {
    SumRemove(c.guards, k);
  }

  // ---------------------------------------------------------------- polite callers

  /** Every call is made while the counter is available, as `ready` demands. */
  predicate Polite(l: Limits, c: Counter, events: seq<Event>)
    decreases |events|
  {
    events == [] || ((events[0].Call? ==> Available(l, c)) && Polite(l, Step(l, c, events[0]), events[1..]))
  }

  /** Callers who wait for `ready` cannot make the count wrap under a waiting task: no wake-up is lost. */
  lemma {:induction false} PoliteCallersAreWoken(l: Limits, c: Counter, events: seq<Event>)
    requires Exact(c) && Served(l, c) && Polite(l, c, events)
    ensures AlwaysServed(l, c, events) && Served(l, Run(l, c, events))
    decreases |events|
  {
    hide Sum, Exact;
    if events != [] {
      ExactStep(l, c, events[0]);
      WakeupStep(l, c, events[0]);
      PoliteCallersAreWoken(l, Step(l, c, events[0]), events[1..]);
    }
  }

  /** At most `maxCap` guards; without one of them their total size is within `maxSize`. */
  ghost predicate Bounded(l: Limits, c: Counter)
  {
    && (l.maxCap > 0 ==> |c.guards| <= l.maxCap)
    && (l.maxSize > 0 ==>
          || Sum(c.guards) <= l.maxSize
          || exists k :: 0 <= k < |c.guards| && Sum(c.guards) - c.guards[k] <= l.maxSize)
  }

  lemma FinishBounded(l: Limits, c: Counter, k: nat)
    requires Exact(c) && Bounded(l, c) && k < |c.guards|
    ensures Bounded(l, Dec(l, c, k))
  {
    SumRemove(c.guards, k);
    var gs, gs' := c.guards, Remove(c.guards, k);
    if l.maxSize > 0 && Sum(gs) > l.maxSize {
      var j :| 0 <= j < |gs| && Sum(gs) - gs[j] <= l.maxSize;
      if j < k {
        assert gs'[j] == gs[j];
      } else if j > k {
        assert gs'[j - 1] == gs[j];
      }
    }
  }

  lemma SumOne(size: nat)
    ensures Sum([size]) == size
  {
  }

  lemma CallBounded(l: Limits, c: Counter, size: nat)
    requires Exact(c) && Bounded(l, c) && Available(l, c)
    ensures Bounded(l, Inc(c, size))
  {
    hide Sum;
    SumConcat(c.guards, [size]);
    SumOne(size);
    var c' := Inc(c, size);
    assert l.maxCap > 0 ==> |c'.guards| <= l.maxCap;
    assert c'.guards[|c.guards|] == size && Sum(c'.guards) - size == c.curSize;
  }

  /**
   If calls are made only when the counter is available, live guards stay within `maxCap` and their
   total size exceeds `maxSize` by at most one request.
   */
  lemma {:induction false} PoliteRunsAreBounded(l: Limits, c: Counter, events: seq<Event>)
    requires Exact(c) && Bounded(l, c) && Polite(l, c, events)
    ensures Exact(Run(l, c, events)) && Bounded(l, Run(l, c, events))
    decreases |events|
  {
    if events != [] {
      ExactStep(l, c, events[0]);
      match events[0] {
        case Call(size) => CallBounded(l, c, Counted(l, size));
        case Finish(k) => if k < |c.guards| { FinishBounded(l, c, k); }
        case Poll =>
      }
      PoliteRunsAreBounded(l, Step(l, c, events[0]), events[1..]);
    }
  }

  // ---------------------------------------------------------------- the code

  /** `CounterInner`; `guards` stands for the `CounterGuard`s that exist. */
  class CounterInner {
    const limits: Limits
    var curCap: nat
    var curSize: int
    var task: bool
    var wakes: nat
    var guards: seq<nat>

    ghost function View(): Counter
      reads this
    {
      Counter(curCap, curSize, task, wakes, guards)
    }

    constructor (limits: Limits)
      ensures View() == Initially() && this.limits == limits
    {
      this.limits := limits;
      curCap, curSize, task, wakes, guards := 0, 0, false, 0, [];
    }

    method Acquire(size: nat)
      modifies this
      ensures View() == Inc(old(View()), size)
    {
      curCap := if curCap + 1 == U16 then 0 else curCap + 1;
      curSize := curSize + size;
      guards := guards + [size];
    }

    method Release(k: nat)
      requires k < |guards|
      modifies this
      ensures View() == Dec(limits, old(View()), k)
    {
      var num := curCap;
      curCap := if num == 0 then U16 - 1 else num - 1;
      var before := curSize;
      curSize := before - guards[k];
      guards := guards[..k] + guards[k + 1..];
      if num == limits.maxCap || (before > limits.maxSize && curSize <= limits.maxSize) {
        task, wakes := false, wakes + 1;
      }
    }

    method PollAvailable() returns (ready: bool)
      modifies this`task
      ensures ready == Available(limits, old(View()))
      ensures View() == Step(limits, old(View()), Poll)
    {
      ready := (limits.maxCap == 0 || curCap < limits.maxCap) && (limits.maxSize == 0 || curSize <= limits.maxSize);
      if !ready { task := true; }
    }
  }

  /** For every sequence of events the cells end up where the specification says. */
  method RunEvents(limits: Limits, events: seq<Event>) returns (curCap: nat, curSize: int, task: bool, wakes: nat)
    ensures var c := Run(limits, Initially(), events);
      curCap == c.curCap && curSize == c.curSize && task == c.registered && wakes == c.wakes
  {
    hide Available;
    var counter := new CounterInner(limits);
    for k := 0 to |events|
      invariant counter.limits == limits && fresh(counter)
      invariant Run(limits, counter.View(), events[k..]) == Run(limits, Initially(), events)
    {
      assert events[k..][0] == events[k] && events[k..][1..] == events[k + 1..];
      match events[k] {
        case Call(size) => counter.Acquire(if limits.maxSize > 0 then size else 0);
        case Finish(guard) => if guard < |counter.guards| { counter.Release(guard); }
        case Poll => var _ := counter.PollAvailable();
      }
    }
    return counter.curCap, counter.curSize, counter.task, counter.wakes;
  }
}
