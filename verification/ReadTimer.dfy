/**
 The frame read timer of the dispatcher (src/io.rs): `update_timer`, `handle_timeout`, the way the poll
 loop goes on after an expiry, and the service pause that drops both timers.

 An incomplete frame starts a timer of `timeout` seconds. When it expires and enough bytes came in,
 the timer is extended, at most until `max` seconds are used up.
 */
module ReadTimer {
  import opened Prelude

  type Word32 = n: nat | n < U32

  /** `DispatcherConfig::frame_read_rate`: seconds are `u16`, the rate is a `u16` byte count. */
  datatype Rate = Rate(timeout: nat, max: nat, rate: nat)

  datatype Config = Config(keepAlive: bool, frame: Option<Rate>)

  /**
   `remains` and `prev` are the `u32` cells. `extensions` is a history count: how often the running
   frame timer has been extended since it was started.
   */
  datatype Timer = Timer(
    reading: bool, idle: bool, remains: Word32, prev: Word32, budget: nat, extensions: nat, past: Past)

  /**
   What really arrived: `seen` bytes were buffered at the last decode round, `mark` when the period
   began. `blind`: no decode round in this period yet; `blindMark`: none in the one before.
   */
  datatype Past = Past(seen: Word32, mark: Word32, blind: bool, blindMark: bool)

  datatype Verdict = Continue | ReadTimeout | KeepAliveTimeout

  /**
   What the loop does after an expiry that lets it continue: it decodes again at once, unless write
   back-pressure stops it before that or the service is not ready.
   */
  datatype Next = Round(frame: bool, remains: Word32) | Throttled | NotReady

  /** `Decoded`: one round of decoding. `Expired`: the io timer fired. `Paused`: service not ready. */
  datatype Event = Decoded(frame: bool, remains: Word32) | Expired(next: Next) | Paused

  function Initially(): Timer { Timer(false, false, 0, 0, 0, 0, Past(0, 0, false, false)) }

  function OnDecoded(c: Config, t: Timer, frame: bool, remains: Word32): Timer
  {
    if frame then t.(remains := 0, reading := false, idle := false)
    else if t.reading then t.(remains := remains, past := t.past.(seen := remains, blind := false))
    else if t.remains == 0 && remains == 0 then
      if c.keepAlive then t.(idle := true) else t
    else if c.frame.Some? then
      Timer(true, t.idle, remains, 0, c.frame.value.max, 0, Past(remains, 0, false, false))
    else t
  }

  /** The rate test: a wrapping `u32` difference, clipped to `u16::MAX`. */
  predicate RateMet(remains: Word32, prev: Word32, rate: nat)
  {
    var total := WrapSub32(remains, prev);
    (if total < U16 then total else U16 - 1) > rate
  }

  function OnExpired(c: Config, t: Timer): (Timer, Verdict)
  {
    if t.reading then
      if c.frame.None? then (t, Continue)
      else
        var Rate(timeout, max, rate) := c.frame.value;
        if !RateMet(t.remains, t.prev, rate) then (t, ReadTimeout)
        else
          var budget := if max == 0 then t.budget else if timeout <= t.budget then t.budget - timeout else 0;
          var t' := t.(prev := t.remains, remains := 0, budget := budget,
                       past := Past(t.past.seen, t.past.seen, true, t.past.blind));
          if max == 0 || budget != 0 then (t'.(extensions := t.extensions + 1), Continue)
          else (t', ReadTimeout)
    else if t.idle then (t, KeepAliveTimeout)
    else (t, Continue)
  }

  function OnPaused(t: Timer): Timer { t.(reading := false, idle := false) }

  function OnNext(c: Config, t: Timer, next: Next): Timer
  {
    match next
    case Round(frame, remains) => OnDecoded(c, t, frame, remains)
    case Throttled => t
    case NotReady => OnPaused(t)
  }

  function Step(c: Config, t: Timer, e: Event): (Timer, Verdict)
  {
    match e
    case Decoded(frame, remains) => (OnDecoded(c, t, frame, remains), Continue)
    case Paused => (OnPaused(t), Continue)
    case Expired(next) =>
      var (t', v) := OnExpired(c, t);
      if v.Continue? then (OnNext(c, t', next), Continue) else (t', v)
  }

  /** The first verdict other than `Continue` ends a run: the dispatcher goes to its Stop state. */
  function Run(c: Config, t: Timer, events: seq<Event>): (Timer, Verdict)
    decreases |events|
  {
    if events == [] then (t, Continue)
    else
      var (t', v) := Step(c, t, events[0]);
      if v.Continue? then Run(c, t', events[1..]) else (t', v)
  }

  /** How many extensions fit: `ceil(max / timeout) - 1`. */
  function Allowance(r: Rate): nat
    requires r.timeout > 0 && r.max > 0
  {
    (r.max - 1) / r.timeout
  }

  /** While a frame timer runs, every extension has been paid for and some budget is left. */
  predicate Paid(c: Config, t: Timer)
  {
    t.reading && c.frame.Some? && c.frame.value.max > 0 ==>
      t.budget > 0 && t.budget + t.extensions * c.frame.value.timeout == c.frame.value.max
  }

  lemma ExpiredKeepsPaid(c: Config, t: Timer)
    requires Paid(c, t) && OnExpired(c, t).1.Continue?
    ensures Paid(c, OnExpired(c, t).0)
  {
    if t.reading && c.frame.Some? {
      var timeout := c.frame.value.timeout;
      assert (t.extensions + 1) * timeout == t.extensions * timeout + timeout;
    }
  }

  lemma StepKeepsPaid(c: Config, t: Timer, e: Event)
    requires Paid(c, t) && Step(c, t, e).1.Continue?
    ensures Paid(c, Step(c, t, e).0)
  {
    if e.Expired? {
      ExpiredKeepsPaid(c, t);
    }
  }

  lemma {:induction false} RunKeepsPaid(c: Config, t: Timer, events: seq<Event>)
    requires Paid(c, t)
    ensures Run(c, t, events).1.Continue? ==> Paid(c, Run(c, t, events).0)
    decreases |events|
  {
    hide Paid, Step;
    if events != [] && Step(c, t, events[0]).1.Continue? {
      StepKeepsPaid(c, t, events[0]);
      RunKeepsPaid(c, Step(c, t, events[0]).0, events[1..]);
    }
  }

  /** Whatever arrives and whenever, a running frame timer has been extended at most `Allowance` times. */
  lemma ReadDeadline(c: Config, events: seq<Event>)
    requires c.frame.Some? && c.frame.value.timeout > 0 && c.frame.value.max > 0
    requires Run(c, Initially(), events).1.Continue? && Run(c, Initially(), events).0.reading
    ensures Run(c, Initially(), events).0.extensions <= Allowance(c.frame.value)
  {
    RunKeepsPaid(c, Initially(), events);
    var t, r := Run(c, Initially(), events).0, c.frame.value;
    Quotient(t.extensions, r.timeout, r.max - 1);
  }

  lemma MulMonotone(a: nat, b: nat, d: nat)
    requires a <= b
    ensures a * d <= b * d
  {
    assert b * d == a * d + (b - a) * d;
  }

  lemma Quotient(n: nat, d: nat, m: nat)
    requires d > 0
    ensures n <= m / d <==> n * d <= m
  {
    var q := m / d;
    assert q * d <= m < q * d + d;
    if n <= q {
      MulMonotone(n, q, d);
    } else {
      MulMonotone(q + 1, n, d);
      assert (q + 1) * d == q * d + d;
    }
  }

  /** Expiries in a row; the round after the i-th one finds `datas[i]` bytes buffered. */
  function Busy(datas: seq<Word32>): seq<Event>
  {
    if datas == [] then [] else [Expired(Round(false, datas[0]))] + Busy(datas[1..])
  }

  /** Consecutive buffer sizes, starting above `prev`, each more than `rate` bytes above the last. */
  predicate Growing(datas: seq<Word32>, prev: Word32, rate: nat)
  {
    datas == [] || (prev + rate < datas[0] && Growing(datas[1..], datas[0], rate))
  }

  lemma MetWhenGrowing(remains: Word32, prev: Word32, rate: nat)
    requires prev <= remains
    ensures RateMet(remains, prev, rate) <==> remains - prev > rate && rate < U16 - 1
  {
  }

  /** A frame that keeps the rate is extended as often as the budget allows and then fails: the bound is tight. */
  lemma {:induction false} SteadyFrameRunsOut(c: Config, t: Timer, datas: seq<Word32>)
    requires c.frame.Some? && c.frame.value.timeout > 0 && c.frame.value.max > 0 && c.frame.value.rate < U16 - 1
    requires t.reading && Paid(c, t) && Growing([t.remains] + datas, t.prev, c.frame.value.rate)
    ensures t.extensions + |datas| <= Allowance(c.frame.value) ==>
              Run(c, t, Busy(datas)).1.Continue? && Run(c, t, Busy(datas)).0.extensions == t.extensions + |datas|
    ensures t.extensions + |datas| > Allowance(c.frame.value) ==> Run(c, t, Busy(datas)).1.ReadTimeout?
    decreases |datas|
  {
    hide RateMet, Allowance;
    var r := c.frame.value;
    ExtensionsWithin(t.extensions, r) by { assert t.extensions * r.timeout <= r.max - 1; }
    if datas != [] {
      assert ([t.remains] + datas)[1..] == datas && [datas[0]] + datas[1..] == datas;
      MetWhenGrowing(t.remains, t.prev, r.rate);
      assert Busy(datas)[1..] == Busy(datas[1..]);
      BudgetLeft(t.budget, t.extensions, r);
      if OnExpired(c, t).1.Continue? {
        ExpiredKeepsPaid(c, t);
        SteadyFrameRunsOut(c, Step(c, t, Busy(datas)[0]).0, datas[1..]);
      }
    }
  }

  lemma ExtensionsWithin(n: nat, r: Rate)
    requires r.timeout > 0 && r.max > 0 && n * r.timeout <= r.max - 1
    ensures n <= Allowance(r)
  {
    Quotient(n, r.timeout, r.max - 1);
  }

  lemma BudgetLeft(budget: nat, n: nat, r: Rate)
    requires r.timeout > 0 && r.max > 0 && budget + n * r.timeout == r.max
    ensures budget > r.timeout <==> n + 1 <= Allowance(r)
  {
    assert (n + 1) * r.timeout == n * r.timeout + r.timeout;
    Quotient(n + 1, r.timeout, r.max - 1);
  }

  // ---------------------------------------------------------------- what the rate test measures

  /** The test by itself: it compares exactly while the count is not below the last mark. */
  lemma RateTestExact(remains: Word32, prev: Word32, rate: nat)
    ensures rate < U16 - 1 ==>
      ((RateMet(remains, prev, rate) <==> remains - prev > rate)
       <==> (prev <= remains || U32 - (prev - remains) <= rate))
    ensures prev <= remains && remains - prev <= rate ==> !RateMet(remains, prev, rate)
  {
    Wraps(remains, prev);
  }

  /** The cells hold what was really buffered, except 0 where a period passed without a decode round. */
  predicate Tracked(t: Timer)
  {
    t.reading ==>
      && t.remains == (if t.past.blind then 0 else t.past.seen)
      && t.prev == (if t.past.blindMark then 0 else t.past.mark)
  }

  lemma StepTracked(c: Config, t: Timer, e: Event)
    requires Tracked(t) && Step(c, t, e).1.Continue?
    ensures Tracked(Step(c, t, e).0)
  {
    hide RateMet;
  }

  lemma {:induction false} RunTracked(c: Config, t: Timer, events: seq<Event>)
    requires Tracked(t)
    ensures Run(c, t, events).1.Continue? ==> Tracked(Run(c, t, events).0)
    decreases |events|
  {
    hide Tracked, Step;
    if events != [] && Step(c, t, events[0]).1.Continue? {
      StepTracked(c, t, events[0]);
      RunTracked(c, Step(c, t, events[0]).0, events[1..]);
    }
  }

  /** In every run the difference measures the bytes of the period exactly when both ends miss equally many. */
  lemma DifferenceMeasures(c: Config, events: seq<Event>)
    requires Run(c, Initially(), events).1.Continue? && Run(c, Initially(), events).0.reading
    ensures var t := Run(c, Initially(), events).0;
      WrapSub32(t.remains, t.prev) == WrapSub32(t.past.seen, t.past.mark)
      <==> (if t.past.blind then t.past.seen else 0) == (if t.past.blindMark then t.past.mark else 0)
  {
    hide Run;
    RunTracked(c, Initially(), events);
    var t := Run(c, Initially(), events).0;
    Wraps(t.remains, t.prev);
    Wraps(t.past.seen, t.past.mark);
  }

  lemma Wraps(a: Word32, b: Word32)
    ensures WrapSub32(a, b) == if b <= a then a - b else a - b + U32
  {
  }

  /**
   In every run a period in which nothing arrived passes the rate test exactly when a decode round is
   missing at one end of it only, and the count taken for 0 there makes up the rate.
   */
  lemma SilentPeriodPasses(c: Config, events: seq<Event>, rate: nat)
    requires Run(c, Initially(), events).1.Continue? && Run(c, Initially(), events).0.reading
    requires var t := Run(c, Initially(), events).0; t.past.seen == t.past.mark
    ensures var t := Run(c, Initially(), events).0; var n := t.past.seen;
      RateMet(t.remains, t.prev, rate) <==>
        && rate < U16 - 1 && t.past.blind != t.past.blindMark
        && if t.past.blind then 0 < n < U32 - rate else n > rate
  {
    hide Run;
    RunTracked(c, Initially(), events);
    var t := Run(c, Initially(), events).0;
    Wraps(t.remains, t.prev);
  }

  /** No expiry is followed by write back-pressure before the next decode round. */
  predicate Unthrottled(events: seq<Event>)
  {
    forall i :: 0 <= i < |events| && events[i].Expired? ==> !events[i].next.Throttled?
  }

  predicate Sighted(t: Timer) { t.reading ==> !t.past.blind && !t.past.blindMark }

  lemma StepSighted(c: Config, t: Timer, e: Event)
    requires Sighted(t) && Step(c, t, e).1.Continue? && (e.Expired? ==> !e.next.Throttled?)
    ensures Sighted(Step(c, t, e).0)
  {
    hide RateMet;
  }

  lemma {:induction false} RunSighted(c: Config, t: Timer, events: seq<Event>)
    requires Sighted(t) && Unthrottled(events)
    ensures Run(c, t, events).1.Continue? ==> Sighted(Run(c, t, events).0)
    decreases |events|
  {
    hide Sighted, Step;
    if events != [] && Step(c, t, events[0]).1.Continue? {
      StepSighted(c, t, events[0]);
      RunSighted(c, Step(c, t, events[0]).0, events[1..]);
    }
  }

  lemma {:induction false} RunLast(c: Config, t: Timer, events: seq<Event>, e: Event)
    requires Run(c, t, events).1.Continue?
    ensures Run(c, t, events + [e]) == Step(c, Run(c, t, events).0, e)
    decreases |events|
  {
    hide Step;
    if events == [] {
      var (t', v) := Step(c, t, e);
      assert Run(c, t', []) == (t', Continue);
    } else {
      assert (events + [e])[1..] == events[1..] + [e];
      RunLast(c, Step(c, t, events[0]).0, events[1..], e);
    }
  }

  /**
   Without write back-pressure the test is right about a period exactly when the buffer did not shrink, up
   to the wrap itself: the timer is extended only if more than `rate` bytes arrived, so a silent peer
   times out. (The buffer shrinks when the fixed header of the frame is consumed.)
   */
  lemma UnthrottledPeriodIsMeasured(c: Config, events: seq<Event>, next: Next)
    requires c.frame.Some? && Unthrottled(events)
    requires Run(c, Initially(), events).1.Continue? && Run(c, Initially(), events).0.reading
    ensures var t := Run(c, Initially(), events).0;
      var Past(seen, mark, _, _), rate := t.past, c.frame.value.rate;
      && (rate < U16 - 1 ==>
            ((RateMet(t.remains, t.prev, rate) <==> seen - mark > rate)
             <==> (mark <= seen || U32 - (mark - seen) <= rate)))
      && (mark <= seen && seen - mark <= rate ==> Run(c, Initially(), events + [Expired(next)]).1.ReadTimeout?)
  {
    hide Run, RateMet;
    RunTracked(c, Initially(), events);
    RunSighted(c, Initially(), events);
    var t := Run(c, Initially(), events).0;
    RateTestExact(t.remains, t.prev, c.frame.value.rate);
    RunLast(c, Initially(), events, Expired(next));
  }

  /**
   Write back-pressure that sets in right after an extension keeps the loop from decoding; when the timer
   expires again before it ends, a peer that sent nothing in between is granted another extension.
   */
  lemma ThrottledSilenceExtends()
    ensures var c := Config(false, Some(Rate(1, 10, 5)));
      var once := Run(c, Initially(), [Decoded(false, 100), Expired(Throttled)]);
      var twice := Run(c, Initially(), [Decoded(false, 100), Expired(Throttled)] + [Expired(Throttled)]);
      && once.0.past.seen == once.0.past.mark == 100 && once.0.extensions == 1
      && twice.1.Continue? && twice.0.extensions == 2
  {
    var c := Config(false, Some(Rate(1, 10, 5)));
    var first := [Decoded(false, 100)];
    assert Run(c, Initially(), []) == (Initially(), Continue);
    RunLast(c, Initially(), [], Decoded(false, 100));
    assert [] + first == first;
    RunLast(c, Initially(), first, Expired(Throttled));
    var two := [Decoded(false, 100), Expired(Throttled)];
    assert two == first + [Expired(Throttled)];
    RunLast(c, Initially(), two, Expired(Throttled));
  }

  // ---------------------------------------------------------------- what decides

  /**
   One decode round. A complete frame stops both timers. An incomplete one starts the read timer, with the
   whole budget and everything buffered counting as new, unless it runs already; then only the count is
   renewed. With nothing buffered, now or before, the keep-alive timer runs instead.
   */
  lemma DecodedDecides(c: Config, t: Timer, frame: bool, got: Word32)
    ensures var t' := OnDecoded(c, t, frame, got);
      var starts := !frame && !t.reading && (got > 0 || t.remains > 0) && c.frame.Some?;
      && (t'.reading <==> !frame && (t.reading || starts))
      && (t'.idle <==> !frame && (t.idle || (!t.reading && got == 0 && t.remains == 0 && c.keepAlive)))
      && (frame ==> t'.remains == 0)
      && (!frame && t.reading ==> t'.remains == got && t'.prev == t.prev && t'.budget == t.budget)
      && (starts ==> t'.remains == got && t'.prev == 0 && t'.budget == c.frame.value.max && t'.extensions == 0)
      && (!frame && !t.reading && !starts ==> t'.remains == t.remains)
  {
  }

  /** The verdict of an expiry, exactly. A maximum of zero does not limit the extensions. */
  lemma ExpiryDecides(c: Config, t: Timer)
    ensures var v := OnExpired(c, t).1;
      var met := c.frame.Some? && RateMet(t.remains, t.prev, c.frame.value.rate);
      && (v == KeepAliveTimeout <==> !t.reading && t.idle)
      && (v == ReadTimeout <==>
            t.reading && c.frame.Some? && !(met && (c.frame.value.max == 0 || t.budget > c.frame.value.timeout)))
  {
    hide RateMet;
  }

  /** After a complete frame the next expiry is harmless. */
  lemma FrameStopsTimers(c: Config, events: seq<Event>, got: Word32, next: Next)
    requires Run(c, Initially(), events).1.Continue?
    ensures var t := Run(c, Initially(), events + [Decoded(true, got)]).0;
      !t.reading && !t.idle && Run(c, Initially(), events + [Decoded(true, got)] + [Expired(next)]).1.Continue?
  {
    hide Run;
    RunLast(c, Initially(), events, Decoded(true, got));
    RunLast(c, Initially(), events + [Decoded(true, got)], Expired(next));
  }

  /** A pause of the service stops both timers, too. */
  lemma PauseStopsTimers(c: Config, events: seq<Event>, next: Next)
    requires Run(c, Initially(), events).1.Continue?
    ensures Run(c, Initially(), events + [Paused] + [Expired(next)]).1.Continue?
  {
    hide Run;
    RunLast(c, Initially(), events, Paused);
    RunLast(c, Initially(), events + [Paused], Expired(next));
  }

  /** The timer fields of `DispatcherInner`. */
  class FrameTimer {
    const config: Config
    var reading: bool
    var idle: bool
    var remains: Word32
    var prev: Word32
    var budget: nat
    var starts: nat
    ghost var extensions: nat
    ghost var past: Past

    ghost function View(): Timer
      reads this
    {
      Timer(reading, idle, remains, prev, budget, extensions, past)
    }

    constructor (config: Config)
      ensures View() == Initially() && this.config == config && starts == 0
    {
      this.config := config;
      reading, idle, remains, prev, budget, starts, extensions := false, false, 0, 0, 0, 0, 0;
      past := Past(0, 0, false, false);
    }

    /** `update_timer`. */
    method Update(frame: bool, got: Word32)
      modifies this
      ensures View() == OnDecoded(config, old(View()), frame, got)
      ensures starts == old(starts) + if (reading && !old(reading)) || (idle && !old(idle)) then 1 else 0
    {
      if frame {
        remains, reading, idle := 0, false, false;
      } else if reading {
        remains := got;
        past := past.(seen := got, blind := false);
      } else if remains == 0 && got == 0 {
        if config.keepAlive && !idle {
          idle, starts := true, starts + 1;
        }
      } else if config.frame.Some? {
        reading, remains, prev, budget := true, got, 0, config.frame.value.max;
        starts, extensions, past := starts + 1, 0, Past(got, 0, false, false);
      }
    }

    /** `handle_timeout`. */
    method Timeout() returns (v: Verdict)
      modifies this
      ensures (View(), v) == OnExpired(config, old(View()))
      ensures starts - old(starts) == extensions - old(extensions)
    {
      if reading {
        if config.frame.Some? {
          var Rate(timeout, max, rate) := config.frame.value;
          var total := WrapSub32(remains, prev);
          if total >= U16 { total := U16 - 1; }
          if total > rate {
            prev := remains;
            remains := 0;
            past := Past(past.seen, past.seen, true, past.blind);
            if max != 0 {
              budget := if timeout <= budget then budget - timeout else 0;
            }
            if max == 0 || budget != 0 {
              starts, extensions := starts + 1, extensions + 1;
              return Continue;
            }
          }
          return ReadTimeout;
        }
      } else if idle {
        return KeepAliveTimeout;
      }
      return Continue;
    }

    /** `poll_service` or memory pressure pausing the connection. */
    method Pause()
      modifies this
      ensures View() == OnPaused(old(View())) && starts == old(starts)
    {
      reading, idle := false, false;
    }

    /** One event; after an expiry that lets it continue, the loop decodes, is throttled or is paused. */
    method React(e: Event) returns (v: Verdict)
      modifies this
      ensures (View(), v) == Step(config, old(View()), e)
    {
      hide RateMet;
      v := Continue;
      match e {
        case Decoded(frame, got) => Update(frame, got);
        case Paused => Pause();
        case Expired(next) =>
          v := Timeout();
          if v.Continue? {
            match next {
              case Round(frame, got) => Update(frame, got);
              case Throttled =>
              case NotReady => Pause();
            }
          }
      }
    }
  }

  /** The timer code reaches the verdict and the cells of the specification for every sequence of events. */
  method RunEvents(config: Config, events: seq<Event>) returns (v: Verdict, reading: bool, remains: Word32, budget: nat)
    ensures var (t, verdict) := Run(config, Initially(), events);
      v == verdict && reading == t.reading && remains == t.remains && budget == t.budget
  {
    hide Step;
    var timer := new FrameTimer(config);
    v := Continue;
    var k := 0;
    while k < |events| && v.Continue?
      invariant k <= |events| && timer.config == config && fresh(timer)
      invariant Run(config, Initially(), events)
             == if v.Continue? then Run(config, timer.View(), events[k..]) else (timer.View(), v)
    {
      assert events[k..][0] == events[k] && events[k..][1..] == events[k + 1..];
      v := timer.React(events[k]);
      k := k + 1;
    }
    return v, timer.reading, timer.remains, timer.budget;
  }
}
