/**
 The response reorder buffer of the framed dispatcher (src/io.rs).

 Service calls finish in any order: one call is polled by the dispatcher itself, all others are
 awaited by spawned tasks. Responses are nevertheless encoded in call order. The code keeps a
 wrapping `base`, a deque of Pending/Ready slots and a fast path for a call that finishes at once.

 `Reference` is the specification: it remembers the outcome of every call, by call number, and
 has neither indices nor a deque. `Dispatcher` is the code. `Run` connects the two for every
 sequence of events.
 */
module ReorderBuffer {
  import opened Prelude

  /** Packets and service errors are opaque to the buffer; they are told apart by name. */
  datatype Packet = Packet(name: nat)
  datatype ServiceError = ServiceError(name: nat)

  /** `Result<Option<Packet>, ServiceError>`: what a service call produces. */
  datatype Outcome = Response(packet: Packet) | NoResponse | Failed(error: ServiceError)

  datatype DispatchError = Encoder(packet: Packet) | Service(error: ServiceError)

  /** `ServiceResult`: `None` is Pending, `Some` is Ready. */
  type Slot = Option<Outcome>

  datatype Phase = Processing | Stopping | Terminated

  /**
   The steps of a run. `Call` issues the next service call; `atOnce` is the outcome when the very
   first poll of its future is ready. `Complete` finishes an outstanding call. `CheckError` is
   `poll_service` finding the service ready. `Stop` and `Resume` are the other changes of `st`,
   and `Drain` is one visit of the `Stop` arm with a completed io shutdown.
   */
  datatype Event =
    | Call(atOnce: Option<Outcome>)
    | Complete(call: nat, outcome: Outcome)
    | CheckError(atOnce: Option<Outcome>)
    | Stop
    | Resume
    | Drain

  // ---------------------------------------------------------------- specification

  /** The outcomes of the longest prefix of calls that have all completed. */
  function Prefix(rs: seq<Slot>): (os: seq<Outcome>)
    ensures |os| <= |rs|
  {
    if rs == [] || rs[0].None? then [] else [rs[0].value] + Prefix(rs[1..])
  }

  /** The packets among the outcomes, in order. */
  function Packets(os: seq<Outcome>): seq<Packet>
  {
    if os == [] then []
    else
      var last := os[|os| - 1];
      Packets(os[..|os| - 1]) + if last.Response? then [last.packet] else []
  }

  /** The error an outcome raises when it is retired, if any. */
  function Raised(rejects: Packet -> bool, o: Outcome): Option<DispatchError>
  {
    match o
    case Failed(e) => Some(Service(e))
    case Response(p) => if rejects(p) then Some(Encoder(p)) else None
    case NoResponse => None
  }

  /** The error cell after retiring `os` in order: a later error replaces an earlier one. */
  function ErrorAfter(rejects: Packet -> bool, error: Option<DispatchError>, os: seq<Outcome>)
    : Option<DispatchError>
  {
    if os == [] then error
    else
      var raised := Raised(rejects, os[|os| - 1]);
      if raised.Some? then raised else ErrorAfter(rejects, error, os[..|os| - 1])
  }

  /**
   The reference machine: `results[c]` is the outcome of call `c` when it is known, `held` the call
   whose future the dispatcher polls itself, `wakes` the number of times the io was woken.
   */
  datatype Reference = Reference(
    results: seq<Slot>,
    held: Option<nat>,
    phase: Phase,
    error: Option<DispatchError>,
    wakes: nat)
  {
    predicate Outstanding(c: nat) { c < |results| && results[c].None? }

    predicate Idle() { |Prefix(results)| == |results| }

    /** A deque holds fewer than 2^64 slots; a call that would exceed that cannot be issued. */
    predicate Full() { |results| - |Prefix(results)| + 1 >= USIZE }

    /** Records outcomes; retiring the newly completed calls may raise errors. */
    function Learn(rejects: Packet -> bool, rs: seq<Slot>): Reference
      requires |Prefix(results)| <= |Prefix(rs)|
    {
      this.(results := rs, error := ErrorAfter(rejects, error, Prefix(rs)[|Prefix(results)|..]))
    }
  }

  function Initially(): Reference { Reference([], None, Processing, None, 0) }

  function CallRef(rejects: Packet -> bool, r: Reference, atOnce: Option<Outcome>): Reference
  {
    if r.phase.Terminated? || r.Full() then r
    else if r.held.None? && atOnce.Some? then
      PrefixAppend(r.results, atOnce);
      r.Learn(rejects, r.results + [atOnce])
    else
      r.(results := r.results + [None],
         held := if r.held.None? then Some(|r.results|) else r.held)
  }

  function CompleteRef(rejects: Packet -> bool, r: Reference, c: nat, o: Outcome): Reference
  {
    if !r.Outstanding(c) then r
    else
      PrefixUpdate(r.results, c, o);
      var known := r.Learn(rejects, r.results[c := Some(o)]);
      if r.held == Some(c) then known.(held := None)
      else known.(wakes := known.wakes + if known.Idle() then 1 else 0)
  }

  function Step(rejects: Packet -> bool, r: Reference, e: Event): Reference
  {
    match e
    case Call(atOnce) => CallRef(rejects, r, atOnce)
    case Complete(c, o) => CompleteRef(rejects, r, c, o)
    case CheckError(atOnce) =>
      if r.phase.Terminated? || r.error.None? then r
      else if r.error.value.Service? then r.(phase := Stopping)
      else CallRef(rejects, r.(phase := Stopping, error := None), atOnce)
    case Stop => if r.phase.Terminated? then r else r.(phase := Stopping)
    case Resume => if r.phase.Terminated? then r else r.(phase := Processing)
    case Drain => if r.phase.Stopping? && r.Idle() then r.(phase := Terminated) else r
  }

  function Behaviour(rejects: Packet -> bool, events: seq<Event>): Reference
  {
    if events == [] then Initially()
    else Step(rejects, Behaviour(rejects, events[..|events| - 1]), events[|events| - 1])
  }

  // ---------------------------------------------------------------- facts about the specification

  function Lift(os: seq<Outcome>): seq<Slot>
  {
    seq(|os|, i requires 0 <= i < |os| => Some(os[i]))
  }

  /** `Prefix` splits the results at the first outstanding call. */
  lemma {:induction false} PrefixSplit(rs: seq<Slot>)
    ensures var n := |Prefix(rs)|; Lift(Prefix(rs)) == rs[..n] && (n < |rs| ==> rs[n].None?)
  {
    if rs != [] && rs[0].Some? {
      PrefixSplit(rs[1..]);
      var n := |Prefix(rs[1..])|;
      assert Lift(Prefix(rs)) == [rs[0]] + Lift(Prefix(rs[1..]));
      assert rs[..n + 1] == [rs[0]] + rs[1..][..n];
    }
  }

  lemma {:induction false} PrefixIs(os: seq<Outcome>, rest: seq<Slot>)
    requires rest != [] ==> rest[0].None?
    ensures Prefix(Lift(os) + rest) == os
  {
    if os == [] {
      assert Lift(os) + rest == rest;
    } else {
      PrefixIs(os[1..], rest);
      assert (Lift(os) + rest)[1..] == Lift(os[1..]) + rest;
    }
  }

  /** Learning more outcomes keeps every outcome already retired. */
  lemma {:induction false} PrefixGrows(a: seq<Slot>, b: seq<Slot>)
    requires |a| <= |b| && forall i :: 0 <= i < |a| && a[i].Some? ==> b[i] == a[i]
    ensures Prefix(a) <= Prefix(b)
  {
    if a != [] && a[0].Some? {
      assert forall i :: 0 <= i < |a[1..]| && a[1..][i].Some? ==> b[1..][i] == a[1..][i];
      PrefixGrows(a[1..], b[1..]);
    }
  }

  lemma PrefixAppend(rs: seq<Slot>, x: Slot)
    ensures Prefix(rs) <= Prefix(rs + [x])
  {
    PrefixGrows(rs, rs + [x]);
  }

  lemma PrefixUpdate(rs: seq<Slot>, c: nat, o: Outcome)
    requires c < |rs| && rs[c].None?
    ensures Prefix(rs) <= Prefix(rs[c := Some(o)])
  {
    PrefixGrows(rs, rs[c := Some(o)]);
  }

  lemma {:induction false} PacketsConcat(a: seq<Outcome>, b: seq<Outcome>)
    ensures Packets(a + b) == Packets(a) + Packets(b)
  {
    if b == [] {
      assert a + b == a;
    } else {
      assert (a + b)[..|a + b| - 1] == a + b[..|b| - 1];
      PacketsConcat(a, b[..|b| - 1]);
    }
  }

  /**
   `attempts` lists the responses of the first `n` calls: `calls` are the numbers of exactly those among
   them that answered with a packet, in order and without repetition. Call `n` is the first one that is
   not complete.
   */
  predicate Lists(attempts: seq<Packet>, results: seq<Slot>, calls: seq<nat>, n: nat)
  {
    && n <= |results| && (forall c :: 0 <= c < n ==> results[c].Some?) && (n < |results| ==> results[n].None?)
    && |calls| == |attempts|
    && (forall i, j :: 0 <= i < j < |calls| ==> calls[i] < calls[j])
    && (forall k :: 0 <= k < |calls| ==> calls[k] < n && results[calls[k]] == Some(Response(attempts[k])))
    && (forall c :: 0 <= c < n && results[c].Some? && results[c].value.Response? ==> c in calls)
  }

  ghost predicate InCallOrder(attempts: seq<Packet>, results: seq<Slot>)
  {
    exists calls, n :: Lists(attempts, results, calls, n)
  }

  /** `ps` are the packets of exactly the responses among `os`, at the positions `calls`, in order. */
  predicate Takes(os: seq<Outcome>, ps: seq<Packet>, calls: seq<nat>)
  {
    && |calls| == |ps|
    && (forall i, j :: 0 <= i < j < |calls| ==> calls[i] < calls[j])
    && (forall k :: 0 <= k < |calls| ==> calls[k] < |os| && os[calls[k]] == Response(ps[k]))
    && (forall c :: 0 <= c < |os| && os[c].Response? ==> c in calls)
  }

  lemma TakesOther(os: seq<Outcome>, o: Outcome, ps: seq<Packet>, calls: seq<nat>)
    requires Takes(os, ps, calls) && !o.Response?
    ensures Takes(os + [o], ps, calls)
  {
    forall k | 0 <= k < |calls| ensures (os + [o])[calls[k]] == Response(ps[k]) {
      assert os[calls[k]] == Response(ps[k]);
    }
  }

  lemma TakesResponse(os: seq<Outcome>, p: Packet, ps: seq<Packet>, calls: seq<nat>)
    requires Takes(os, ps, calls)
    ensures Takes(os + [Response(p)], ps + [p], calls + [|os|])
  {
    var os', ps', calls' := os + [Response(p)], ps + [p], calls + [|os|];
    forall k | 0 <= k < |calls'| ensures calls'[k] < |os'| && os'[calls'[k]] == Response(ps'[k]) {
      if k < |calls| { assert os[calls[k]] == Response(ps[k]); }
    }
    forall c | 0 <= c < |os'| && os'[c].Response? ensures c in calls' {
      if c == |os| { assert calls'[|calls|] == c; } else { assert os[c].Response?; }
    }
  }

  /** What `Packets` takes: every response, once, in order. */
  lemma {:induction false} ResponseCalls(os: seq<Outcome>) returns (calls: seq<nat>)
    ensures Takes(os, Packets(os), calls)
  {
    if os == [] {
      calls := [];
    } else {
      hide Takes;
      var front, last := os[..|os| - 1], os[|os| - 1];
      calls := ResponseCalls(front);
      assert os == front + [last];
      if last.Response? {
        TakesResponse(front, last.packet, Packets(front), calls);
        calls := calls + [|front|];
      } else {
        TakesOther(front, last, Packets(front), calls);
        assert Packets(front) + [] == Packets(front);
      }
    }
  }

  lemma PrefixListed(results: seq<Slot>)
    ensures InCallOrder(Packets(Prefix(results)), results)
  {
    hide Packets, Prefix;
    var os := Prefix(results);
    PrefixSplit(results);
    var calls := ResponseCalls(os);
    forall c | 0 <= c < |os| ensures results[c] == Some(os[c]) {
      assert results[..|os|][c] == Lift(os)[c];
    }
    assert Lists(Packets(os), results, calls, |os|);
  }

  /** What every step of the reference machine keeps. */
  predicate Sane(r: Reference)
  {
    && (r.held.Some? ==> r.Outstanding(r.held.value))
    && (r.phase.Terminated? ==> r.Idle())
  }

  lemma CallSane(rejects: Packet -> bool, r: Reference, x: Slot)
    requires Sane(r)
    ensures Sane(CallRef(rejects, r, x))
  {
  }

  lemma CompleteSane(rejects: Packet -> bool, r: Reference, c: nat, o: Outcome)
    requires Sane(r)
    ensures Sane(CompleteRef(rejects, r, c, o))
  {
    PrefixSplit(r.results);
  }

  lemma {:induction false} BehaviourSane(rejects: Packet -> bool, events: seq<Event>)
    ensures Sane(Behaviour(rejects, events))
  {
    if events != [] {
      BehaviourSane(rejects, events[..|events| - 1]);
      var r := Behaviour(rejects, events[..|events| - 1]);
      match events[|events| - 1] {
        case Complete(c, o) => CompleteSane(rejects, r, c, o);
        case Call(x) => CallSane(rejects, r, x);
        case CheckError(x) =>
          CallSane(rejects, if r.phase.Terminated? then r else r.(phase := Stopping, error := None), x);
        case _ =>
      }
    }
  }

  lemma CallGrows(rejects: Packet -> bool, r: Reference, x: Slot)
    ensures Prefix(r.results) <= Prefix(CallRef(rejects, r, x).results)
    ensures |r.results| <= |CallRef(rejects, r, x).results|
  {
    PrefixAppend(r.results, x);
    PrefixAppend(r.results, None);
  }

  lemma StepGrows(rejects: Packet -> bool, r: Reference, e: Event)
    ensures Prefix(r.results) <= Prefix(Step(rejects, r, e).results)
    ensures |r.results| <= |Step(rejects, r, e).results|
  {
    match e {
      case Complete(c, o) => if r.Outstanding(c) { PrefixUpdate(r.results, c, o); }
      case Call(x) => CallGrows(rejects, r, x);
      case CheckError(x) => CallGrows(rejects, r.(phase := Stopping, error := None), x);
      case _ =>
    }
  }

  /** Nothing handed to the encoder is ever taken back, reordered or repeated. */
  lemma {:induction false} EmissionsOnlyGrow(rejects: Packet -> bool, events: seq<Event>, more: seq<Event>)
    ensures Prefix(Behaviour(rejects, events).results) <= Prefix(Behaviour(rejects, events + more).results)
    ensures Packets(Prefix(Behaviour(rejects, events).results))
         <= Packets(Prefix(Behaviour(rejects, events + more).results))
  {
    hide Step, Prefix, Packets;
    if more == [] {
      assert events + more == events;
    } else {
      var front := more[..|more| - 1];
      assert (events + more)[..|events + more| - 1] == events + front;
      EmissionsOnlyGrow(rejects, events, front);
      StepGrows(rejects, Behaviour(rejects, events + front), more[|more| - 1]);
      var a := Prefix(Behaviour(rejects, events).results);
      var b := Prefix(Behaviour(rejects, events + more).results);
      assert b == a + b[|a|..];
      PacketsConcat(a, b[|a|..]);
    }
  }

  /** A dispatcher that has shut down left no call behind and retired every outcome, in call order. */
  lemma TerminatedIsDrained(rejects: Packet -> bool, events: seq<Event>)
    requires Behaviour(rejects, events).phase.Terminated?
    ensures forall c :: !Behaviour(rejects, events).Outstanding(c)
    ensures Lift(Prefix(Behaviour(rejects, events).results)) == Behaviour(rejects, events).results
  {
    hide Behaviour, Prefix;
    BehaviourSane(rejects, events);
    PrefixSplit(Behaviour(rejects, events).results);
  }

  // ---------------------------------------------------------------- the code

  /** A `usize` value; sums and differences of two of them wrap at most once. */
  type Word = n: nat | n < USIZE

  function WrappingAdd(a: Word, b: Word): Word { if a + b < USIZE then a + b else a + b - USIZE }

  function WrappingSub(a: Word, b: Word): Word { if b <= a then a - b else a - b + USIZE }

  predicate FrontPending(queue: seq<Slot>) { queue != [] ==> queue[0].None? }

  /** With `n` calls retired, call `c` sits in a Pending slot. */
  predicate Pending(n: nat, queue: seq<Slot>, c: nat)
  {
    n <= c < n + |queue| && queue[c - n].None?
  }

  /** Call `c` is pending and was given wrapped index `idx`. */
  predicate Waiting(base: Word, n: nat, queue: seq<Slot>, c: nat, idx: Word)
  {
    Pending(n, queue, c) && c - n < USIZE && idx == WrappingAdd(base, c - n)
  }

  /** The futures in existence are those of the Pending slots, each with its own index. */
  ghost predicate FuturesOk(base: Word, n: nat, queue: seq<Slot>,
                            response: Option<nat>, responseIdx: Word, spawned: map<nat, Word>)
  {
    && (response.Some? ==> response.value !in spawned && Waiting(base, n, queue, response.value, responseIdx))
    && (forall c :: c in spawned ==> Waiting(base, n, queue, c, spawned[c]))
    && (forall c: nat :: Pending(n, queue, c) ==> c in spawned || response == Some(c))
  }

  /** Queueing a slot: what was waiting keeps waiting. */
  lemma FuturesAppend(base: Word, n: nat, queue: seq<Slot>, x: Slot,
                      response: Option<nat>, responseIdx: Word, spawned: map<nat, Word>)
    requires FuturesOk(base, n, queue, response, responseIdx, spawned) && |queue| < USIZE
    ensures x.Some? ==> FuturesOk(base, n, queue + [x], response, responseIdx, spawned)
    ensures var c, idx := n + |queue|, WrappingAdd(base, |queue|);
      x.None? ==>
        && (response.None? ==> FuturesOk(base, n, queue + [x], Some(c), idx, spawned))
        && (response.Some? ==> FuturesOk(base, n, queue + [x], response, responseIdx, spawned[c := idx]))
  {
    forall c: nat, idx | Waiting(base, n, queue, c, idx) ensures Waiting(base, n, queue + [x], c, idx) {}
    forall c: nat | Pending(n, queue + [x], c)
      ensures Pending(n, queue, c) || (x.None? && c == n + |queue|)
    {}
  }

  /** The deque once call `c` has its result and before anything is retired. */
  function Answered(n: nat, queue: seq<Slot>, c: nat, o: Outcome): seq<Slot>
    requires Pending(n, queue, c)
  {
    queue[c - n := Some(o)]
  }

  /**
   A finished call leaves and the `k` calls at the front are retired: `base` moves along with them,
   so every other captured index still points at its own slot.
   */
  lemma FuturesFinish(base: Word, n: nat, queue: seq<Slot>, c: nat, o: Outcome, k: nat,
                      response: Option<nat>, responseIdx: Word, spawned: map<nat, Word>)
    requires FuturesOk(base, n, queue, response, responseIdx, spawned) && |queue| < USIZE
    requires Pending(n, queue, c) && k == |Prefix(Answered(n, queue, c, o))|
    ensures FuturesOk(WrappingAdd(base, k), n + k, Answered(n, queue, c, o)[k..],
                      if response == Some(c) then None else response, responseIdx, spawned - {c})
  {
    var queue' := Answered(n, queue, c, o);
    PrefixSplit(queue');
    forall d: nat, idx | d != c && Waiting(base, n, queue, d, idx)
      ensures Waiting(WrappingAdd(base, k), n + k, queue'[k..], d, idx)
    {
      assert queue'[d - n].None? && queue'[..k] == Lift(Prefix(queue'));
    }
    forall d: nat | Pending(n + k, queue'[k..], d) ensures d != c && Pending(n, queue, d) {}
  }

  /** An empty deque leaves no future; the next call may be numbered without an index. */
  lemma NoFutures(base: Word, n: nat, response: Option<nat>, responseIdx: Word, spawned: map<nat, Word>)
    requires FuturesOk(base, n, [], response, responseIdx, spawned)
    ensures response.None? && spawned == map[]
    ensures FuturesOk(base, n + 1, [], response, responseIdx, spawned)
  {
    assert forall c :: c in spawned ==> Waiting(base, n, [], c, spawned[c]);
  }

  lemma FuturesExclude(spawned: map<nat, Word>, c: nat)
    requires c !in spawned
    ensures spawned - {c} == spawned
  {
  }

  /** What the reference machine sees of a retired prefix and a deque. */
  lemma ViewOf(retired: seq<Outcome>, queue: seq<Slot>)
    requires FrontPending(queue)
    ensures Prefix(Lift(retired) + queue) == retired
    ensures |Lift(retired) + queue| == |retired| + |queue|
  {
    PrefixIs(retired, queue);
  }

  lemma ErrorStep(rejects: Packet -> bool, error: Option<DispatchError>, done: seq<Outcome>, o: Outcome)
    ensures ErrorAfter(rejects, error, done + [o])
         == if Raised(rejects, o).Some? then Raised(rejects, o) else ErrorAfter(rejects, error, done)
  {
    assert (done + [o])[..|done|] == done;
  }

  lemma NoErrorYet(rejects: Packet -> bool, error: Option<DispatchError>)
    ensures ErrorAfter(rejects, error, []) == error
  {
  }

  /** Issuing a call that is ready at once, seen from the reference machine. */
  lemma CallReadyView(rejects: Packet -> bool, r: Reference, retired: seq<Outcome>, queue: seq<Slot>, res: Outcome)
    requires FrontPending(queue) && r.results == Lift(retired) + queue
    requires !r.phase.Terminated? && r.held.None? && |queue| + 1 < USIZE
    ensures CallRef(rejects, r, Some(res)) ==
      if queue == [] then
        r.(results := Lift(retired + [res]) + queue,
           error := if Raised(rejects, res).Some? then Raised(rejects, res) else r.error)
      else r.(results := Lift(retired) + (queue + [Some(res)]))
  {
    ViewOf(retired, queue);
    if queue == [] {
      ViewOf(retired + [res], queue);
      assert r.results + [Some(res)] == Lift(retired + [res]) + queue;
      assert (retired + [res])[|retired|..] == [] + [res];
      ErrorStep(rejects, r.error, [], res);
    } else {
      ViewOf(retired, queue + [Some(res)]);
      assert r.results + [Some(res)] == Lift(retired) + (queue + [Some(res)]);
      assert retired[|retired|..] == [];
    }
  }

  lemma CallPendingView(rejects: Packet -> bool, r: Reference, retired: seq<Outcome>, queue: seq<Slot>, x: Slot)
    requires FrontPending(queue) && r.results == Lift(retired) + queue
    requires !r.phase.Terminated? && (r.held.Some? || x.None?) && |queue| + 1 < USIZE
    ensures CallRef(rejects, r, x) ==
      r.(results := Lift(retired) + (queue + [None]),
         held := if r.held.None? then Some(|retired| + |queue|) else r.held)
  {
    ViewOf(retired, queue);
    assert r.results + [None] == Lift(retired) + (queue + [None]);
  }

  /** Retiring the front of an answered deque only moves the boundary. */
  lemma ResultsAfter(retired: seq<Outcome>, queue: seq<Slot>, queue': seq<Slot>, k: nat, o: Outcome)
    requires k < |queue| && queue' == queue[k := Some(o)]
    ensures var done := Prefix(queue');
      && Lift(retired + done) + queue'[|done|..] == (Lift(retired) + queue)[|retired| + k := Some(o)]
      && FrontPending(queue'[|done|..])
  {
    hide Prefix, Lift;
    var done := Prefix(queue');
    PrefixSplit(queue');
    LiftConcat(retired, done);
    assert queue' == queue'[..|done|] + queue'[|done|..];
    assert (Lift(retired) + queue)[|retired| + k := Some(o)] == Lift(retired) + queue';
  }

  lemma LiftConcat(a: seq<Outcome>, b: seq<Outcome>)
    ensures Lift(a + b) == Lift(a) + Lift(b) && |Lift(a)| == |a|
  {
  }

  /** Finishing call `c`, seen from the reference machine. */
  lemma CompleteView(rejects: Packet -> bool, r: Reference, retired: seq<Outcome>, queue: seq<Slot>, c: nat, o: Outcome)
    requires FrontPending(queue) && Pending(|retired|, queue, c) && r.results == Lift(retired) + queue
    ensures var queue' := Answered(|retired|, queue, c, o);
      var done, rest := Prefix(queue'), queue'[|Prefix(queue')|..];
      CompleteRef(rejects, r, c, o) ==
      Reference(Lift(retired + done) + rest, if r.held == Some(c) then None else r.held, r.phase,
                ErrorAfter(rejects, r.error, done),
                r.wakes + if r.held != Some(c) && rest == [] then 1 else 0)
  {
    hide Prefix, Lift, ErrorAfter;
    var queue' := Answered(|retired|, queue, c, o);
    var done, rest := Prefix(queue'), queue'[|Prefix(queue')|..];
    ResultsAfter(retired, queue, queue', c - |retired|, o);
    ViewOf(retired, queue);
    ViewOf(retired + done, rest);
    assert (retired + done)[|retired|..] == done;
  }

  /**
   `DispatcherInner` with its shared `DispatcherState`. Futures are named by the number of their
   call. `spawned` holds, for each spawned task, the `response_idx` it captured; `attempts` is the
   sequence of `io.encode` calls.
   */
  class Dispatcher {
    const rejects: Packet -> bool
    var error: Option<DispatchError>
    var base: Word
    var queue: seq<Slot>
    var response: Option<nat>
    var responseIdx: Word
    var phase: Phase
    var calls: nat
    var spawned: map<nat, Word>
    var attempts: seq<Packet>
    var wakes: nat
    ghost var retired: seq<Outcome>

    ghost predicate Valid()
      reads this
    {
      && |queue| < USIZE && FrontPending(queue)
      && calls == |retired| + |queue|
      && attempts == Packets(retired)
      && FuturesOk(base, |retired|, queue, response, responseIdx, spawned)
    }

    ghost function View(): Reference
      reads this
    {
      Reference(Lift(retired) + queue, response, phase, error, wakes)
    }

    constructor (rejects: Packet -> bool)
      ensures Valid() && View() == Initially() && this.rejects == rejects
    {
      this.rejects := rejects;
      error, base, queue := None, 0, [];
      response, responseIdx, phase, calls := None, 0, Processing, 0;
      spawned, attempts, wakes, retired := map[], [], 0, [];
    }

    /** The `match item` arms shared by all three places that retire an outcome. */
    method Retire(o: Outcome)
      requires attempts == Packets(retired)
      modifies this`error, this`attempts, this`retired
      ensures attempts == Packets(retired) && retired == old(retired) + [o]
      ensures error == if Raised(rejects, o).Some? then Raised(rejects, o) else old(error)
    {
      retired := retired + [o];
      match o {
        case Failed(e) => error := Some(Service(e));
        case Response(p) =>
          attempts := attempts + [p];
          if rejects(p) { error := Some(Encoder(p)); }
        case NoResponse =>
      }
    }

    /** Pops the front slot, whose outcome is `o`, and retires it. */
    method PopFront(o: Outcome)
      requires queue != [] && attempts == Packets(retired)
      modifies this`error, this`base, this`queue, this`attempts, this`retired
      ensures queue == old(queue)[1..] && base == WrappingAdd(old(base), 1)
      ensures attempts == Packets(retired) && retired == old(retired) + [o]
      ensures error == if Raised(rejects, o).Some? then Raised(rejects, o) else old(error)
    {
      queue := queue[1..];
      base := WrappingAdd(base, 1);
      Retire(o);
    }

    /** Retires the answered front slot and every Ready slot behind it. */
    method Flush(item: Outcome)
      requires 0 < |queue| < USIZE && attempts == Packets(retired)
      modifies this`error, this`base, this`queue, this`attempts, this`retired
      ensures var done := [item] + Prefix(old(queue)[1..]);
        && retired == old(retired) + done && attempts == Packets(retired)
        && queue == old(queue)[|done|..] && FrontPending(queue)
        && base == WrappingAdd(old(base), |done|)
        && error == ErrorAfter(rejects, old(error), done)
    {
      hide Packets, ErrorAfter, Raised;
      ghost var done := [item];
      NoErrorYet(rejects, error);
      ErrorStep(rejects, error, [], item);
      assert [] + done == done;
      PopFront(item);
      while queue != [] && queue[0].Some?
        invariant attempts == Packets(retired) && retired == old(retired) + done
        invariant |done| <= |old(queue)| && queue == old(queue)[|done|..]
        invariant done + Prefix(queue) == [item] + Prefix(old(queue)[1..])
        invariant base == WrappingAdd(old(base), |done|) && error == ErrorAfter(rejects, old(error), done)
        decreases |queue|
      {
        var next := queue[0].value;
        ErrorStep(rejects, old(error), done, next);
        assert done + Prefix(queue) == (done + [next]) + Prefix(queue[1..]);
        assert retired + [next] == old(retired) + (done + [next]);
        PopFront(next);
        done := done + [next];
      }
      assert done == done + Prefix(queue);
    }

    /** `DispatcherState::handle_result`: `c` names the call, which only the proof uses. */
    method HandleResult(item: Outcome, idxOfCall: Word, wake: bool, ghost c: nat)
      requires |queue| < USIZE && FrontPending(queue) && attempts == Packets(retired)
      requires Waiting(base, |retired|, queue, c, idxOfCall)
      modifies this`error, this`base, this`queue, this`attempts, this`wakes, this`retired
      ensures var queue' := Answered(|old(retired)|, old(queue), c, item);
        var done := Prefix(queue');
        && retired == old(retired) + done && attempts == Packets(retired)
        && queue == queue'[|done|..] && FrontPending(queue)
        && base == WrappingAdd(old(base), |done|)
        && error == ErrorAfter(rejects, old(error), done)
      ensures wakes == old(wakes) + if wake && queue == [] then 1 else 0
    {
      var idx := WrappingSub(idxOfCall, base);
      ghost var queue' := Answered(|retired|, queue, c, item);
      if idx == 0 {
        assert queue'[1..] == queue[1..];
        Flush(item);
        if wake && queue == [] { wakes := wakes + 1; }
      } else {
        queue := queue[idx := Some(item)];
        assert queue' == queue;
      }
    }

    /** `DispatcherInner::call_service`. */
    method CallService(atOnce: Option<Outcome>)
      requires Valid() && !phase.Terminated? && |queue| + 1 < USIZE
      modifies this
      ensures Valid() && phase == old(phase)
      ensures View() == CallRef(rejects, old(View()), atOnce)
    {
      if response.None? && atOnce.Some? {
        CallReady(atOnce.value);
      } else {
        CallPending(atOnce);
      }
    }

    /** The first poll is ready: encode at once when nothing is queued, otherwise queue the result. */
    method CallReady(res: Outcome)
      requires Valid() && !phase.Terminated? && |queue| + 1 < USIZE && response.None?
      modifies this
      ensures Valid() && phase == old(phase)
      ensures View() == CallRef(rejects, old(View()), Some(res))
    {
      CallReadyView(rejects, View(), retired, queue, res);
      if queue == [] {
        NoFutures(base, |retired|, response, responseIdx, spawned);
        Retire(res);
      } else {
        FuturesAppend(base, |retired|, queue, Some(res), response, responseIdx, spawned);
        responseIdx := WrappingAdd(base, |queue|);
        queue := queue + [Some(res)];
      }
      calls := calls + 1;
    }

    /** The future is not ready: the dispatcher keeps it if it has none, otherwise a task awaits it. */
    method CallPending(ghost atOnce: Option<Outcome>)
      requires Valid() && !phase.Terminated? && |queue| + 1 < USIZE
      requires response.Some? || atOnce.None?
      modifies this
      ensures Valid() && phase == old(phase)
      ensures View() == CallRef(rejects, old(View()), atOnce)
    {
      hide CallRef, Packets, FuturesOk;
      CallPendingView(rejects, View(), retired, queue, atOnce);
      FuturesAppend(base, |retired|, queue, None, response, responseIdx, spawned);
      var idx := WrappingAdd(base, |queue|);
      if response.None? {
        response, responseIdx := Some(calls), idx;
      } else {
        spawned := spawned[calls := idx];
      }
      queue := queue + [None];
      calls := calls + 1;
    }

    /** `poll` finds the held future ready. */
    method FinishHeld(o: Outcome)
      requires Valid() && response.Some?
      modifies this
      ensures Valid()
      ensures View() == CompleteRef(rejects, old(View()), old(response).value, o)
    {
      hide CompleteRef, Packets, ErrorAfter, Prefix, Lift, WrappingAdd, WrappingSub;
      ghost var n, c := |retired|, response.value;
      FuturesExclude(spawned, c);
      HandleResult(o, responseIdx, false, c);
      response := None;
      FuturesFinish(old(base), n, old(queue), c, o, |retired| - n, old(response), responseIdx, spawned);
      CompleteView(rejects, old(View()), old(retired), old(queue), c, o);
    }

    /** The task spawned for call `c` has its result. */
    method FinishSpawned(c: nat, o: Outcome)
      requires Valid() && c in spawned
      modifies this
      ensures Valid()
      ensures View() == CompleteRef(rejects, old(View()), c, o)
    {
      hide CompleteRef, Packets, ErrorAfter, Prefix, Lift, WrappingAdd, WrappingSub;
      ghost var n := |retired|;
      HandleResult(o, spawned[c], true, c);
      spawned := spawned - {c};
      FuturesFinish(old(base), n, old(queue), c, o, |retired| - n, response, responseIdx, old(spawned));
      CompleteView(rejects, old(View()), old(retired), old(queue), c, o);
    }

    /** The future of call `c` becomes ready; no such future exists unless the call is outstanding. */
    method Finish(c: nat, o: Outcome)
      requires Valid()
      modifies this
      ensures Valid()
      ensures View() == CompleteRef(rejects, old(View()), c, o)
    {
      if response == Some(c) {
        FinishHeld(o);
      } else if c in spawned {
        FinishSpawned(c, o);
      } else {
        assert !Pending(|retired|, queue, c);
      }
    }

    /** One step of a run; the `Stop` arm of `poll` only asks whether the deque is empty. */
    method React(e: Event)
      requires Valid()
      modifies this
      ensures Valid()
      ensures View() == Step(rejects, old(View()), e)
    {
      hide CompleteRef, Packets, Prefix, Lift, Reference.Learn;
      ViewOf(retired, queue);
      match e {
        case Call(atOnce) =>
          if !phase.Terminated? && |queue| + 1 < USIZE { CallService(atOnce); }
        case Complete(c, o) => Finish(c, o);
        case CheckError(atOnce) =>
          if !phase.Terminated? && error.Some? {
            phase := Stopping;
            if error.value.Encoder? {
              error := None;
              if |queue| + 1 < USIZE { CallService(atOnce); }
            }
          }
        case Stop => if !phase.Terminated? { phase := Stopping; }
        case Resume => if !phase.Terminated? { phase := Processing; }
        case Drain => if phase.Stopping? && queue == [] { phase := Terminated; }
      }
    }
  }

  /**
   The main result. Whatever the interleaving of calls, immediate results, completions in any
   order, errors and stops, the packets handed to the encoder are exactly the responses of the
   longest completed prefix of calls, in call order, each once (`InCallOrder`); the dispatcher shuts
   down, wakes the io and reports an error exactly as the reference machine does.
   */
  method Run(rejects: Packet -> bool, events: seq<Event>)
    returns (attempts: seq<Packet>, phase: Phase, error: Option<DispatchError>, wakes: nat)
    ensures attempts == Packets(Prefix(Behaviour(rejects, events).results))
    ensures InCallOrder(attempts, Behaviour(rejects, events).results)
    ensures phase == Behaviour(rejects, events).phase
    ensures error == Behaviour(rejects, events).error
    ensures wakes == Behaviour(rejects, events).wakes
  {
    var d := new Dispatcher(rejects);
    for k := 0 to |events|
      invariant d.Valid() && d.rejects == rejects
      invariant d.View() == Behaviour(rejects, events[..k])
    {
      assert events[..k + 1][..k] == events[..k];
      d.React(events[k]);
    }
    assert events[..|events|] == events;
    ViewOf(d.retired, d.queue);
    PrefixListed(Behaviour(rejects, events).results);
    return d.attempts, d.phase, d.error, d.wakes;
  }
}
