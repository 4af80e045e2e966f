/**
 Credit of the outbound window: when the receive maximum is respected, and when a sender can be left
 waiting although there is credit. Both properties fail for some runs of the code; the lemmas give
 the exact step conditions and a concrete failing run for each.
 */
module WindowCredit {
  import opened Prelude
  import opened OutboundWindow

  predicate Distinct<T(==)>(s: seq<T>)
  {
    forall i, j :: 0 <= i < j < |s| ==> s[i] != s[j]
  }

  /** What every step keeps of waiters and signals. */
  predicate Queues(w: Window)
  {
    && Distinct(w.waiters)
    && (forall x :: x in w.waiters ==> x < w.nextWaiter && x !in w.signalled)
    && (forall x :: x in w.signalled ==> x < w.nextWaiter)
  }

  /** Number of queued waiters whose receiver is alive. */
  function Living(waiters: seq<nat>, dead: set<nat>): nat
  {
    if waiters == [] then 0 else (if waiters[0] in dead then 0 else 1) + Living(waiters[1..], dead)
  }

  // ---------------------------------------------------------------- waking

  lemma {:induction false} WakeFacts(ws: seq<nat>, dead: set<nat>, n: nat)
    requires Distinct(ws)
    ensures var (woken, rest) := Wake(ws, dead, n);
      && |woken| == (if n < Living(ws, dead) then n else Living(ws, dead))
      && Living(rest, dead) == Living(ws, dead) - |woken|
      && Distinct(woken) && Distinct(rest)
      && (forall x :: x in woken ==> x in ws && x !in dead && x !in rest)
      && (forall x :: x in rest ==> x in ws)
  {
    if n != 0 && ws != [] {
      assert forall x :: x in ws[1..] ==> x in ws && x != ws[0];
      WakeFacts(ws[1..], dead, if ws[0] in dead then n else n - 1);
    }
  }

  /** The queued waiters whose receiver is alive, in queue order. */
  function LivingOnes(ws: seq<nat>, dead: set<nat>): seq<nat>
  {
    if ws == [] then [] else (if ws[0] in dead then [] else [ws[0]]) + LivingOnes(ws[1..], dead)
  }

  /** Waking is fair: the oldest living waiters are signalled, and only passed-over dead ones are lost. */
  lemma {:induction false} WakesOldestFirst(ws: seq<nat>, dead: set<nat>, n: nat)
    ensures var (woken, rest) := Wake(ws, dead, n);
      && LivingOnes(ws, dead) == woken + LivingOnes(rest, dead)
      && |woken| <= n && (|woken| < n ==> rest == [])
      && |rest| <= |ws| && rest == ws[|ws| - |rest|..]
  {
    if n != 0 && ws != [] {
      WakesOldestFirst(ws[1..], dead, if ws[0] in dead then n else n - 1);
    }
  }

  lemma WakeOne(ws: seq<nat>, dead: set<nat>)
    requires ws != [] && ws[0] !in dead
    ensures Wake(ws, dead, 1) == ([ws[0]], ws[1..])
  {
    assert Wake(ws[1..], dead, 0) == ([], ws[1..]);
    assert [ws[0]] + [] == [ws[0]];
  }

  lemma {:induction false} ElementsCard(s: seq<nat>)
    requires Distinct(s)
    ensures |Elements(s)| == |s|
  {
    if s != [] {
      ElementsCard(s[1..]);
      assert Elements(s) == Elements(s[1..]) + {s[0]};
    }
  }

  function Min(a: nat, b: nat): nat { if a < b then a else b }

  /** Waking `n` waiters signals as many as are alive, and each signal is new. */
  lemma WakeUpCount(w: Window, n: nat)
    requires Queues(w)
    ensures Queues(WakeUp(w, n))
    ensures |WakeUp(w, n).signalled| == |w.signalled| + Min(n, Living(w.waiters, w.dead))
    ensures Living(WakeUp(w, n).waiters, w.dead) == Living(w.waiters, w.dead) - Min(n, Living(w.waiters, w.dead))
  {
    WakeFacts(w.waiters, w.dead, n);
    var woken := Wake(w.waiters, w.dead, n).0;
    ElementsCard(woken);
    assert w.signalled !! Elements(woken);
  }

  lemma {:induction false} LivingAfterDrop(ws: seq<nat>, dead: set<nat>, x: nat)
    ensures Living(ws, dead + {x}) <= Living(ws, dead)
    ensures x !in ws ==> Living(ws, dead + {x}) == Living(ws, dead)
  {
    if ws != [] {
      LivingAfterDrop(ws[1..], dead, x);
    }
  }

  lemma EnqueueQueues(w: Window)
    requires Queues(w)
    ensures Queues(Enqueue(w))
  {
    var ws := Enqueue(w).waiters;
    assert forall i :: 0 <= i < |w.waiters| ==> w.waiters[i] in w.waiters && ws[i] == w.waiters[i];
  }

  lemma SendQueues(w: Window, req: Request)
    requires Queues(w)
    ensures Queues(Step(w, Send(req))) && Queues(Step(w, Ready))
  {
    EnqueueQueues(w);
  }

  lemma AckQueues(w: Window, id: PacketId, kind: Kind)
    requires Queues(w)
    ensures Queues(AckOf(w, id, kind))
  {
    if Fits(w, id, kind) {
      WakeUpCount(Pop(w, w.ids - {id}, Acked(id, kind)), 1);
    }
  }

  lemma DisableQueues(w: Window)
    requires Queues(w)
    ensures Queues(DisableWrbOf(w))
  {
    if |w.inflight| < w.cap {
      WakeUpCount(w.(wrBackpressure := false), w.cap - |w.inflight|);
    }
  }

  lemma DispatchQueues(w: Window, req: Request, blocking: bool)
    requires Queues(w)
    ensures Queues(Dispatch(w, req, blocking))
  {
    hide Dispatch, Distinct;
    DispatchCount(w, req, blocking);
  }

  lemma QueuesStep(w: Window, e: Event)
    requires Queues(w)
    ensures Queues(Step(w, e))
  {
    match e {
      case SetCap(c) => WakeUpCount(w, c);
      case DisableWrb => DisableQueues(w);
      case Ack(id, kind) => AckQueues(w, id, kind);
      case Send(req) => SendQueues(w, req);
      case Ready => EnqueueQueues(w);
      case SendNoBlock(id, encodes) => DispatchQueues(w, Request(Publish, id, encodes), false);
      case Resume(x, req) => DispatchQueues(w.(signalled := w.signalled - {x}), req, true);
      case _ =>
    }
  }

  lemma RegisterCount(w: Window, id: PacketId, kind: Kind, blocking: bool, encodes: bool)
    ensures var w' := Register(w, id, kind, blocking, encodes);
      && |w'.inflight| == |w.inflight| + (if Admit(w, id, kind, encodes).Registered? then 1 else 0)
      && w'.cap == w.cap && w'.waiters == w.waiters && w'.dead == w.dead
      && w'.signalled == w.signalled && w'.wrBackpressure == w.wrBackpressure && w'.nextWaiter == w.nextWaiter
  {
  }

  /** Sending touches the window only by the one packet it puts in flight. */
  lemma DispatchCount(w: Window, req: Request, blocking: bool)
    ensures var w' := Dispatch(w, req, blocking);
      && |w'.inflight| == |w.inflight| + (if Admitted(w, req) then 1 else 0)
      && w'.cap == w.cap && w'.waiters == w.waiters && w'.dead == w.dead
      && w'.signalled == w.signalled && w'.wrBackpressure == w.wrBackpressure && w'.nextWaiter == w.nextWaiter
  {
    if req.explicitId.Some? {
      RegisterCount(w, req.explicitId.value, req.kind, blocking, req.encodes);
    } else {
      var (id, last) := NextId(w.lastId);
      RegisterCount(w.(lastId := last), id, req.kind, blocking, req.encodes);
    }
  }

  // ---------------------------------------------------------------- the receive maximum

  /** In-flight packets and signalled waiters together stay within the receive maximum. */
  predicate CreditOk(w: Window) { |w.inflight| + |w.signalled| <= w.cap }

  /**
   The steps that respect the receive maximum. A fresh send must not take a slot that a signalled
   waiter has been promised; raising signals by `set_cap` or by the end of back-pressure must not
   promise more slots than there are. All other steps are always safe.
   */
  predicate Safe(w: Window, e: Event)
  {
    w.panicked ||
    match e
    case Send(req) => w.closed || NoCredit(w) || !Admitted(w, req) || |w.inflight| + |w.signalled| < w.cap
    case SendNoBlock(id, encodes) =>
      w.closed || NoCredit(w) || !Admitted(w, Request(Publish, id, encodes))
      || |w.inflight| + |w.signalled| < w.cap
    case SetCap(c) => |w.inflight| + |w.signalled| + Min(c, Living(w.waiters, w.dead)) <= c
    case DisableWrb =>
      |w.inflight| >= w.cap
      || |w.signalled| + Min(w.cap - |w.inflight|, Living(w.waiters, w.dead)) <= w.cap - |w.inflight|
    case _ => true
  }

  lemma DisableCredit(w: Window)
    requires Queues(w) && CreditOk(w) && !w.panicked
    ensures CreditOk(DisableWrbOf(w)) <==> Safe(w, DisableWrb)
  {
    if |w.inflight| < w.cap {
      WakeUpCount(w.(wrBackpressure := false), w.cap - |w.inflight|);
    }
  }

  lemma SendCredit(w: Window, req: Request, blocking: bool)
    requires CreditOk(w)
    ensures CreditOk(Dispatch(w, req, blocking)) <==> (!Admitted(w, req) || |w.inflight| + |w.signalled| < w.cap)
  {
    DispatchCount(w, req, blocking);
  }

  lemma ResumeCredit(w: Window, x: nat, req: Request)
    requires CreditOk(w)
    ensures CreditOk(Step(w, Resume(x, req)))
  {
    DispatchCount(w.(signalled := w.signalled - {x}), req, true);
  }

  lemma AckCredit(w: Window, id: PacketId, kind: Kind)
    requires Queues(w) && CreditOk(w)
    ensures CreditOk(AckOf(w, id, kind))
  {
    hide Wake, Elements, Lost, LostReports, Log.Resolve;
    if Fits(w, id, kind) {
      WakeUpCount(Pop(w, w.ids - {id}, Acked(id, kind)), 1);
    }
  }

  /** One step keeps the bound exactly when it is safe. */
  lemma CreditStep(w: Window, e: Event)
    requires Queues(w) && CreditOk(w)
    ensures CreditOk(Step(w, e)) <==> Safe(w, e)
  {
    match e {
      case SetCap(c) => WakeUpCount(w, c);
      case DisableWrb => if !w.panicked { DisableCredit(w); }
      case Ack(id, kind) => AckCredit(w, id, kind);
      case Send(req) => SendCredit(w, req, true);
      case SendNoBlock(id, encodes) => SendCredit(w, Request(Publish, id, encodes), false);
      case Resume(x, req) => ResumeCredit(w, x, req);
      case _ =>
    }
  }

  /** The bound holds in every state of the run. */
  predicate AlwaysCredit(w: Window, events: seq<Event>)
    decreases |events|
  {
    CreditOk(w) && (events == [] || AlwaysCredit(Step(w, events[0]), events[1..]))
  }

  predicate AlwaysSafe(w: Window, events: seq<Event>)
    decreases |events|
  {
    events == [] || (Safe(w, events[0]) && AlwaysSafe(Step(w, events[0]), events[1..]))
  }

  /** Promises never exceed the receive maximum in a run exactly when every step of it is safe. */
  lemma {:induction false} PromisedCredit(w: Window, events: seq<Event>)
    requires Queues(w) && CreditOk(w)
    ensures AlwaysCredit(w, events) <==> AlwaysSafe(w, events)
    decreases |events|
  {
    if events != [] {
      CreditStep(w, events[0]);
      QueuesStep(w, events[0]);
      if Safe(w, events[0]) {
        PromisedCredit(Step(w, events[0]), events[1..]);
      }
    }
  }

  /** The peer's view: no more packets in flight than it allows. */
  predicate WithinCap(w: Window) { |w.inflight| <= w.cap }

  /** A signalled sender runs on although the window is full, or the window shrinks below its content. */
  predicate Overfills(w: Window, e: Event)
  {
    !w.panicked &&
    match e
    case Resume(x, req) => x in w.signalled && Admitted(w, req) && |w.inflight| == w.cap
    case SetCap(c) => c < |w.inflight|
    case _ => false
  }

  lemma CapStep(w: Window, e: Event)
    requires WithinCap(w)
    ensures WithinCap(Step(w, e)) <==> !Overfills(w, e)
  {
    hide Dispatch, Wake, Elements, Lost, LostReports;
    match e {
      case Send(req) => DispatchCount(w, req, true);
      case SendNoBlock(id, encodes) => DispatchCount(w, Request(Publish, id, encodes), false);
      case Resume(x, req) => DispatchCount(w.(signalled := w.signalled - {x}), req, true);
      case _ =>
    }
  }

  predicate AlwaysWithinCap(w: Window, events: seq<Event>)
    decreases |events|
  {
    WithinCap(w) && (events == [] || AlwaysWithinCap(Step(w, events[0]), events[1..]))
  }

  predicate NeverOverfills(w: Window, events: seq<Event>)
    decreases |events|
  {
    events == [] || (!Overfills(w, events[0]) && NeverOverfills(Step(w, events[0]), events[1..]))
  }

  /**
   The peer's receive maximum is respected in every state of a run exactly when no signalled sender
   resumes into a full window and `set_cap` does not shrink the window below its content.
   */
  lemma {:induction false} ReceiveMaximum(w: Window, events: seq<Event>)
    requires WithinCap(w)
    ensures AlwaysWithinCap(w, events) <==> NeverOverfills(w, events)
    decreases |events|
  {
    if events != [] {
      CapStep(w, events[0]);
      if !Overfills(w, events[0]) {
        ReceiveMaximum(Step(w, events[0]), events[1..]);
      }
    }
  }

  /** Keeping promises within the maximum keeps packets within it. */
  lemma {:induction false} PromisesCoverPackets(w: Window, events: seq<Event>)
    requires AlwaysCredit(w, events)
    ensures AlwaysWithinCap(w, events)
    decreases |events|
  {
    if events != [] {
      PromisesCoverPackets(Step(w, events[0]), events[1..]);
    }
  }

  /** Fresh sends and the end of back-pressure wait for signalled waiters; `set_cap` is not repeated. */
  predicate Patient(w: Window, events: seq<Event>)
    decreases |events|
  {
    events == [] ||
    ( && !events[0].SetCap?
      && (events[0].Send? || events[0].SendNoBlock? || events[0].DisableWrb? ==> w.signalled == {})
      && Patient(Step(w, events[0]), events[1..]))
  }

  lemma {:induction false} PatientIsSafe(w: Window, events: seq<Event>)
    requires Patient(w, events)
    ensures AlwaysSafe(w, events)
    decreases |events|
  {
    if events != [] {
      PatientIsSafe(Step(w, events[0]), events[1..]);
    }
  }

  /** Before `set_cap` there is no credit: senders queue up and nobody is signalled. */
  predicate NotStarted(w: Window) { w.cap == 0 && w.inflight == [] && w.signalled == {} && !w.panicked }

  lemma NotStartedStep(w: Window, e: Event)
    requires NotStarted(w) && !e.SetCap?
    ensures NotStarted(Step(w, e))
  {
    hide Dispatch, Wake, Elements, Lost, LostReports;
  }

  predicate NoSetCap(events: seq<Event>) { forall i :: 0 <= i < |events| ==> !events[i].SetCap? }

  lemma StartingPromises(w: Window, cap: nat)
    requires NotStarted(w) && Queues(w)
    ensures CreditOk(Step(w, SetCap(cap))) && Queues(Step(w, SetCap(cap)))
  {
    WakeUpCount(w, cap);
  }

  lemma {:induction false} PatientFrom(w: Window, before: seq<Event>, cap: nat, events: seq<Event>)
    requires NotStarted(w) && Queues(w) && NoSetCap(before)
    requires Patient(Step(Run(w, before), SetCap(cap)), events)
    ensures AlwaysCredit(w, before + [SetCap(cap)] + events)
    decreases |before|
  {
    hide Step, Patient, Queues;
    var all := before + [SetCap(cap)] + events;
    if before == [] {
      var w' := Step(w, SetCap(cap));
      assert all[0] == SetCap(cap) && all[1..] == events;
      StartingPromises(w, cap);
      PatientIsSafe(w', events);
      PromisedCredit(w', events);
    } else {
      assert all[0] == before[0] && all[1..] == before[1..] + [SetCap(cap)] + events;
      NotStartedStep(w, before[0]);
      QueuesStep(w, before[0]);
      PatientFrom(Step(w, before[0]), before[1..], cap, events);
    }
  }

  /**
   With one `set_cap`, whatever happened before it, and patient senders after it, the peer's receive
   maximum is respected in every state of the run, and so are the slots promised.
   */
  lemma PatientRunsRespectReceiveMaximum(before: seq<Event>, cap: nat, events: seq<Event>)
    requires NoSetCap(before) && Patient(Step(Run(Initially(), before), SetCap(cap)), events)
    ensures AlwaysCredit(Initially(), before + [SetCap(cap)] + events)
    ensures AlwaysWithinCap(Initially(), before + [SetCap(cap)] + events)
  {
    PatientFrom(Initially(), before, cap, events);
    PromisesCoverPackets(Initially(), before + [SetCap(cap)] + events);
  }

  /** One of the runs below: the peer allows one packet, and it is in flight; `n` senders wait. */
  lemma BusyRun(n: nat) returns (events: seq<Event>)
    ensures var w := Run(Initially(), events);
      && w.cap == 1 && w.lastId == 1 && w.inflight == [Entry(0, 1, Publish, true, true)] && w.ids == {1}
      && w.waiters == seq(n, i => i) && w.nextWaiter == n && w.dead == {} && w.signalled == {}
      && !w.closed && !w.panicked && !w.wrBackpressure && |w.log.registered| == 1
  {
    var p := Request(Publish, None, true);
    if n == 0 {
      assert Wake([], {}, 1) == ([], []);
      events := [SetCap(1)] + [Send(p)];
      RunSnoc(Initially(), [SetCap(1)], Send(p));
      RunSnoc(Initially(), [], SetCap(1));
    } else {
      var before := BusyRun(n - 1);
      events := before + [Send(p)];
      RunSnoc(Initially(), before, Send(p));
    }
  }

  /**
   A fresh sender overtakes a signalled waiter: two packets end up in flight although the peer
   allows one.
   */
  lemma OvertakingExceedsReceiveMaximum() returns (events: seq<Event>)
    ensures var w := Run(Initially(), events);
      w.cap == 1 && |w.inflight| == 2 && !w.closed
  {
    var p := Request(Publish, None, true);
    var busy := BusyRun(1);
    assert Run(Initially(), busy).waiters == [0];
    WakeOne([0], {});
    RunSnoc(Initially(), busy, Ack(1, Publish));
    var freed := busy + [Ack(1, Publish)];
    var w := Run(Initially(), freed);
    assert w.signalled == {0} && w.inflight == [] && w.ids == {};
    RunSnoc(Initially(), freed, Send(p));
    RunSnoc(Initially(), freed + [Send(p)], Resume(0, p));
    events := freed + [Send(p)] + [Resume(0, p)];
  }

  // ---------------------------------------------------------------- no idle credit

  /** A living waiter is queued only while there is no credit left or the connection is throttled. */
  predicate NoIdleCredit(w: Window)
  {
    !w.panicked && Living(w.waiters, w.dead) > 0 ==> w.wrBackpressure || |w.inflight| + |w.signalled| >= w.cap
  }

  /** The step consumes a signal without putting a packet in flight. */
  predicate GivesUpSignal(w: Window, e: Event)
  {
    match e
    case Drop(x) => x in w.signalled
    case ResumeReady(x) => x in w.signalled
    case Resume(x, req) => x in w.signalled && !Admitted(w, req)
    case _ => false
  }

  /** ... while somebody else is waiting for exactly that credit: nobody passes the signal on. */
  predicate Wastes(w: Window, e: Event)
  {
    && !w.panicked && GivesUpSignal(w, e)
    && Living(w.waiters, w.dead) > 0
    && !w.wrBackpressure && |w.inflight| + |w.signalled| == w.cap
  }

  lemma SetCapNoIdle(w: Window, c: nat)
    requires Queues(w)
    ensures NoIdleCredit(SetCapOf(w, c))
  {
    WakeUpCount(w, c);
  }

  lemma DisableNoIdle(w: Window)
    requires Queues(w)
    ensures NoIdleCredit(DisableWrbOf(w))
  {
    if |w.inflight| < w.cap {
      WakeUpCount(w.(wrBackpressure := false), w.cap - |w.inflight|);
    }
  }

  lemma AckNoIdle(w: Window, id: PacketId, kind: Kind)
    requires Queues(w) && NoIdleCredit(w)
    ensures NoIdleCredit(AckOf(w, id, kind))
  {
    if Fits(w, id, kind) {
      WakeUpCount(Pop(w, w.ids - {id}, Acked(id, kind)), 1);
    }
  }

  lemma SendNoIdle(w: Window, req: Request, blocking: bool)
    requires Queues(w) && NoIdleCredit(w)
    ensures NoIdleCredit(Dispatch(w, req, blocking))
    ensures NoCredit(w) ==> NoIdleCredit(Enqueue(w))
  {
    DispatchCount(w, req, blocking);
  }

  lemma ResumeNoIdle(w: Window, x: nat, req: Request)
    requires Queues(w) && NoIdleCredit(w)
    ensures NoIdleCredit(Step(w, Resume(x, req))) <==> !Wastes(w, Resume(x, req))
  {
    DispatchCount(w.(signalled := w.signalled - {x}), req, true);
  }

  lemma DropNoIdle(w: Window, x: nat)
    requires Queues(w) && NoIdleCredit(w)
    ensures NoIdleCredit(Step(w, Drop(x))) <==> !Wastes(w, Drop(x))
    ensures NoIdleCredit(Step(w, ResumeReady(x))) <==> !Wastes(w, ResumeReady(x))
  {
    LivingAfterDrop(w.waiters, w.dead, x);
  }

  /** One step keeps credit from idling exactly when it does not waste a signal. */
  lemma IdleStep(w: Window, e: Event)
    requires Queues(w) && NoIdleCredit(w)
    ensures NoIdleCredit(Step(w, e)) <==> !Wastes(w, e)
  {
    match e {
      case SetCap(c) => SetCapNoIdle(w, c);
      case DisableWrb => DisableNoIdle(w);
      case Ack(id, kind) => AckNoIdle(w, id, kind);
      case Send(req) => SendNoIdle(w, req, true);
      case Ready => SendNoIdle(w, Request(Publish, None, true), true);
      case SendNoBlock(id, encodes) => SendNoIdle(w, Request(Publish, id, encodes), false);
      case Resume(x, req) => ResumeNoIdle(w, x, req);
      case Drop(x) => DropNoIdle(w, x);
      case ResumeReady(x) => DropNoIdle(w, x);
      case _ =>
    }
  }

  predicate AlwaysNoIdle(w: Window, events: seq<Event>)
    decreases |events|
  {
    NoIdleCredit(w) && (events == [] || AlwaysNoIdle(Step(w, events[0]), events[1..]))
  }

  predicate NeverWastes(w: Window, events: seq<Event>)
    decreases |events|
  {
    events == [] || (!Wastes(w, events[0]) && NeverWastes(Step(w, events[0]), events[1..]))
  }

  /** Credit never lies idle in a run exactly when no step of it wastes a signal. */
  lemma {:induction false} NoLostCredit(w: Window, events: seq<Event>)
    requires Queues(w) && NoIdleCredit(w)
    ensures AlwaysNoIdle(w, events) <==> NeverWastes(w, events)
    decreases |events|
  {
    if events != [] {
      IdleStep(w, events[0]);
      QueuesStep(w, events[0]);
      if !Wastes(w, events[0]) {
        NoLostCredit(Step(w, events[0]), events[1..]);
      }
    }
  }

  lemma {:induction false} RunKeepsNoIdle(w: Window, events: seq<Event>)
    requires Queues(w) && NoIdleCredit(w) && NeverWastes(w, events)
    ensures Queues(Run(w, events)) && NoIdleCredit(Run(w, events))
    decreases |events|
  {
    if events != [] {
      IdleStep(w, events[0]);
      QueuesStep(w, events[0]);
      RunKeepsNoIdle(Step(w, events[0]), events[1..]);
    }
  }

  lemma {:induction false} LivingCounts(ws: seq<nat>, dead: set<nat>)
    ensures |LivingOnes(ws, dead)| == Living(ws, dead)
  {
    if ws != [] {
      LivingCounts(ws[1..], dead);
    }
  }

  /** The oldest packet's own acknowledgement signals the oldest living waiter, unless it panics. */
  lemma AckSignalsOldest(w: Window)
    requires !w.panicked && w.inflight != [] && Living(w.waiters, w.dead) > 0
    ensures |LivingOnes(w.waiters, w.dead)| > 0
    ensures var w' := Step(w, Ack(w.inflight[0].id, w.inflight[0].kind));
      w'.panicked || LivingOnes(w.waiters, w.dead)[0] in w'.signalled
  {
    hide Living;
    LivingCounts(w.waiters, w.dead);
    WakesOldestFirst(w.waiters, w.dead, 1);
    NobodyLeft(w.dead);
    var woken := Wake(w.waiters, w.dead, 1).0;
    assert woken != [] ==> woken[0] in Elements(woken);
  }

  lemma NobodyLeft(dead: set<nat>)
    ensures LivingOnes([], dead) == []
  {
  }

  /**
   Somebody who waits on an unthrottled connection is not forgotten: a signal is on its way, or a packet
   is in flight whose acknowledgement signals the oldest waiter.
   */
  lemma NoDeadlock(events: seq<Event>)
    requires NeverWastes(Initially(), events)
    requires var w := Run(Initially(), events);
      !w.panicked && w.cap > 0 && !w.wrBackpressure && Living(w.waiters, w.dead) > 0
    ensures var w := Run(Initially(), events);
      || w.signalled != {}
      || ( && w.inflight != [] && |LivingOnes(w.waiters, w.dead)| > 0
           && var w' := Step(w, Ack(w.inflight[0].id, w.inflight[0].kind));
              w'.panicked || LivingOnes(w.waiters, w.dead)[0] in w'.signalled)
  {
    hide Run, Step, Living, LivingOnes;
    RunKeepsNoIdle(Initially(), events) by { NothingWaits(); }
    var w := Run(Initially(), events);
    if w.signalled == {} {
      assert |w.signalled| == 0;
      AckSignalsOldest(w);
    }
  }

  lemma NothingWaits()
    ensures Queues(Initially()) && NoIdleCredit(Initially())
  {
  }

  /**
   A signalled sender whose future is dropped takes the credit with it: the other sender waits for
   ever on an idle connection.
   */
  lemma DroppedSignalStrandsSender() returns (events: seq<Event>)
    ensures var w := Run(Initially(), events);
      && w.cap == 1 && w.inflight == [] && w.signalled == {} && !w.closed && !w.wrBackpressure
      && Living(w.waiters, w.dead) == 1
  {
    var busy := BusyRun(2);
    assert Run(Initially(), busy).waiters == [0, 1];
    WakeOne([0, 1], {});
    RunSnoc(Initially(), busy, Ack(1, Publish));
    var freed := busy + [Ack(1, Publish)];
    var w := Run(Initially(), freed);
    assert [0, 1][1..] == [1];
    assert w.signalled == {0} && w.inflight == [] && w.waiters == [1];
    RunSnoc(Initially(), freed, Drop(0));
    events := freed + [Drop(0)];
    assert Living([1], {0}) == 1;
  }
}
