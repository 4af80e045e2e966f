/**
 The steps of the outbound window in terms of the queues alone: when a sender is held back, what a send
 that goes through changes, and which events decide back-pressure, capacity, dead waiters and closing.
 */
module WindowLaws {
  import opened Prelude
  import opened OutboundWindow
  import opened WindowOrder
  import WindowTeardown

  // ---------------------------------------------------------------- senders that are held back

  /** `w'` has one more waiter, the newest and last in the queue, and is otherwise `w`. */
  predicate OneMoreWaiter(w: Window, w': Window)
  {
    w' == w.(waiters := w.waiters + [w.nextWaiter], nextWaiter := w.nextWaiter + 1)
  }

  /** Under write back-pressure senders queue up and nothing is registered or written. */
  lemma BackpressureHoldsSenders(w: Window, req: Request, id: Option<PacketId>, encodes: bool)
    requires w.wrBackpressure && !w.panicked && !w.closed
    ensures OneMoreWaiter(w, Step(w, Send(req))) && OneMoreWaiter(w, Step(w, Ready))
    ensures Step(w, SendNoBlock(id, encodes)) == w
  {
    hide Dispatch;
  }

  /** So they do while the peer has as many packets as it allows. */
  lemma FullWindowHoldsSenders(w: Window, req: Request, id: Option<PacketId>, encodes: bool)
    requires |w.inflight| >= w.cap && !w.panicked && !w.closed
    ensures OneMoreWaiter(w, Step(w, Send(req))) && OneMoreWaiter(w, Step(w, Ready))
    ensures Step(w, SendNoBlock(id, encodes)) == w
  {
    hide Dispatch;
  }

  lemma ClosedSinkRefuses(w: Window, req: Request, id: Option<PacketId>, encodes: bool)
    requires w.closed
    ensures Step(w, Send(req)) == Step(w, Ready) == Step(w, SendNoBlock(id, encodes)) == w
  {
    hide Dispatch;
  }

  // ---------------------------------------------------------------- senders that go through

  /**
   The effect of a send: it uses its own id or the next one of the counter, which wraps after 65,535. It is
   refused when that id is in use, or when it is a publish the codec refuses; otherwise it is the newest
   packet in flight, and on the wire if the codec accepted it.
   */
  predicate SendEffect(w: Window, w': Window, req: Request, blocking: bool)
  {
    var id: int := if req.explicitId.Some? then req.explicitId.value else w.lastId + 1;
    && w'.lastId == (if req.explicitId.Some? then w.lastId else if w.lastId == 65534 then 0 else w.lastId + 1)
    && (if id in w.ids || (req.kind.Publish? && !req.encodes)
        then w'.inflight == w.inflight && w'.ids == w.ids && w'.log == w.log
        else
          && |w'.inflight| == |w.inflight| + 1 && w'.inflight[..|w.inflight|] == w.inflight
          && var e := w'.inflight[|w.inflight|];
             && e.id == id && e.kind == req.kind && e.blocking == blocking && e.written == req.encodes
             && w'.ids == w.ids + {e.id} && w'.log.registered == w.log.registered + [e]
             && w'.log.wire == w.log.wire + if req.encodes then [(e.id, e.kind)] else [])
    && w'.waiters == w.waiters && w'.nextWaiter == w.nextWaiter && w'.dead == w.dead && w'.cap == w.cap
    && w'.wrBackpressure == w.wrBackpressure && w'.callback == w.callback && w'.closed == w.closed
    && w'.cleared == w.cleared && w'.panicked == w.panicked
    && w'.log.resolutions == w.log.resolutions && w'.log.reports == w.log.reports
  }

  lemma RegisterEffect(w: Window, id: PacketId, kind: Kind, blocking: bool, encodes: bool)
    ensures var w' := Register(w, id, kind, blocking, encodes);
      if id in w.ids || (kind.Publish? && !encodes) then w' == w
      else
        var e := Entry(|w.log.registered|, id, kind, blocking, encodes);
        var L := Log(w.log.registered + [e], if encodes then w.log.wire + [(id, kind)] else w.log.wire,
                     w.log.resolutions, w.log.reports);
        w' == w.(inflight := w.inflight + [e], ids := w.ids + {id}, log := L)
  {
  }

  lemma DispatchEffect(w: Window, req: Request, blocking: bool)
    ensures SendEffect(w, Dispatch(w, req, blocking), req, blocking)
    ensures Dispatch(w, req, blocking).signalled == w.signalled
  {
    hide Register;
    if req.explicitId.Some? {
      RegisterEffect(w, req.explicitId.value, req.kind, blocking, req.encodes);
    } else {
      var (id, last) := NextId(w.lastId);
      RegisterEffect(w.(lastId := last), id, req.kind, blocking, req.encodes);
    }
  }

  /** With credit and without back-pressure on an open connection, a send goes through at once. */
  lemma CreditLetsThrough(w: Window, req: Request, id: Option<PacketId>, encodes: bool)
    requires |w.inflight| < w.cap && !w.wrBackpressure && !w.panicked && !w.closed
    ensures SendEffect(w, Step(w, Send(req)), req, true) && Step(w, Ready) == w
    ensures SendEffect(w, Step(w, SendNoBlock(id, encodes)), Request(Publish, id, encodes), false)
  {
    hide Dispatch, SendEffect;
    DispatchEffect(w, req, true);
    DispatchEffect(w, Request(Publish, id, encodes), false);
  }

  /** A signalled sender goes through whatever the credit is by then; its signal is used up. */
  lemma SignalledGoesThrough(w: Window, x: nat, req: Request)
    requires !w.panicked
    ensures var w' := Step(w, Resume(x, req));
      if x in w.signalled then SendEffect(w, w', req, true) && w'.signalled == w.signalled - {x} else w' == w
    ensures Step(w, ResumeReady(x)).signalled == w.signalled - {x}
    ensures Step(w, Drop(x)).signalled == w.signalled - {x}
  {
    hide Dispatch;
    DispatchEffect(w.(signalled := w.signalled - {x}), req, true);
  }

  // ---------------------------------------------------------------- what the events decide

  /** What a step does to the fields that events set directly. */
  lemma SettingsStep(w: Window, e: Event)
    requires !w.panicked
    ensures var w' := Step(w, e);
      && w'.wrBackpressure == (if e.EnableWrb? then true else if e.DisableWrb? then false else w.wrBackpressure)
      && w'.cap == (if e.SetCap? then e.cap else w.cap)
      && w'.dead == (if e.Drop? then w.dead + {e.waiter} else w.dead)
      && w'.closed == (w.closed || e.HangUp? || e.Close? || (e.Ack? && !Fits(w, e.id, e.kind)))
  {
    hide Dispatch, AckOf, WakeUp, Lost, LostReports;
    match e {
      case SetCap(c) => WakeSettings(w, c);
      case DisableWrb => if |w.inflight| < w.cap { WakeSettings(w.(wrBackpressure := false), w.cap - |w.inflight|); }
      case Send(req) => DispatchEffect(w, req, true);
      case SendNoBlock(id, encodes) => DispatchEffect(w, Request(Publish, id, encodes), false);
      case Resume(x, req) => DispatchEffect(w.(signalled := w.signalled - {x}), req, true);
      case Ack(id, kind) => AckSettings(w, id, kind);
      case _ =>
    }
  }

  /** Back-pressure, capacity and dead waiters are as before, and so is `closed`. */
  predicate SameSettings(w: Window, w': Window)
  {
    w'.wrBackpressure == w.wrBackpressure && w'.cap == w.cap && w'.dead == w.dead && w'.closed == w.closed
  }

  lemma WakeSettings(w: Window, n: nat)
    ensures SameSettings(w, WakeUp(w, n))
  {
    hide Wake, Elements;
  }

  lemma PopSettings(w: Window, ids: set<PacketId>, fate: Fate)
    requires w.inflight != []
    ensures SameSettings(w, Pop(w, ids, fate)) && SameSettings(w, Pop(w, ids, fate).(panicked := true))
  {
    hide Log.Resolve;
  }

  lemma CloseSettings(w: Window)
    ensures SameSettings(w.(closed := true), CloseOf(w))
  {
    hide Lost, LostReports;
  }

  lemma AckSettings(w: Window, id: PacketId, kind: Kind)
    ensures var w' := AckOf(w, id, kind);
      && w'.wrBackpressure == w.wrBackpressure && w'.cap == w.cap && w'.dead == w.dead
      && w'.closed == (w.closed || !Fits(w, id, kind))
  {
    hide WakeUp, Pop, CloseOf;
    CloseSettings(w);
    if w.inflight != [] {
      PopSettings(w, w.ids, Dropped);
      PopSettings(w, w.ids - {id}, Dropped);
      PopSettings(w, w.ids - {id}, Unreported);
      PopSettings(w, w.ids - {id}, Acked(id, kind));
      CloseSettings(Pop(w, w.ids, Dropped));
      CloseSettings(Pop(w, w.ids - {id}, Dropped));
      WakeSettings(Pop(w, w.ids - {id}, Acked(id, kind)), 1);
    }
  }

  /** The event at `k` enables back-pressure and no later one disables it. */
  predicate EnabledAt(events: seq<Event>, k: nat)
  {
    k < |events| && events[k].EnableWrb? && forall j :: k < j < |events| ==> !events[j].DisableWrb?
  }

  /** The event at `k` is the last `set_cap`. */
  predicate CapSetAt(events: seq<Event>, k: nat)
  {
    k < |events| && events[k].SetCap? && forall j :: k < j < |events| ==> !events[j].SetCap?
  }

  /** The event at `k` closes the connection: a close, the peer leaving, or an acknowledgement that does not fit. */
  predicate ClosesAt(events: seq<Event>, k: nat)
  {
    && k < |events|
    && ( || events[k].HangUp? || events[k].Close?
         || (events[k].Ack? && !Fits(Run(Initially(), events[..k]), events[k].id, events[k].kind)))
  }

  lemma FrozenFront(front: seq<Event>, e: Event)
    requires !Run(Initially(), front + [e]).panicked
    ensures !Run(Initially(), front).panicked
    ensures Run(Initially(), front + [e]) == Step(Run(Initially(), front), e)
  {
    RunSnoc(Initially(), front, e);
  }

  /** Back-pressure is on exactly when the last of the events that change it turned it on. */
  lemma {:induction false} BackpressureIsLast(events: seq<Event>)
    requires !Run(Initially(), events).panicked
    ensures Run(Initially(), events).wrBackpressure <==> exists k: nat :: EnabledAt(events, k)
  {
    hide Run, Step;
    if events == [] {
      NothingYet();
    } else {
      var front, e := events[..|events| - 1], events[|events| - 1];
      assert events == front + [e];
      FrozenFront(front, e);
      BackpressureIsLast(front);
      SettingsStep(Run(Initially(), front), e);
      forall k | 0 <= k < |front| ensures EnabledAt(events, k) <==> EnabledAt(front, k) && !e.DisableWrb? {
        assert EnabledAt(front, k) && !e.DisableWrb? ==> EnabledAt(events, k);
        if EnabledAt(events, k) { assert forall j :: k < j < |front| ==> front[j] == events[j]; }
      }
      if e.EnableWrb? { assert EnabledAt(events, |front|); }
    }
  }

  /** The capacity is the last one set, and 0 before any was. */
  lemma {:induction false} CapacityIsLast(events: seq<Event>)
    requires !Run(Initially(), events).panicked
    ensures forall k: nat :: CapSetAt(events, k) ==> Run(Initially(), events).cap == events[k].cap
    ensures (forall k :: 0 <= k < |events| ==> !events[k].SetCap?) ==> Run(Initially(), events).cap == 0
  {
    hide Run, Step;
    if events == [] {
      NothingYet();
    } else {
      var front, e := events[..|events| - 1], events[|events| - 1];
      assert events == front + [e];
      FrozenFront(front, e);
      CapacityIsLast(front);
      SettingsStep(Run(Initially(), front), e);
      forall k: nat | CapSetAt(events, k) ensures Run(Initially(), events).cap == events[k].cap {
        if k < |front| {
          assert !e.SetCap?;
          assert CapSetAt(front, k);
        }
      }
    }
  }

  /** A waiter counts as dead exactly when its future was dropped. */
  lemma {:induction false} DeadAreDropped(events: seq<Event>, x: nat)
    requires !Run(Initially(), events).panicked
    ensures x in Run(Initially(), events).dead <==> Drop(x) in events
  {
    hide Run, Step;
    if events == [] {
      NothingYet();
    } else {
      var front, e := events[..|events| - 1], events[|events| - 1];
      assert events == front + [e];
      FrozenFront(front, e);
      DeadAreDropped(front, x);
      SettingsStep(Run(Initially(), front), e);
    }
  }

  /** The connection is closed exactly when some event closed it. */
  lemma {:induction false} ClosedIsCaused(events: seq<Event>)
    requires !Run(Initially(), events).panicked
    ensures Run(Initially(), events).closed <==> exists k: nat :: ClosesAt(events, k)
  {
    hide Run, Step, Fits;
    if events == [] {
      NothingYet();
    } else {
      var front, e := events[..|events| - 1], events[|events| - 1];
      assert events == front + [e];
      FrozenFront(front, e);
      ClosedIsCaused(front);
      SettingsStep(Run(Initially(), front), e);
      forall k | 0 <= k < |front| ensures ClosesAt(events, k) <==> ClosesAt(front, k) {
        assert events[..k] == front[..k];
      }
      assert events[..|front|] == front;
      var closes := e.HangUp? || e.Close? || (e.Ack? && !Fits(Run(Initially(), front), e.id, e.kind));
      assert ClosesAt(events, |front|) <==> closes;
    }
  }

  lemma NothingYet()
    ensures Run(Initially(), []) == Initially()
    ensures var w := Initially(); !w.wrBackpressure && w.cap == 0 && w.dead == {} && !w.closed
  {
  }
}
