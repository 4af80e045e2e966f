/**
 Order of the outbound window: acknowledgements reach their own senders, in send order, once each, and
 closing resolves what is left.
 */
module WindowOrder {
  import opened Prelude
  import opened OutboundWindow

  // ---------------------------------------------------------------- acknowledgements

  /** Registrations are named in order; those not yet resolved are exactly the ones in flight. */
  predicate Ordered(w: Window) { OrderedLog(w.log, w.inflight, w.cleared, w.panicked) }

  /** A blocking sender sees both as a disconnect. */
  predicate LostFate(f: Fate) { f.Disconnected? || f.Dropped? }

  predicate OrderedLog(L: Log, inflight: seq<Entry>, cleared: bool, panicked: bool)
  {
    && |L.resolutions| <= |L.registered| && inflight == L.registered[|L.resolutions|..]
    && (forall i :: 0 <= i < |L.registered| ==> L.registered[i].name == i)
    && (forall i :: 0 <= i < |L.resolutions| ==> L.resolutions[i].name == i)
    && (forall i :: 0 <= i < |L.resolutions| && L.resolutions[i].fate.Acked? ==>
          L.resolutions[i].fate == Acked(L.registered[i].id, L.registered[i].kind))
    && (forall i :: 0 <= i < |L.resolutions| && LostFate(L.resolutions[i].fate) ==> cleared)
    && (forall i :: 0 <= i < |L.resolutions| && L.resolutions[i].fate.Unreported? ==>
          panicked && i == |L.resolutions| - 1)
  }

  lemma AddOrdered(L: Log, inflight: seq<Entry>, cleared: bool, panicked: bool, e: Entry)
    requires OrderedLog(L, inflight, cleared, panicked) && e.name == |L.registered|
    ensures OrderedLog(L.Add(e), inflight + [e], cleared, panicked)
  {
  }

  lemma ResolveOrdered(L: Log, inflight: seq<Entry>, cleared: bool, fate: Fate)
    requires OrderedLog(L, inflight, cleared, false) && inflight != []
    requires !fate.Acked? || fate == Acked(inflight[0].id, inflight[0].kind)
    ensures !fate.Unreported? ==> OrderedLog(L.Resolve(inflight[0], fate), inflight[1..], true, false)
    ensures fate.Acked? ==> OrderedLog(L.Resolve(inflight[0], fate), inflight[1..], cleared, false)
    ensures fate.Unreported? ==> OrderedLog(L.Resolve(inflight[0], fate), inflight[1..], cleared, true)
  {
    assert inflight[0] == L.registered[|L.resolutions|];
  }

  /** Callback entries are publishes, and none is in flight once the queues have been cleared. */
  predicate CallbackKinds(w: Window)
  {
    && (w.cleared ==> w.closed)
    && (forall i :: 0 <= i < |w.inflight| && !w.inflight[i].blocking ==> !w.cleared && w.inflight[i].kind.Publish?)
  }

  lemma RegisterOrdered(w: Window, id: PacketId, kind: Kind, blocking: bool, encodes: bool)
    requires Ordered(w)
    ensures Ordered(Register(w, id, kind, blocking, encodes))
  {
    hide OrderedLog, Log.Add;
    var e := Entry(|w.log.registered|, id, kind, blocking, encodes);
    AddOrdered(w.log, w.inflight, w.cleared, w.panicked, e);
  }

  lemma DispatchOrdered(w: Window, req: Request, blocking: bool)
    requires Ordered(w)
    ensures Ordered(Dispatch(w, req, blocking))
  {
    RegisterOrdered(w, IdFor(w, req), req.kind, blocking, req.encodes);
    RegisterOrdered(w.(lastId := NextId(w.lastId).1), IdFor(w, req), req.kind, blocking, req.encodes);
  }

  lemma ClearOrdered(w: Window)
    requires OrderedLog(w.log, w.inflight, true, false) && !w.panicked
    ensures Ordered(Clear(w))
    ensures Clear(w).log.registered == w.log.registered
    ensures |Clear(w).log.resolutions| == |Clear(w).log.registered|
  {
    var L, L' := w.log, Clear(w).log;
    forall i | |L.resolutions| <= i < |L'.resolutions|
      ensures L'.resolutions[i] == Resolution(i, Disconnected(w.callback))
    {
      assert L'.resolutions[i] == Lost(w.inflight, w.callback)[i - |L.resolutions|];
      assert w.inflight[i - |L.resolutions|] == L.registered[i];
    }
    assert forall i :: 0 <= i < |L.resolutions| ==> L'.resolutions[i] == L.resolutions[i];
  }

  lemma Loosen(L: Log, inflight: seq<Entry>, cleared: bool)
    requires OrderedLog(L, inflight, cleared, false)
    ensures OrderedLog(L, inflight, true, false)
  {
  }

  /** What a misfitting acknowledgement leaves to be cleared. */
  function Abandoned(w: Window, id: PacketId): Window
    requires w.inflight != []
  {
    Pop(w, if w.inflight[0].id != id then w.ids else w.ids - {id}, Dropped).(closed := true)
  }

  /** The four outcomes of an acknowledgement, as far as the log is concerned. */
  lemma AckCases(w: Window, id: PacketId, kind: Kind)
    ensures w.inflight == [] ==> AckOf(w, id, kind) == Clear(w.(closed := true))
    ensures w.inflight != [] && !Fits(w, id, kind) ==> AckOf(w, id, kind) == Clear(Abandoned(w, id))
    ensures Fits(w, id, kind) ==>
      var w' := AckOf(w, id, kind);
      && w'.inflight == w.inflight[1..] && w'.cleared == w.cleared
      && w'.panicked == (w.panicked || Unwraps(w, id, kind))
      && w'.log == w.log.Resolve(w.inflight[0], if Unwraps(w, id, kind) then Unreported else Acked(id, kind))
  {
    hide Clear, Wake, Elements, Log.Resolve;
  }

  lemma AbandonedIs(w: Window, id: PacketId)
    requires Ordered(w) && !w.panicked && w.inflight != []
    ensures var w' := Abandoned(w, id);
      && OrderedLog(w'.log, w'.inflight, true, false) && !w'.panicked
      && w'.log == w.log.Resolve(w.inflight[0], Dropped) && w'.log.registered == w.log.registered
  {
    hide OrderedLog;
    ResolveOrdered(w.log, w.inflight, w.cleared, Dropped);
  }

  lemma AckOrdered(w: Window, id: PacketId, kind: Kind)
    requires Ordered(w) && !w.panicked
    ensures Ordered(AckOf(w, id, kind))
  {
    hide OrderedLog, AckOf, Clear, Abandoned, Log.Resolve;
    AckCases(w, id, kind);
    Loosen(w.log, w.inflight, w.cleared);
    if w.inflight == [] {
      ClearOrdered(w.(closed := true));
    } else if Fits(w, id, kind) {
      ResolveOrdered(w.log, w.inflight, w.cleared, if Unwraps(w, id, kind) then Unreported else Acked(id, kind));
    } else {
      AbandonedIs(w, id);
      ClearOrdered(Abandoned(w, id));
    }
  }

  lemma OrderedStep(w: Window, e: Event)
    requires Ordered(w)
    ensures Ordered(Step(w, e))
  {
    hide Dispatch, AckOf, Wake, Elements, Lost, LostReports, OrderedLog;
    match e {
      case Send(req) => DispatchOrdered(w, req, true);
      case SendNoBlock(id, encodes) => DispatchOrdered(w, Request(Publish, id, encodes), false);
      case Resume(x, req) => DispatchOrdered(w.(signalled := w.signalled - {x}), req, true);
      case Ack(id, kind) => if !w.panicked { AckOrdered(w, id, kind); }
      case Close =>
        if !w.panicked {
          Loosen(w.log, w.inflight, w.cleared);
          ClearOrdered(w.(closed := true));
        }
      case _ =>
    }
  }

  lemma DispatchCallback(w: Window, req: Request, blocking: bool)
    requires CallbackKinds(w) && (blocking || (!w.closed && req.kind.Publish?))
    ensures CallbackKinds(Dispatch(w, req, blocking))
  {
    DispatchLog(w, req, blocking);
  }

  lemma AckCallback(w: Window, id: PacketId, kind: Kind)
    requires CallbackKinds(w)
    ensures CallbackKinds(AckOf(w, id, kind))
  {
    hide Wake, Elements, Lost, LostReports;
  }

  lemma CallbackStep(w: Window, e: Event)
    requires CallbackKinds(w)
    ensures CallbackKinds(Step(w, e))
  {
    match e {
      case Send(req) => DispatchCallback(w, req, true);
      case SendNoBlock(id, encodes) => if !w.closed { DispatchCallback(w, Request(Publish, id, encodes), false); }
      case Resume(x, req) => DispatchCallback(w.(signalled := w.signalled - {x}), req, true);
      case Ack(id, kind) => AckCallback(w, id, kind);
      case _ =>
    }
  }

  lemma {:induction false} RunOrdered(w: Window, events: seq<Event>)
    requires Ordered(w) && CallbackKinds(w)
    ensures Ordered(Run(w, events)) && CallbackKinds(Run(w, events))
    decreases |events|
  {
    if events != [] {
      OrderedStep(w, events[0]);
      CallbackStep(w, events[0]);
      RunOrdered(Step(w, events[0]), events[1..]);
    }
  }

  /**
   In every run the k-th resolution goes to the k-th registered send, with that send's own id and
   kind, or tells it that the connection is gone; until the queues are cleared only acknowledgements
   are delivered. What is not resolved is in flight.
   */
  lemma AcksInSendOrder(events: seq<Event>)
    ensures var w := Run(Initially(), events);
      && |w.log.resolutions| <= |w.log.registered|
      && w.inflight == w.log.registered[|w.log.resolutions|..]
      && (forall k :: 0 <= k < |w.log.resolutions| ==>
            && w.log.resolutions[k].name == w.log.registered[k].name == k
            && (|| w.log.resolutions[k].fate == Acked(w.log.registered[k].id, w.log.registered[k].kind)
                || (w.cleared && LostFate(w.log.resolutions[k].fate))
                || (w.panicked && k == |w.log.resolutions| - 1 && w.log.resolutions[k].fate == Unreported)))
  {
    RunOrdered(Initially(), events);
  }

  lemma MisfitResolvesEverything(w: Window, id: PacketId, kind: Kind)
    requires Ordered(w) && !Fits(w, id, kind) && !w.panicked
    ensures AckOf(w, id, kind).closed && |AckOf(w, id, kind).log.resolutions| == |w.log.registered|
  {
    hide OrderedLog, AckOf, Clear, Abandoned, Log.Resolve;
    AckCases(w, id, kind);
    Loosen(w.log, w.inflight, w.cleared);
    if w.inflight == [] {
      ClearOrdered(w.(closed := true));
      ClearCloses(w.(closed := true));
    } else {
      AbandonedIs(w, id);
      ClearOrdered(Abandoned(w, id));
      ClearCloses(Abandoned(w, id));
      AbandonedCloses(w, id);
    }
  }

  lemma ClearCloses(w: Window)
    ensures Clear(w).closed == w.closed
  {
  }

  lemma AbandonedCloses(w: Window, id: PacketId)
    requires w.inflight != []
    ensures Abandoned(w, id).closed
  {
  }

  lemma ResolvesEverything(w: Window, id: PacketId, kind: Kind)
    requires Ordered(w) && !w.panicked
    ensures |Step(w, Close).log.resolutions| == |Step(w, Close).log.registered| == |w.log.registered|
    ensures !Fits(w, id, kind) ==>
      var w' := Step(w, Ack(id, kind)); w'.closed && |w'.log.resolutions| == |w.log.registered|
  {
    hide OrderedLog, AckOf, Clear, Wake;
    Loosen(w.log, w.inflight, w.cleared);
    ClearOrdered(w.(closed := true));
    if !Fits(w, id, kind) {
      MisfitResolvesEverything(w, id, kind);
    }
  }

  /** Closing, or an acknowledgement that does not fit, resolves every send registered so far. */
  lemma CloseResolvesEverything(events: seq<Event>, id: PacketId, kind: Kind)
    requires !Run(Initially(), events).panicked
    ensures var w := Run(Initially(), events);
      && |Step(w, Close).log.resolutions| == |w.log.registered|
      && (!Fits(w, id, kind) ==>
            Step(w, Ack(id, kind)).closed && |Step(w, Ack(id, kind)).log.resolutions| == |w.log.registered|)
  {
    hide Step, Clear, Wake;
    RunOrdered(Initially(), events);
    ResolvesEverything(Run(Initially(), events), id, kind);
  }

  /**
   The panicking conversions of an `Ack` are unreachable: a fitting acknowledgement of a callback send
   is a PUBACK, and every send is answered with the kind it was registered with, which is the one its
   sender converts to.
   */
  lemma AckConversionsSafe(events: seq<Event>, id: PacketId, kind: Kind)
    ensures var w := Run(Initially(), events);
      && (Fits(w, id, kind) && !w.inflight[0].blocking ==> kind.Publish?)
      && |w.log.resolutions| <= |w.log.registered|
      && (forall k :: 0 <= k < |w.log.resolutions| && w.log.resolutions[k].fate.Acked? ==>
            w.log.resolutions[k].fate.kind == w.log.registered[k].kind)
  {
    RunOrdered(Initially(), events);
  }

  lemma RegisterLog(w: Window, id: PacketId, kind: Kind, blocking: bool, encodes: bool)
    ensures var w' := Register(w, id, kind, blocking, encodes);
      var e := Entry(|w.log.registered|, id, kind, blocking, encodes);
      && w'.callback == w.callback && w'.cleared == w.cleared && w'.closed == w.closed && w'.lastId == w.lastId
      && w'.panicked == w.panicked
      && if Admit(w, id, kind, encodes).Registered?
         then w'.log == w.log.Add(e) && w'.inflight == w.inflight + [e] else w' == w
  {
  }

  /** What dispatching the request adds to the history. */
  function NewEntry(w: Window, req: Request, blocking: bool): Entry
  {
    Entry(|w.log.registered|, IdFor(w, req), req.kind, blocking, req.encodes)
  }

  /** Sending appends at most one registration to the history. */
  lemma DispatchLog(w: Window, req: Request, blocking: bool)
    ensures Dispatch(w, req, blocking).log ==
      if Admitted(w, req) then w.log.Add(NewEntry(w, req, blocking)) else w.log
    ensures Dispatch(w, req, blocking).inflight ==
      if Admitted(w, req) then w.inflight + [NewEntry(w, req, blocking)] else w.inflight
    ensures var w' := Dispatch(w, req, blocking);
      && w'.callback == w.callback && w'.cleared == w.cleared && w'.closed == w.closed
      && w'.panicked == w.panicked
  {
    hide Register;
    RegisterLog(w, IdFor(w, req), req.kind, blocking, req.encodes);
    RegisterLog(w.(lastId := NextId(w.lastId).1), IdFor(w, req), req.kind, blocking, req.encodes);
  }

  // ---------------------------------------------------------------- what a step registers

  /** The request the step tries to put in flight, if any, and whether its sender blocks. */
  function Attempted(w: Window, e: Event): Option<(Request, bool)>
  {
    if w.panicked then None
    else
      match e
      case Send(req) => if !w.closed && !NoCredit(w) then Some((req, true)) else None
      case SendNoBlock(id, encodes) =>
        if !w.closed && !NoCredit(w) then Some((Request(Publish, id, encodes), false)) else None
      case Resume(x, req) => if x in w.signalled then Some((req, true)) else None
      case _ => None
  }

  /** The one it does put in flight. */
  function Dispatched(w: Window, e: Event): Option<(Request, bool)>
  {
    var a := Attempted(w, e);
    if a.Some? && Admitted(w, a.value.0) then a else None
  }

  lemma ClearKeepsHistory(w: Window)
    ensures var L := Clear(w).log; L.registered == w.log.registered && L.wire == w.log.wire
  {
    hide Lost, LostReports;
  }

  lemma AbandonedKeepsHistory(w: Window, id: PacketId)
    requires w.inflight != []
    ensures var L := Abandoned(w, id).log; L.registered == w.log.registered && L.wire == w.log.wire
  {
  }

  lemma AckKeepsHistory(w: Window, id: PacketId, kind: Kind)
    ensures var L := AckOf(w, id, kind).log; L.registered == w.log.registered && L.wire == w.log.wire
  {
    hide AckOf, Clear, Abandoned;
    AckCases(w, id, kind);
    if w.inflight == [] {
      ClearKeepsHistory(w.(closed := true));
    } else if !Fits(w, id, kind) {
      AbandonedKeepsHistory(w, id);
      ClearKeepsHistory(Abandoned(w, id));
    }
  }

  lemma WakeKeepsHistory(w: Window, n: nat)
    ensures WakeUp(w, n).log == w.log
  {
    hide Wake, Elements;
  }

  predicate Sends(e: Event) { e.Send? || e.SendNoBlock? || e.Resume? }

  /** `L'` is `L` with the dispatched request, if any, registered and, if the codec accepts it, written. */
  predicate Grown(w: Window, d: Option<(Request, bool)>, L: Log, L': Log)
  {
    if d.None? then L'.registered == L.registered && L'.wire == L.wire
    else
      var n := NewEntry(w, d.value.0, d.value.1);
      L'.registered == L.registered + [n] && L'.wire == L.wire + if n.written then [(n.id, n.kind)] else []
  }

  lemma DispatchGrows(w: Window, req: Request, blocking: bool)
    ensures Grown(w, if Admitted(w, req) then Some((req, blocking)) else None, w.log, Dispatch(w, req, blocking).log)
  {
    hide Dispatch, Admitted;
    DispatchLog(w, req, blocking);
    assert w.log.wire + [] == w.log.wire;
  }

  lemma ResumeGrows(w: Window, x: nat, req: Request)
    ensures var w1 := w.(signalled := w.signalled - {x});
      Grown(w, if Admitted(w, req) then Some((req, true)) else None, w.log, Dispatch(w1, req, true).log)
  {
    hide Dispatch, Grown, Log.Add, NextId;
    var w1 := w.(signalled := w.signalled - {x});
    DispatchGrows(w1, req, true);
    SameRequest(w, w1, req);
  }

  lemma SameRequest(w: Window, w1: Window, req: Request)
    requires w1.ids == w.ids && w1.lastId == w.lastId && w1.log == w.log
    ensures Admitted(w1, req) == Admitted(w, req) && NewEntry(w1, req, true) == NewEntry(w, req, true)
    ensures forall d, L, L' :: Grown(w1, d, L, L') <==> Grown(w, d, L, L')
  {
    hide NextId;
  }

  lemma SendsGrow(w: Window, e: Event)
    requires Sends(e)
    ensures Grown(w, Dispatched(w, e), w.log, Step(w, e).log)
  {
    hide Dispatch, Admitted, NoCredit, NewEntry;
    match e {
      case Send(req) => DispatchGrows(w, req, true);
      case SendNoBlock(id, encodes) => DispatchGrows(w, Request(Publish, id, encodes), false);
      case Resume(x, req) => ResumeGrows(w, x, req);
    }
  }

  lemma OthersKeepHistory(w: Window, e: Event)
    requires !Sends(e)
    ensures Dispatched(w, e).None? && Step(w, e).log.registered == w.log.registered
    ensures Step(w, e).log.wire == w.log.wire
  {
    hide Dispatch, AckOf, Clear, WakeUp, NoCredit, Admitted;
    match e {
      case SetCap(c) => WakeKeepsHistory(w, c);
      case DisableWrb =>
        if |w.inflight| < w.cap { WakeKeepsHistory(w.(wrBackpressure := false), w.cap - |w.inflight|); }
      case Ack(id, kind) => AckKeepsHistory(w, id, kind);
      case Close => ClearKeepsHistory(w.(closed := true));
      case _ =>
    }
  }

  /** The history of registrations and of packets written grows only by what the step dispatches. */
  lemma StepRegisters(w: Window, e: Event)
    ensures var L, L', d := w.log, Step(w, e).log, Dispatched(w, e);
      if d.None? then L'.registered == L.registered && L'.wire == L.wire
      else
        var n := NewEntry(w, d.value.0, d.value.1);
        L'.registered == L.registered + [n] && L'.wire == L.wire + if n.written then [(n.id, n.kind)] else []
  {
    hide Step, Dispatched, NewEntry;
    if Sends(e) { SendsGrow(w, e); } else { OthersKeepHistory(w, e); }
  }
}
