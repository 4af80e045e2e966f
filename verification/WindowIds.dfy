/**
 Packet ids of the outbound window: distinct in flight, reserved in `inflight_ids`, left behind when the
 queues are cleared; generated ids form a cyclic interval.
 */
module WindowIds {
  import opened Prelude
  import opened OutboundWindow
  import opened WindowOrder

  function IdsOf(es: seq<Entry>): set<PacketId> { set e | e in es :: e.id }

  /**
   No id is in flight twice, and `inflight_ids` holds every id in flight; until the queues are cleared
   it holds nothing else.
   */
  predicate IdsMirrored(w: Window)
  {
    && (forall i, j :: 0 <= i < j < |w.inflight| ==> w.inflight[i].id != w.inflight[j].id)
    && IdsOf(w.inflight) <= w.ids
    && (!w.cleared ==> w.ids == IdsOf(w.inflight))
  }

  lemma AddId(es: seq<Entry>, e: Entry)
    ensures IdsOf(es + [e]) == IdsOf(es) + {e.id}
    ensures forall i :: 0 <= i < |es| ==> es[i].id in IdsOf(es)
  {
    assert forall i :: 0 <= i < |es| ==> es[i] in es;
  }

  /** The front leaves; the rest does not have its id. */
  lemma RemoveId(es: seq<Entry>)
    requires es != [] && forall i, j :: 0 <= i < j < |es| ==> es[i].id != es[j].id
    ensures IdsOf(es[1..]) == IdsOf(es) - {es[0].id} && es[0].id in IdsOf(es)
  {
    assert forall e :: e in es[1..] ==> e in es && e.id != es[0].id;
    assert forall e :: e in es ==> e == es[0] || e in es[1..];
    assert es[0] in es;
  }

  /** What a step does to the FIFO and the id set, apart from waking. */
  lemma DispatchIds(w: Window, req: Request, blocking: bool)
    ensures var w' := Dispatch(w, req, blocking);
      && w'.cleared == w.cleared
      && if Admitted(w, req)
         then IdFor(w, req) !in w.ids && w'.inflight == w.inflight + [NewEntry(w, req, blocking)]
              && w'.ids == w.ids + {IdFor(w, req)}
         else w'.inflight == w.inflight && w'.ids == w.ids
  {
    hide NextId, Log.Add;
    if req.explicitId.None? {
      RegisterIds(w.(lastId := NextId(w.lastId).1), IdFor(w, req), req.kind, blocking, req.encodes);
    } else {
      RegisterIds(w, IdFor(w, req), req.kind, blocking, req.encodes);
    }
    DispatchLog(w, req, blocking);
  }

  lemma RegisterIds(w: Window, id: PacketId, kind: Kind, blocking: bool, encodes: bool)
    ensures var w' := Register(w, id, kind, blocking, encodes);
      w'.ids == if Admit(w, id, kind, encodes).Registered? then w.ids + {id} else w.ids
    ensures Admit(w, id, kind, encodes).Registered? ==> id !in w.ids
  {
    hide Log.Add;
  }

  /** An acknowledgement that fits removes the front and its id; any other one empties the FIFO. */
  lemma AckIds(w: Window, id: PacketId, kind: Kind)
    ensures var w' := AckOf(w, id, kind);
      && (Fits(w, id, kind) ==> w'.cleared == w.cleared && w'.inflight == w.inflight[1..] && w'.ids == w.ids - {id})
      && (!Fits(w, id, kind) ==>
            && w'.cleared && w'.inflight == []
            && w'.ids == if w.inflight != [] && w.inflight[0].id == id then w.ids - {id} else w.ids)
  {
    hide Wake, Elements, Lost, LostReports, Log.Resolve;
  }

  lemma WakeIds(w: Window, n: nat)
    ensures var w' := WakeUp(w, n); w'.inflight == w.inflight && w'.ids == w.ids && w'.cleared == w.cleared
  {
    hide Wake, Elements;
  }

  /** The effect of every step on the FIFO and the id set. */
  lemma StepIds(w: Window, e: Event)
    ensures var w', d := Step(w, e), Dispatched(w, e);
      if d.Some? then
        var n := NewEntry(w, d.value.0, d.value.1);
        n.id !in w.ids && w'.inflight == w.inflight + [n] && w'.ids == w.ids + {n.id} && w'.cleared == w.cleared
      else if !w.panicked && e.Ack? then
        w'.inflight == AckOf(w, e.id, e.kind).inflight && w'.ids == AckOf(w, e.id, e.kind).ids
        && w'.cleared == AckOf(w, e.id, e.kind).cleared
      else if !w.panicked && e.Close? then w'.inflight == [] && w'.ids == w.ids && w'.cleared
      else w'.inflight == w.inflight && w'.ids == w.ids && w'.cleared == w.cleared
  {
    hide Dispatch, AckOf, WakeUp, NoCredit, Lost, LostReports;
    match e {
      case SetCap(c) => WakeIds(w, c);
      case DisableWrb => if |w.inflight| < w.cap { WakeIds(w.(wrBackpressure := false), w.cap - |w.inflight|); }
      case Send(req) => DispatchIds(w, req, true);
      case SendNoBlock(id, encodes) => DispatchIds(w, Request(Publish, id, encodes), false);
      case Resume(x, req) => DispatchIds(w.(signalled := w.signalled - {x}), req, true);
      case _ =>
    }
  }

  lemma IdsStep(w: Window, e: Event)
    requires IdsMirrored(w)
    ensures IdsMirrored(Step(w, e))
  {
    hide Step, AckOf, IdsOf, Dispatched;
    StepIds(w, e);
    NoIds();
    var d := Dispatched(w, e);
    if d.Some? {
      AddId(w.inflight, NewEntry(w, d.value.0, d.value.1));
    } else if e.Ack? {
      AckIds(w, e.id, e.kind);
      if Fits(w, e.id, e.kind) { RemoveId(w.inflight); }
    }
  }

  lemma NoIds()
    ensures IdsOf([]) == {}
  {
  }

  lemma {:induction false} RunIds(w: Window, events: seq<Event>)
    requires IdsMirrored(w)
    ensures IdsMirrored(Run(w, events))
    decreases |events|
  {
    hide Step, IdsMirrored;
    if events != [] {
      IdsStep(w, events[0]);
      RunIds(Step(w, events[0]), events[1..]);
    }
  }

  /** In every run, also after the queues were cleared, no packet id is in flight twice. */
  lemma InFlightIdsDistinct(events: seq<Event>)
    ensures IdsMirrored(Run(Initially(), events))
  {
    hide Run;
    RunIds(Initially(), events);
  }

  // ---------------------------------------------------------------- stale ids

  /** Ids that stay reserved although nothing is in flight under them. */
  function Stale(w: Window): set<PacketId> { w.ids - IdsOf(w.inflight) }

  /** The ids a step leaves behind: those in flight when the queues are cleared, but for one just removed. */
  function LeftBehind(w: Window, e: Event): set<PacketId>
  {
    if w.panicked then {}
    else if e.Close? then IdsOf(w.inflight)
    else if e.Ack? && !Fits(w, e.id, e.kind) then
      if w.inflight != [] && w.inflight[0].id == e.id then IdsOf(w.inflight) - {e.id} else IdsOf(w.inflight)
    else {}
  }

  /** Stale ids only accumulate: nothing can be registered under one, so nothing removes it. */
  lemma StaleStep(w: Window, e: Event)
    requires IdsMirrored(w)
    ensures Stale(Step(w, e)) == Stale(w) + LeftBehind(w, e)
  {
    hide Step, AckOf, IdsOf, Dispatched;
    StepIds(w, e);
    NoIds();
    var d := Dispatched(w, e);
    if d.Some? {
      AddId(w.inflight, NewEntry(w, d.value.0, d.value.1));
      NotAClosing(w, e);
    } else if e.Ack? {
      AckIds(w, e.id, e.kind);
      if w.inflight != [] { RemoveId(w.inflight); }
    }
  }

  lemma NotAClosing(w: Window, e: Event)
    requires Dispatched(w, e).Some?
    ensures !e.Close? && !e.Ack?
  {
  }

  predicate NeverLeavesBehind(w: Window, events: seq<Event>)
    decreases |events|
  {
    events == [] || (LeftBehind(w, events[0]) == {} && NeverLeavesBehind(Step(w, events[0]), events[1..]))
  }

  lemma {:induction false} StaleOnlyGrows(w: Window, events: seq<Event>)
    requires IdsMirrored(w)
    ensures Stale(w) <= Stale(Run(w, events))
    ensures Stale(Run(w, events)) == {} <==> Stale(w) == {} && NeverLeavesBehind(w, events)
    decreases |events|
  {
    hide Step, IdsMirrored, Stale, LeftBehind;
    if events != [] {
      StaleStep(w, events[0]);
      IdsStep(w, events[0]);
      StaleOnlyGrows(Step(w, events[0]), events[1..]);
    }
  }

  lemma StaleIs(w: Window)
    requires IdsMirrored(w)
    ensures Stale(w) == {} <==> w.ids == IdsOf(w.inflight)
  {
    hide IdsOf;
    if Stale(w) == {} {
      forall id | id in w.ids ensures id in IdsOf(w.inflight) { assert id !in Stale(w); }
    }
  }

  /** `inflight_ids` is exactly the set of ids in flight if and only if no clearing step left one behind. */
  lemma IdSetExact(events: seq<Event>)
    ensures var w := Run(Initially(), events);
      w.ids == IdsOf(w.inflight) <==> NeverLeavesBehind(Initially(), events)
  {
    hide Run, NeverLeavesBehind, IdsOf;
    NoIds();
    StaleOnlyGrows(Initially(), events);
    InFlightIdsDistinct(events);
    StaleIs(Initially());
    StaleIs(Run(Initially(), events));
  }

  /** Closing with a packet in flight leaves its id reserved for ever. */
  lemma CloseLeavesIdBehind()
    ensures var w := Run(Initially(), [SetCap(1)] + [Send(Request(Publish, None, true))] + [Close]);
      w.inflight == [] && w.ids == {1}
  {
    var p := Request(Publish, None, true);
    assert Wake([], {}, 1) == ([], []);
    RunSnoc(Initially(), [], SetCap(1));
    assert [] + [SetCap(1)] == [SetCap(1)];
    RunSnoc(Initially(), [SetCap(1)], Send(p));
    RunSnoc(Initially(), [SetCap(1)] + [Send(p)], Close);
  }

  // ---------------------------------------------------------------- generated ids

  /** The id of the n-th packet when all ids are generated: 1, 2, ..., 65535, 1, 2, ... */
  function IdAt(n: nat): PacketId { n % (U16 - 1) + 1 }

  lemma IdAtDistinct(i: nat, j: nat)
    requires i < j
    ensures j - i < U16 - 1 ==> IdAt(i) != IdAt(j)
    ensures j - i == U16 - 1 ==> IdAt(i) == IdAt(j)
  {
  }

  /** All ids so far were generated: the k-th registration has the k-th id of the cycle. */
  predicate Cyclic(w: Window)
  {
    !w.cleared ==>
      && w.lastId == |w.log.registered| % (U16 - 1)
      && (forall i :: 0 <= i < |w.log.registered| ==> w.log.registered[i].id == IdAt(i))
  }

  /** A generated id is refused exactly when the whole cycle of 65,535 ids is in flight. */
  lemma GeneratedIdRefusedOnlyWhenFull(w: Window)
    requires Ordered(w) && IdsMirrored(w) && Cyclic(w) && !w.cleared
    ensures |w.inflight| <= U16 - 1
    ensures NextId(w.lastId).0 == IdAt(|w.log.registered|)
    ensures NextId(w.lastId).0 in w.ids <==> |w.inflight| == U16 - 1
  {
    var n, first := |w.log.registered|, |w.log.resolutions|;
    assert forall i :: 0 <= i < |w.inflight| ==> w.inflight[i].id == IdAt(first + i);
    IdAtDistinct(first, first + (U16 - 1));
    if |w.inflight| == U16 - 1 {
      assert w.inflight[0] in w.inflight && w.inflight[0].id == IdAt(n);
    } else {
      forall i | 0 <= i < |w.inflight| ensures w.inflight[i].id != IdAt(n) {
        IdAtDistinct(first + i, n);
      }
    }
  }

  /**
   The request uses a generated id, is not a publish the codec refuses and does not find the cycle
   exhausted; or it has an id of its own and is refused, which leaves no trace.
   */
  predicate InCycle(w: Window, req: Request)
  {
    if req.explicitId.None? then (req.encodes || !req.kind.Publish?) && |w.inflight| < U16 - 1
    else !Admitted(w, req)
  }

  predicate Generated(w: Window, e: Event)
  {
    Attempted(w, e).Some? ==> InCycle(w, Attempted(w, e).value.0)
  }

  predicate AllGenerated(w: Window, events: seq<Event>)
    decreases |events|
  {
    events == [] || ((w.cleared || Generated(w, events[0])) && AllGenerated(Step(w, events[0]), events[1..]))
  }

  /** The id handed out last; `inflight_idx` is 0 after 65,535. */
  function LastGiven(last: LastId): PacketId { if last == 0 then U16 - 1 else last }

  lemma LastInCycle(n: nat, last: LastId)
    requires last == n % (U16 - 1)
    ensures n > 0 ==> IdAt(n - 1) == LastGiven(last)
  {
  }

  /** Generated ids advance `inflight_idx` by one in the cycle. */
  lemma NextInCycle(n: nat, last: LastId)
    requires last == n % (U16 - 1)
    ensures NextId(last).1 == (n + 1) % (U16 - 1)
  {
  }

  lemma DispatchLast(w: Window, req: Request, blocking: bool)
    ensures Dispatch(w, req, blocking).lastId == if req.explicitId.None? then NextId(w.lastId).1 else w.lastId
    ensures req.explicitId.None? ==> IdFor(w, req) == NextId(w.lastId).0
  {
    hide NextId;
  }

  lemma CycleMoves(n: nat)
    ensures n % (U16 - 1) != (n + 1) % (U16 - 1)
  {
  }

  /** A dispatch keeps the cycle exactly when it hands out an id and registers it, or does neither. */
  lemma DispatchCyclic(w: Window, req: Request, blocking: bool)
    requires Ordered(w) && IdsMirrored(w) && Cyclic(w) && !w.cleared
    ensures Cyclic(Dispatch(w, req, blocking)) <==> InCycle(w, req)
  {
    hide Dispatch, Register, NextId, IdAt, Ordered, IdsMirrored, IdFor;
    var n := |w.log.registered|;
    DispatchLog(w, req, blocking);
    DispatchLast(w, req, blocking);
    GeneratedIdRefusedOnlyWhenFull(w);
    NextInCycle(n, w.lastId);
    CycleMoves(n);
    var L' := Dispatch(w, req, blocking).log.registered;
    assert forall i :: 0 <= i < n ==> L'[i] == w.log.registered[i];
    if req.explicitId.None? {
      assert Admitted(w, req) <==> (req.encodes || !req.kind.Publish?) && |w.inflight| < U16 - 1;
      assert Admitted(w, req) ==> L'[n].id == IdAt(n);
    }
  }

  lemma WakeCyclic(w: Window, n: nat)
    ensures Cyclic(WakeUp(w, n)) <==> Cyclic(w)
  {
    hide Wake, Elements;
  }

  lemma AckCyclic(w: Window, id: PacketId, kind: Kind)
    requires Cyclic(w)
    ensures Cyclic(AckOf(w, id, kind))
  {
    hide AckOf;
    AckKeepsHistory(w, id, kind);
    AckKeepsLast(w, id, kind);
  }

  lemma AckKeepsLast(w: Window, id: PacketId, kind: Kind)
    ensures var w' := AckOf(w, id, kind); w'.lastId == w.lastId && (w.cleared ==> w'.cleared)
  {
    hide Wake, Elements, Lost, LostReports, Log.Resolve;
  }

  /** One step keeps the cycle exactly when what it tries to send stays in it. */
  lemma CyclicStep(w: Window, e: Event)
    requires Ordered(w) && IdsMirrored(w) && Cyclic(w)
    ensures Cyclic(Step(w, e)) <==> w.cleared || Generated(w, e)
  {
    hide Dispatch, AckOf, WakeUp, NoCredit, Ordered, IdsMirrored, IdAt;
    if w.cleared {
      ClearedStays(w, e);
    } else {
      match e {
        case SetCap(c) => WakeCyclic(w, c);
        case DisableWrb => if |w.inflight| < w.cap { WakeCyclic(w.(wrBackpressure := false), w.cap - |w.inflight|); }
        case Send(req) => DispatchCyclic(w, req, true);
        case SendNoBlock(id, encodes) => DispatchCyclic(w, Request(Publish, id, encodes), false);
        case Resume(x, req) => ResumeCyclic(w, x, req);
        case Ack(id, kind) => AckCyclic(w, id, kind);
        case _ =>
      }
    }
  }

  lemma ResumeCyclic(w: Window, x: nat, req: Request)
    requires Ordered(w) && IdsMirrored(w) && Cyclic(w) && !w.cleared
    ensures Cyclic(Dispatch(w.(signalled := w.signalled - {x}), req, true)) <==> InCycle(w, req)
  {
    hide Dispatch;
    DispatchCyclic(w.(signalled := w.signalled - {x}), req, true);
  }

  lemma ClearedStays(w: Window, e: Event)
    requires w.cleared
    ensures Step(w, e).cleared
  {
    hide Step, AckOf, Dispatched;
    StepIds(w, e);
    if e.Ack? { AckIds(w, e.id, e.kind); }
  }

  predicate AlwaysCyclic(w: Window, events: seq<Event>)
    decreases |events|
  {
    Cyclic(w) && (events == [] || AlwaysCyclic(Step(w, events[0]), events[1..]))
  }

  /** The ids of a run follow the cycle throughout exactly when every attempt to send stays in it. */
  lemma {:induction false} CyclicExactly(w: Window, events: seq<Event>)
    requires Ordered(w) && IdsMirrored(w) && Cyclic(w)
    ensures AlwaysCyclic(w, events) <==> AllGenerated(w, events)
    ensures AllGenerated(w, events) ==> var w' := Run(w, events); Ordered(w') && IdsMirrored(w') && Cyclic(w')
    decreases |events|
  {
    hide Step, Ordered, IdsMirrored, Cyclic, Generated;
    if events != [] {
      OrderedStep(w, events[0]);
      IdsStep(w, events[0]);
      CyclicStep(w, events[0]);
      if w.cleared || Generated(w, events[0]) {
        CyclicExactly(Step(w, events[0]), events[1..]);
      } else {
        assert !AlwaysCyclic(Step(w, events[0]), events[1..]);
      }
    }
  }

  /** The ids in flight are consecutive in the cycle, and the last one is the id handed out last. */
  predicate CyclicInterval(w: Window)
  {
    && (forall i :: 0 <= i < |w.inflight| ==> w.inflight[i].id == IdAt(|w.log.resolutions| + i))
    && |w.log.resolutions| + |w.inflight| == |w.log.registered|
    && (w.inflight != [] ==> w.inflight[|w.inflight| - 1].id == LastGiven(w.lastId))
    && NextId(w.lastId).0 == IdAt(|w.log.registered|)
  }

  lemma CyclicIsInterval(w: Window)
    requires Ordered(w) && IdsMirrored(w) && Cyclic(w) && !w.cleared
    ensures CyclicInterval(w)
  {
    hide IdAt, NextId, IdsMirrored, LastGiven;
    GeneratedIdRefusedOnlyWhenFull(w);
    LastInCycle(|w.log.registered|, w.lastId);
    assert forall i :: 0 <= i < |w.inflight| ==> w.inflight[i] == w.log.registered[|w.log.resolutions| + i];
  }

  /**
   With generated ids only, the ids in flight are a contiguous interval of the cycle that ends at the
   last id handed out, the next id continues the cycle, and it is refused exactly when all 65,535 ids
   are in flight.
   */
  lemma GeneratedIdsFormInterval(events: seq<Event>)
    requires AllGenerated(Initially(), events)
    ensures var w := Run(Initially(), events);
      !w.cleared ==> CyclicInterval(w) && (NextId(w.lastId).0 in w.ids <==> |w.inflight| == U16 - 1)
  {
    hide Run, CyclicInterval, NextId, AllGenerated;
    CyclicExactly(Initially(), events);
    var w := Run(Initially(), events);
    if !w.cleared {
      GeneratedIdRefusedOnlyWhenFull(w);
      CyclicIsInterval(w);
    }
  }

  // ---------------------------------------------------------------- wasted ids

  /** A publish that the codec refuses uses up its id. */
  lemma FailedSend(w: Window)
    requires !w.closed && !w.panicked && !NoCredit(w)
    ensures var refused := Request(Publish, None, false);
      Step(w, Send(refused)) == w.(lastId := NextId(w.lastId).1)
  {
    hide NextId, Log.Add;
  }

  /** One packet in flight under id 1, and `n` refused publishes after it. */
  lemma {:induction false} ManyFailures(n: nat) returns (events: seq<Event>)
    requires n < U16 - 1
    ensures var w := Run(Initially(), events);
      && w.cap == 2 && |w.inflight| == 1 && w.ids == {1} && w.lastId == (if n == U16 - 2 then 0 else n + 1)
      && !w.closed && !w.cleared && !w.panicked && !w.wrBackpressure
  {
    var sent, refused := Request(Publish, None, true), Request(Publish, None, false);
    if n == 0 {
      assert Wake([], {}, 2) == ([], []);
      RunSnoc(Initially(), [], SetCap(2));
      assert [] + [SetCap(2)] == [SetCap(2)];
      RunSnoc(Initially(), [SetCap(2)], Send(sent));
      events := [SetCap(2)] + [Send(sent)];
    } else {
      hide Step, Run;
      var before := ManyFailures(n - 1);
      events := before + [Send(refused)];
      RunSnoc(Initially(), before, Send(refused));
      FailedSend(Run(Initially(), before));
    }
  }

  /** After 65,534 refused publishes the next send is refused for its id, although one packet is in flight. */
  lemma FailedEncodesExhaustIds() returns (events: seq<Event>)
    ensures var w := Run(Initially(), events);
      |w.inflight| == 1 && !w.cleared && !NoCredit(w) && !Admitted(w, Request(Publish, None, true))
  {
    hide Run;
    events := ManyFailures(U16 - 2);
  }
}
