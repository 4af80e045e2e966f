/**
 After the connection is closed. A sender that was signalled before the close resumes without asking
 whether the connection is still open; the lemmas say exactly when that leaves a send unresolved.
 */
module WindowTeardown {
  import opened Prelude
  import opened OutboundWindow
  import opened WindowOrder
  import opened WindowIds
  import WindowCredit

  /** Closed, and every send registered so far is resolved. */
  predicate TornDown(w: Window) { w.closed && !w.panicked && w.inflight == [] }

  /** Nobody waits any more, and the callback is gone; signals already given stay given. */
  predicate QueuesGone(w: Window, w': Window) { w'.waiters == [] && !w'.callback && w'.signalled == w.signalled }

  /** Closing, or an acknowledgement that does not fit, tears the connection down. */
  lemma ClosingTearsDown(w: Window, id: PacketId, kind: Kind)
    requires !w.panicked
    ensures TornDown(Step(w, Close)) && QueuesGone(w, Step(w, Close))
    ensures !Fits(w, id, kind) ==> TornDown(Step(w, Ack(id, kind))) && QueuesGone(w, Step(w, Ack(id, kind)))
  {
    hide Wake, Elements, Lost, LostReports, Log.Resolve;
  }

  lemma ClosedStep(w: Window, e: Event)
    requires TornDown(w)
    ensures var w' := Step(w, e); w'.closed && !w'.panicked
    ensures Step(w, e).inflight == [] <==> Dispatched(w, e).None?
    ensures Dispatched(w, e).Some? ==> e.Resume?
  {
    hide Dispatch, Wake, Elements, Lost, LostReports;
    match e {
      case Resume(x, req) => DispatchLog(w.(signalled := w.signalled - {x}), req, true);
      case _ =>
    }
  }

  predicate AlwaysResolved(w: Window, events: seq<Event>)
    decreases |events|
  {
    w.inflight == [] && (events == [] || AlwaysResolved(Step(w, events[0]), events[1..]))
  }

  /** No signalled sender resumes and is admitted. */
  predicate NoLateResume(w: Window, events: seq<Event>)
    decreases |events|
  {
    events == [] || (Dispatched(w, events[0]).None? && NoLateResume(Step(w, events[0]), events[1..]))
  }

  /**
   From a close on, every registered send is resolved in every later state exactly when no sender
   signalled before it resumes and is admitted.
   */
  lemma {:induction false} TeardownExact(w: Window, events: seq<Event>)
    requires TornDown(w)
    ensures AlwaysResolved(w, events) <==> NoLateResume(w, events)
    decreases |events|
  {
    hide Step, Dispatched;
    if events != [] {
      ClosedStep(w, events[0]);
      if Dispatched(w, events[0]).None? {
        TeardownExact(Step(w, events[0]), events[1..]);
      }
    }
  }

  predicate NobodyAnswers(events: seq<Event>)
  {
    forall i :: 0 <= i < |events| ==> !events[i].Ack? && !events[i].Close?
  }

  lemma {:induction false} NothingLeaves(w: Window, events: seq<Event>)
    requires NobodyAnswers(events)
    ensures |w.inflight| <= |Run(w, events).inflight|
    decreases |events|
  {
    hide Step, Dispatched;
    if events != [] {
      StepIds(w, events[0]);
      NothingLeaves(Step(w, events[0]), events[1..]);
    }
  }

  /** After the last close, all registered sends are resolved at the end exactly when nobody resumed late. */
  lemma {:induction false} ResolvedAtTheEnd(w: Window, events: seq<Event>)
    requires TornDown(w) && NobodyAnswers(events)
    ensures Run(w, events).inflight == [] <==> NoLateResume(w, events)
    decreases |events|
  {
    hide Step, Dispatched;
    if events != [] {
      ClosedStep(w, events[0]);
      var w' := Step(w, events[0]);
      if Dispatched(w, events[0]).None? {
        ResolvedAtTheEnd(w', events[1..]);
      } else {
        NothingLeaves(w', events[1..]);
      }
    }
  }

  /** A sender signalled just before the close is registered after it and waits for ever. */
  lemma LateResumeStrandsSender() returns (events: seq<Event>)
    ensures var w := Run(Initially(), events);
      w.closed && w.cleared && !w.panicked && w.inflight == [Entry(1, 2, Publish, true, true)]
  {
    var p := Request(Publish, None, true);
    var busy := WindowCredit.BusyRun(1);
    assert Run(Initially(), busy).waiters == [0];
    WindowCredit.WakeOne([0], {});
    RunSnoc(Initially(), busy, Ack(1, Publish));
    var freed := busy + [Ack(1, Publish)];
    var w := Run(Initially(), freed);
    assert w.signalled == {0} && w.inflight == [] && w.ids == {} && w.lastId == 1 && |w.log.registered| == 1;
    RunSnoc(Initially(), freed, Close);
    RunSnoc(Initially(), freed + [Close], Resume(0, p));
    events := freed + [Close] + [Resume(0, p)];
  }
}
