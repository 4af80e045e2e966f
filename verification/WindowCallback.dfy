/**
 The publish-ack callback of the outbound window. A non-blocking send is registered without a sender
 whether or not a callback is installed; its acknowledgement unwraps the callback. The lemmas say
 exactly which runs panic there, which states let the peer cause it, and which step leads to them.
 */
module WindowCallback {
  import opened Prelude
  import opened OutboundWindow
  import WindowOrder

  /** A packet is in flight that nobody can be told about. */
  ghost predicate Exposed(w: Window)
  {
    !w.panicked && !w.callback && exists i :: 0 <= i < |w.inflight| && !w.inflight[i].blocking
  }

  /** A non-blocking send goes through while no callback is installed. */
  predicate Unguarded(w: Window, e: Event)
  {
    && !w.panicked && !w.callback && e.SendNoBlock? && !w.closed && !NoCredit(w)
    && Admitted(w, Request(Publish, e.explicitId, e.encodes))
  }

  lemma DispatchExposed(w: Window, req: Request, blocking: bool)
    requires !w.panicked && !Exposed(w)
    ensures var w' := Dispatch(w, req, blocking);
      && w'.callback == w.callback && !w'.panicked
      && (Exposed(w') <==> !w.callback && !blocking && Admitted(w, req))
  {
    hide Dispatch, Register;
    var w' := Dispatch(w, req, blocking);
    WindowOrder.DispatchLog(w, req, blocking);
    if Admitted(w, req) {
      assert w'.inflight[|w.inflight|].blocking == blocking;
      assert forall i :: 0 <= i < |w.inflight| ==> w'.inflight[i] == w.inflight[i];
    }
  }

  lemma AckExposed(w: Window, id: PacketId, kind: Kind)
    requires !w.panicked && !Exposed(w)
    ensures var w' := AckOf(w, id, kind); !w'.panicked && !Exposed(w')
  {
    hide Wake, Elements, Log.Resolve, Lost, LostReports;
  }

  /** One step exposes the connection exactly when it sends without blocking and without a callback. */
  lemma ExposedStep(w: Window, e: Event)
    requires !w.panicked && !Exposed(w)
    ensures !Step(w, e).panicked
    ensures Exposed(Step(w, e)) <==> Unguarded(w, e)
  {
    hide Dispatch, AckOf, Wake, Elements, Lost, LostReports;
    match e {
      case Send(req) => DispatchExposed(w, req, true);
      case SendNoBlock(id, encodes) => DispatchExposed(w, Request(Publish, id, encodes), false);
      case Resume(x, req) => ResumeExposed(w, x, req);
      case Ack(id, kind) => AckExposed(w, id, kind);
      case _ =>
    }
  }

  lemma ResumeExposed(w: Window, x: nat, req: Request)
    requires !w.panicked && !Exposed(w)
    ensures var w' := Step(w, Resume(x, req)); !w'.panicked && !Exposed(w')
  {
    hide Dispatch;
    DispatchExposed(w.(signalled := w.signalled - {x}), req, true);
  }

  ghost predicate NeverExposed(w: Window, events: seq<Event>)
    decreases |events|
  {
    !w.panicked && !Exposed(w) && (events == [] || NeverExposed(Step(w, events[0]), events[1..]))
  }

  /** A callback is installed at every non-blocking send that goes through. */
  predicate AlwaysGuarded(w: Window, events: seq<Event>)
    decreases |events|
  {
    events == [] || (!Unguarded(w, events[0]) && AlwaysGuarded(Step(w, events[0]), events[1..]))
  }

  /** A run never panics and is never exposed to it exactly when every non-blocking send finds a callback. */
  lemma {:induction false} GuardedRunsAreSafe(w: Window, events: seq<Event>)
    requires !w.panicked && !Exposed(w)
    ensures NeverExposed(w, events) <==> AlwaysGuarded(w, events)
    ensures AlwaysGuarded(w, events) ==> !Run(w, events).panicked
    decreases |events|
  {
    hide Step, Exposed, Unguarded;
    if events != [] {
      ExposedStep(w, events[0]);
      if !Unguarded(w, events[0]) {
        GuardedRunsAreSafe(Step(w, events[0]), events[1..]);
      } else {
        assert !NeverExposed(Step(w, events[0]), events[1..]);
      }
    }
  }

  lemma AckNeverPanics(events: seq<Event>)
    requires AlwaysGuarded(Initially(), events)
    ensures !Run(Initially(), events).panicked
  {
    GuardedRunsAreSafe(Initially(), events);
  }

  // ---------------------------------------------------------------- what the peer can do

  predicate OnlyAcks(events: seq<Event>) { forall i :: 0 <= i < |events| ==> events[i].Ack? }

  lemma {:induction false} UnexposedSurvivesAcks(w: Window, acks: seq<Event>)
    requires !w.panicked && !Exposed(w) && OnlyAcks(acks)
    ensures !Run(w, acks).panicked
    decreases |acks|
  {
    hide Step, Exposed;
    if acks != [] {
      ExposedStep(w, acks[0]);
      UnexposedSurvivesAcks(Step(w, acks[0]), acks[1..]);
    }
  }

  /** Acknowledging a blocking send in order brings the next packet to the front. */
  lemma AckFront(w: Window)
    requires !w.panicked && w.inflight != []
    ensures var e, w' := w.inflight[0], Step(w, Ack(w.inflight[0].id, w.inflight[0].kind));
      if !e.blocking && !w.callback then w'.panicked
      else !w'.panicked && w'.inflight == w.inflight[1..] && w'.callback == w.callback
  {
    hide Wake, Elements, Log.Resolve;
  }

  lemma {:induction false} ExposedFallsToAcks(w: Window, k: nat) returns (acks: seq<Event>)
    requires !w.panicked && !w.callback && k < |w.inflight| && !w.inflight[k].blocking
    ensures OnlyAcks(acks) && Run(w, acks).panicked
    decreases k
  {
    hide Step;
    var first := Ack(w.inflight[0].id, w.inflight[0].kind);
    var w' := Step(w, first);
    AckFront(w);
    if w'.panicked {
      acks := [first];
      assert acks[1..] == [] && Run(w', []) == w';
    } else {
      var rest := ExposedFallsToAcks(w', k - 1);
      acks := [first] + rest;
      assert acks[1..] == rest;
    }
  }

  /** The peer can make the connection panic by acknowledgements alone exactly when it is exposed. */
  lemma PeerCanPanic(w: Window)
    requires !w.panicked
    ensures (exists acks :: OnlyAcks(acks) && Run(w, acks).panicked) <==> Exposed(w)
  {
    hide Run;
    if Exposed(w) {
      var k :| 0 <= k < |w.inflight| && !w.inflight[k].blocking;
      var acks := ExposedFallsToAcks(w, k);
    } else {
      forall acks | OnlyAcks(acks) ensures !Run(w, acks).panicked {
        UnexposedSurvivesAcks(w, acks);
      }
    }
  }

  // ---------------------------------------------------------------- which runs panic

  /** The k-th event acknowledges a non-blocking send before any callback has been installed. */
  predicate AcksTooEarly(events: seq<Event>, k: nat)
    requires k < |events|
  {
    var w := Run(Initially(), events[..k]);
    && events[k].Ack? && Fits(w, events[k].id, events[k].kind) && !w.inflight[0].blocking
    && SetCallback !in events[..k]
  }

  lemma CallbackStep(w: Window, e: Event)
    requires !w.panicked
    ensures var w' := Step(w, e);
      && (w.cleared ==> w'.cleared)
      && (!w'.cleared ==> w'.callback == (w.callback || e == SetCallback))
      && (w'.panicked <==> e.Ack? && Unwraps(w, e.id, e.kind))
  {
    hide Dispatch, Wake, Elements, Lost, LostReports, Log.Resolve;
    match e {
      case Send(req) => WindowOrder.DispatchLog(w, req, true);
      case SendNoBlock(id, encodes) => WindowOrder.DispatchLog(w, Request(Publish, id, encodes), false);
      case Resume(x, req) => WindowOrder.DispatchLog(w.(signalled := w.signalled - {x}), req, true);
      case _ =>
    }
  }

  /** Until the queues are cleared, a callback is installed exactly when one has ever been set. */
  lemma {:induction false} Installed(events: seq<Event>)
    ensures var w := Run(Initially(), events);
      !w.panicked && !w.cleared ==> (w.callback <==> SetCallback in events)
  {
    hide Run, Step;
    if events == [] {
      NothingYet();
    } else {
      var front, e := events[..|events| - 1], events[|events| - 1];
      assert events == front + [e];
      Installed(front);
      RunSnoc(Initially(), front, e);
      var w := Run(Initially(), front);
      if w.panicked {
        Frozen(w, e);
      } else {
        CallbackStep(w, e);
      }
    }
  }

  lemma NothingYet()
    ensures Run(Initially(), []) == Initially() && !Initially().callback && !Initially().panicked
  {
  }

  lemma Frozen(w: Window, e: Event)
    requires w.panicked
    ensures Step(w, e) == w
  {
  }

  /** A run panics exactly when a non-blocking send is acknowledged before any callback was installed. */
  lemma {:induction false} PanicsExactly(events: seq<Event>)
    ensures Run(Initially(), events).panicked <==> exists k :: 0 <= k < |events| && AcksTooEarly(events, k)
  {
    hide Run, Step, AcksTooEarly;
    if events == [] {
      NothingYet();
    } else {
      var n := |events| - 1;
      var front, e := events[..n], events[n];
      assert events == front + [e];
      PanicsExactly(front);
      forall k | 0 <= k < n ensures AcksTooEarly(events, k) <==> AcksTooEarly(front, k) { SamePrefix(front, e, k); }
      LastStepPanics(front, e);
      assert front + [e] == events;
    }
  }

  lemma SamePrefix(front: seq<Event>, e: Event, k: nat)
    requires k < |front|
    ensures AcksTooEarly(front + [e], k) <==> AcksTooEarly(front, k)
  {
    hide Run;
    assert (front + [e])[..k] == front[..k];
  }

  lemma LastStepPanics(front: seq<Event>, e: Event)
    ensures var n := |front|;
      Run(Initially(), front + [e]).panicked
      <==> Run(Initially(), front).panicked || AcksTooEarly(front + [e], n)
  {
    hide Run, Step;
    var w := Run(Initially(), front);
    assert (front + [e])[..|front|] == front;
    RunSnoc(Initially(), front, e);
    if w.panicked {
      Frozen(w, e);
    } else {
      CallbackStep(w, e);
      Installed(front);
      assert WindowOrder.CallbackKinds(w) by { KindsInRuns(front); }
    }
  }

  lemma KindsInRuns(events: seq<Event>)
    ensures WindowOrder.CallbackKinds(Run(Initially(), events))
  {
    WindowOrder.RunOrdered(Initially(), events);
  }

  /** A non-blocking send without a callback is written and registered; its PUBACK panics. */
  lemma MissingCallbackPanics()
    ensures Run(Initially(), [SetCap(1), SendNoBlock(None, true), Ack(1, Publish)]).panicked
  {
    var sent := [SetCap(1), SendNoBlock(None, true)];
    assert Wake([], {}, 1) == ([], []);
    assert sent == [SetCap(1)] + [SendNoBlock(None, true)];
    RunSnoc(Initially(), [SetCap(1)], SendNoBlock(None, true));
    RunSnoc(Initially(), [], SetCap(1));
    assert [] + [SetCap(1)] == [SetCap(1)];
    RunSnoc(Initially(), sent, Ack(1, Publish));
    assert sent + [Ack(1, Publish)] == [SetCap(1), SendNoBlock(None, true), Ack(1, Publish)];
    assert Run(Initially(), sent).inflight == [Entry(0, 1, Publish, false, true)];
  }
}
