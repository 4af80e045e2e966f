/**
 Wire order of the outbound window. Subscribe and unsubscribe are registered before they are encoded, so
 one that the codec refuses stays in the FIFO without having been written. The lemmas say what is on the
 wire in every run, exactly when that is all that was registered, and what an unwritten entry does to
 the acknowledgements behind it.
 */
module WindowWire {
  import opened Prelude
  import opened OutboundWindow
  import opened WindowOrder
  import WindowIds

  function IdAndKind(es: seq<Entry>): seq<(PacketId, Kind)>
  {
    seq(|es|, i requires 0 <= i < |es| => (es[i].id, es[i].kind))
  }

  function Written(es: seq<Entry>): seq<Entry>
  {
    if es == [] then []
    else Written(es[..|es| - 1]) + if es[|es| - 1].written then [es[|es| - 1]] else []
  }

  /** The wire carries exactly the written registrations, in registration order. */
  predicate WireIsWritten(L: Log) { L.wire == IdAndKind(Written(L.registered)) }

  /** Everything registered was written, in that order. */
  predicate WireOrdered(L: Log) { L.wire == IdAndKind(L.registered) }

  lemma WrittenSnoc(es: seq<Entry>, e: Entry)
    ensures Written(es + [e]) == Written(es) + if e.written then [e] else []
    ensures IdAndKind(Written(es) + [e]) == IdAndKind(Written(es)) + [(e.id, e.kind)]
  {
    assert (es + [e])[..|es|] == es;
  }

  lemma WireStep(w: Window, e: Event)
    requires WireIsWritten(w.log)
    ensures WireIsWritten(Step(w, e).log)
  {
    hide Step, IdAndKind, Written;
    StepRegisters(w, e);
    var d := Dispatched(w, e);
    if d.Some? {
      var n := NewEntry(w, d.value.0, d.value.1);
      WrittenSnoc(w.log.registered, n);
      assert Written(w.log.registered) + [] == Written(w.log.registered);
      assert w.log.wire + [] == w.log.wire;
    }
  }

  /** In every run the packets on the wire are the written registrations, in registration order. */
  lemma {:induction false} WireInRegistrationOrder(w: Window, events: seq<Event>)
    requires WireIsWritten(w.log)
    ensures WireIsWritten(Run(w, events).log)
    decreases |events|
  {
    hide Step, WireIsWritten;
    if events != [] {
      WireStep(w, events[0]);
      WireInRegistrationOrder(Step(w, events[0]), events[1..]);
    }
  }

  // ---------------------------------------------------------------- phantoms

  /** A subscribe or unsubscribe is registered although the codec refuses it. */
  predicate Phantom(w: Window, e: Event)
  {
    Dispatched(w, e).Some? && !Dispatched(w, e).value.0.encodes
  }

  /** A publish that does not encode leaves no trace, so it is never the one. */
  lemma PhantomIsSubscription(w: Window, e: Event)
    requires Phantom(w, e)
    ensures !Dispatched(w, e).value.0.kind.Publish?
  {
  }

  predicate AllWritten(es: seq<Entry>) { forall i :: 0 <= i < |es| ==> es[i].written }

  lemma {:induction false} WrittenIsAll(es: seq<Entry>)
    ensures |Written(es)| <= |es|
    ensures AllWritten(es) ==> Written(es) == es
    ensures |Written(es)| == |es| ==> AllWritten(es)
  {
    if es != [] {
      var front, last := es[..|es| - 1], es[|es| - 1];
      WrittenIsAll(front);
      assert es == front + [last];
      assert AllWritten(es) <==> AllWritten(front) && last.written;
    }
  }

  lemma WireOrderedIs(L: Log)
    requires WireIsWritten(L)
    ensures WireOrdered(L) <==> AllWritten(L.registered)
  {
    hide Written;
    WrittenIsAll(L.registered);
    assert |IdAndKind(Written(L.registered))| == |Written(L.registered)|;
    assert |IdAndKind(L.registered)| == |L.registered|;
  }

  predicate NeverPhantom(w: Window, events: seq<Event>)
    decreases |events|
  {
    events == [] || (!Phantom(w, events[0]) && NeverPhantom(Step(w, events[0]), events[1..]))
  }

  lemma StepAllWritten(w: Window, e: Event)
    ensures AllWritten(Step(w, e).log.registered) <==> AllWritten(w.log.registered) && !Phantom(w, e)
  {
    hide Step, Dispatched;
    StepRegisters(w, e);
    var L, L' := w.log.registered, Step(w, e).log.registered;
    assert forall i :: 0 <= i < |L| ==> L'[i] == L[i];
    if Dispatched(w, e).Some? {
      assert L'[|L|].written == Dispatched(w, e).value.0.encodes;
    }
  }

  lemma {:induction false} RunAllWritten(w: Window, events: seq<Event>)
    ensures AllWritten(Run(w, events).log.registered) <==> AllWritten(w.log.registered) && NeverPhantom(w, events)
    decreases |events|
  {
    hide Step, Phantom, AllWritten;
    if events != [] {
      StepAllWritten(w, events[0]);
      RunAllWritten(Step(w, events[0]), events[1..]);
    }
  }

  /** A run writes all it registers, in order, exactly when no refused subscription is registered in it. */
  lemma WireOrderedExactly(events: seq<Event>)
    ensures WireOrdered(Run(Initially(), events).log) <==> NeverPhantom(Initially(), events)
  {
    hide Run, NeverPhantom;
    NothingWritten();
    WireInRegistrationOrder(Initially(), events);
    WireOrderedIs(Run(Initially(), events).log);
    RunAllWritten(Initially(), events);
  }

  lemma NothingWritten()
    ensures WireIsWritten(Initially().log) && AllWritten(Initially().log.registered)
  {
  }

  // ---------------------------------------------------------------- what the peer sees

  lemma AckCloses(w: Window, k: nat)
    requires WindowIds.IdsMirrored(w) && !w.panicked && !w.closed && k < |w.inflight|
    ensures Step(w, Ack(w.inflight[k].id, w.inflight[k].kind)).closed <==> k > 0
  {
    hide Wake, Elements, Lost, LostReports, Log.Resolve;
    assert k > 0 ==> w.inflight[0].id != w.inflight[k].id;
  }

  /**
   In every run, on an open connection, the acknowledgement the peer owes next, of the oldest packet it
   was sent, closes the connection exactly when an unwritten packet is ahead of it.
   */
  lemma PhantomMakesAckClose(events: seq<Event>, k: nat)
    requires var w := Run(Initially(), events);
      && !w.panicked && !w.closed && k < |w.inflight| && w.inflight[k].written
      && forall j :: 0 <= j < k ==> !w.inflight[j].written
    ensures var w := Run(Initially(), events);
      Step(w, Ack(w.inflight[k].id, w.inflight[k].kind)).closed
      <==> exists j :: 0 <= j < k && !w.inflight[j].written
  {
    hide Run, Step;
    WindowIds.InFlightIdsDistinct(events);
    var w := Run(Initially(), events);
    AckCloses(w, k);
    if k > 0 {
      assert !w.inflight[0].written;
    }
  }

  /** A SUBSCRIBE that does not encode has the correct PUBACK of the publish behind it close the connection. */
  lemma RefusedSubscribeClosesConnection()
    ensures var refused, sent := Request(Subscribe, None, false), Request(Publish, None, true);
      var before := Run(Initially(), [SetCap(2), Send(refused)] + [Send(sent)]);
      var after := Run(Initially(), [SetCap(2), Send(refused)] + [Send(sent)] + [Ack(2, Publish)]);
      && before.log.wire == [(2, Publish)] && !before.closed && !WireOrdered(before.log)
      && after.closed && after.log.resolutions == [Resolution(0, Dropped), Resolution(1, Disconnected(false))]
  {
    var refused, sent := Request(Subscribe, None, false), Request(Publish, None, true);
    var one := [SetCap(2)];
    var two := [SetCap(2), Send(refused)];
    assert Wake([], {}, 2) == ([], []);
    assert [] + one == one && one + [Send(refused)] == two;
    RunSnoc(Initially(), [], SetCap(2));
    RunSnoc(Initially(), one, Send(refused));
    RunSnoc(Initially(), two, Send(sent));
    RunSnoc(Initially(), two + [Send(sent)], Ack(2, Publish));
    var w := Run(Initially(), two + [Send(sent)]);
    var first, second := Entry(0, 1, Subscribe, true, false), Entry(1, 2, Publish, true, true);
    assert w.inflight == [first, second] && w.log.registered == [first, second] && w.log.wire == [(2, Publish)];
    assert |IdAndKind(w.log.registered)| == 2;
    assert w.inflight[1..] == [second];
    assert Lost([second], false) == [Resolution(1, Disconnected(false))];
  }
}
