/**
 `MqttShared` of src/v5/shared.rs, updated in place, with the pieces of src/v5/sink.rs that run
 between two suspension points. Every method is proved to do what the operation of the same purpose
 in `OutboundWindow` says; the run properties are proved there.
 */
module SharedState {
  import opened Prelude
  import opened OutboundWindow

  lemma {:induction false} WakeStep(ws: seq<nat>, dead: set<nat>, n: nat)
    requires 0 < n
    ensures var (first, rest) := Wake(ws, dead, 1);
      if first == [] then rest == [] && Wake(ws, dead, n) == ([], [])
      else |rest| < |ws| && Wake(ws, dead, n) == (first + Wake(rest, dead, n - 1).0, Wake(rest, dead, n - 1).1)
  {
    if ws != [] {
      if ws[0] in dead {
        WakeStep(ws[1..], dead, n);
      } else {
        assert Wake(ws[1..], dead, 0) == ([], ws[1..]);
        assert [ws[0]] + [] == [ws[0]];
      }
    }
  }

  lemma ElementsConcat(a: seq<nat>, b: seq<nat>)
    ensures Elements(a + b) == Elements(a) + Elements(b)
  {
  }

  /** `for (idx, tx, _) in inflight.drain(..)`: the callback calls for the entries without a sender. */
  method ReportLost(entries: seq<Entry>) returns (reports: seq<Report>)
    ensures reports == LostReports(entries)
  {
    reports := [];
    for k := 0 to |entries|
      invariant reports == LostReports(entries[..k])
    {
      assert entries[..k + 1][..k] == entries[..k];
      if !entries[k].blocking {
        reports := reports + [Report(entries[k].name, entries[k].id, true)];
      }
    }
    assert entries[..|entries|] == entries;
  }

  class MqttShared {
    var cap: nat
    var inflightIdx: LastId
    var inflight: seq<Entry>
    var inflightIds: set<PacketId>
    var waiters: seq<nat>
    var wrBackpressure: bool
    var onPublishAck: bool
    // io and the waiting futures
    var ioClosed: bool
    var cleared: bool
    var panicked: bool
    var nextWaiter: nat
    var droppedReceivers: set<nat>
    var signalled: set<nat>
    // channels handed out, packets written, senders resolved and callback calls, in order
    var log: Log

    ghost function View(): Window
      reads this
    {
      Window(cap, inflightIdx, inflight, inflightIds, waiters, wrBackpressure, onPublishAck,
             ioClosed, cleared, panicked, nextWaiter, droppedReceivers, signalled, log)
    }

    constructor ()
      ensures View() == Initially()
    {
      cap, inflightIdx, inflight, inflightIds, waiters := 0, 0, [], {}, [];
      wrBackpressure, onPublishAck, ioClosed, cleared, panicked := false, false, false, false, false;
      nextWaiter, droppedReceivers, signalled, log := 0, {}, {}, Log([], [], [], []);
    }

    /** `tx.send(())`: succeeds when the receiving future still exists. */
    method Signal(x: nat) returns (ok: bool)
      modifies this`signalled
      ensures ok == (x !in droppedReceivers)
      ensures signalled == if ok then old(signalled) + {x} else old(signalled)
    {
      ok := x !in droppedReceivers;
      if ok { signalled := signalled + {x}; }
    }

    /** `while let Some(tx) = waiters.pop_front()`: signals the first living waiter, if any. */
    method WakeNext() returns (ok: bool)
      modifies this`waiters, this`signalled
      ensures var (woken, rest) := Wake(old(waiters), droppedReceivers, 1);
        waiters == rest && signalled == old(signalled) + Elements(woken) && (ok <==> woken != [])
    {
      while waiters != []
        invariant signalled == old(signalled)
        invariant Wake(waiters, droppedReceivers, 1) == Wake(old(waiters), droppedReceivers, 1)
        decreases |waiters|
      {
        var tx := waiters[0];
        assert Wake(waiters[1..], droppedReceivers, 0) == ([], waiters[1..]);
        waiters := waiters[1..];
        ok := Signal(tx);
        if ok {
          assert [tx] + [] == [tx];
          return;
        }
      }
      ok := false;
    }

    /** Signals living waiters until `n` have been reached or none is left. */
    method WakeMany(n: nat)
      modifies this`waiters, this`signalled
      ensures var (woken, rest) := Wake(old(waiters), droppedReceivers, n);
        waiters == rest && signalled == old(signalled) + Elements(woken)
    {
      var num: nat := n;
      while num > 0
        invariant Wake(waiters, droppedReceivers, num).1 == Wake(old(waiters), droppedReceivers, n).1
        invariant signalled + Elements(Wake(waiters, droppedReceivers, num).0)
               == old(signalled) + Elements(Wake(old(waiters), droppedReceivers, n).0)
        decreases num
      {
        WakeStep(waiters, droppedReceivers, num);
        ghost var first := Wake(waiters, droppedReceivers, 1).0;
        var ok := WakeNext();
        if !ok { return; }
        num := num - 1;
        ElementsConcat(first, Wake(waiters, droppedReceivers, num).0);
      }
    }

    method SetCapacity(n: nat)
      modifies this`cap, this`waiters, this`signalled
      ensures View() == SetCapOf(old(View()), n)
    {
      WakeMany(n);
      cap := n;
    }

    method EnableWrBackpressure()
      modifies this`wrBackpressure
      ensures View() == old(View()).(wrBackpressure := true)
    {
      wrBackpressure := true;
    }

    method DisableWrBackpressure()
      modifies this`wrBackpressure, this`waiters, this`signalled
      ensures View() == DisableWrbOf(old(View()))
    {
      wrBackpressure := false;
      if |inflight| < cap {
        WakeMany(cap - |inflight|);
      }
    }

    /** `next_id`: 1, 2, ..., 65535, 1, 2, ... */
    method GenerateId() returns (id: PacketId)
      modifies this`inflightIdx
      ensures (id, inflightIdx) == NextId(old(inflightIdx))
    {
      id := inflightIdx + 1;
      inflightIdx := if id == U16 - 1 then 0 else id;
    }

    /** `wait_response`, `wait_packet_response` and `wait_packet_response_no_block`. */
    method WaitAck(id: PacketId, kind: Kind, blocking: bool, encodes: bool) returns (a: Admission)
      modifies this`inflight, this`inflightIds, this`log
      ensures a == Admit(old(View()), id, kind, encodes)
      ensures View() == Register(old(View()), id, kind, blocking, encodes)
    {
      if id in inflightIds { return PacketIdInUse; }
      if kind.Publish? && !encodes { return EncodeError; }
      var e := Entry(|log.registered|, id, kind, blocking, encodes);
      inflight := inflight + [e];
      inflightIds := inflightIds + {id};
      log := log.Add(e);
      return Registered;
    }

    /** Allocates a packet id if none is set and sends (`send_at_least_once_inner` and its likes). */
    method DispatchPacket(req: Request, blocking: bool) returns (a: Admission)
      modifies this`inflightIdx, this`inflight, this`inflightIds, this`log
      ensures a.Registered? <==> Admitted(old(View()), req)
      ensures View() == Dispatch(old(View()), req, blocking)
    {
      var id: PacketId;
      if req.explicitId.Some? {
        id := req.explicitId.value;
      } else {
        id := GenerateId();
      }
      a := WaitAck(id, req.kind, blocking, req.encodes);
    }

    /** `wait_readiness`: a new waiter when there is no credit. */
    method WaitReadiness() returns (waiter: Option<nat>)
      modifies this`waiters, this`nextWaiter
      ensures waiter.Some? <==> NoCredit(old(View()))
      ensures View() == if waiter.Some? then Enqueue(old(View())) else old(View())
    {
      if |inflight| >= cap || wrBackpressure {
        waiter := Some(nextWaiter);
        waiters := waiters + [nextWaiter];
        nextWaiter := nextWaiter + 1;
      } else {
        waiter := None;
      }
    }

    /** `clear_queues`. */
    method ClearQueues()
      modifies this`waiters, this`inflight, this`onPublishAck, this`cleared, this`log
      ensures View() == Clear(old(View()))
    {
      waiters := [];
      cleared := true;
      log := log.(resolutions := log.resolutions + Lost(inflight, onPublishAck));
      if onPublishAck {
        onPublishAck := false;
        var lost := ReportLost(inflight);
        log := log.(reports := log.reports + lost);
      }
      inflight := [];
    }

    /** `close`, `force_close` and `drop_sink` differ only in what happens to the io. */
    method CloseConnection()
      modifies this`waiters, this`inflight, this`onPublishAck, this`cleared, this`ioClosed, this`log
      ensures View() == CloseOf(old(View()))
    {
      ioClosed := true;
      ClearQueues();
    }

    /** The front entry leaves the FIFO and its sender learns its fate. */
    method PopFront(fate: Fate)
      requires inflight != []
      modifies this`inflight, this`log
      ensures View() == Pop(old(View()), inflightIds, fate)
    {
      log := log.Resolve(inflight[0], fate);
      inflight := inflight[1..];
    }

    /** The matching arm of `pkt_ack_inner`; unwrapping a callback that was never installed panics. */
    method Answer(id: PacketId, kind: Kind) returns (ok: bool)
      requires Fits(View(), id, kind)
      modifies this`inflight, this`inflightIds, this`log, this`panicked, this`waiters, this`signalled
      ensures ok <==> !Unwraps(old(View()), id, kind)
      ensures View() == AckOf(old(View()), id, kind)
    {
      hide Clear, Wake, Elements, Log.Resolve;
      var e := inflight[0];
      inflightIds := inflightIds - {id};
      if !e.blocking && !onPublishAck {
        PopFront(Unreported);
        panicked := true;
        return false;
      }
      PopFront(Acked(id, kind));
      var _ := WakeNext();
      return true;
    }

    /** `pkt_ack` with `pkt_ack_inner`. */
    method PktAck(id: PacketId, kind: Kind) returns (ok: bool)
      modifies this
      ensures ok <==> Fits(old(View()), id, kind) && !Unwraps(old(View()), id, kind)
      ensures View() == AckOf(old(View()), id, kind)
    {
      hide Clear, Wake, Elements, Log.Resolve;
      if inflight != [] {
        if inflight[0].id == id && inflight[0].kind == kind {
          ok := Answer(id, kind);
          return;
        }
        if inflight[0].id == id {
          inflightIds := inflightIds - {id};
        }
        PopFront(Dropped);
      }
      CloseConnection();
      ok := false;
    }

    /** A piece of sender code runs: up to its first suspension, or on after its signal. */
    method RunSender(e: Event)
      requires !panicked && (e.Send? || e.Ready? || e.SendNoBlock? || e.Resume? || e.ResumeReady?)
      modifies this`waiters, this`nextWaiter, this`signalled, this`inflightIdx, this`inflight, this`inflightIds,
        this`log
      ensures View() == Step(old(View()), e)
    {
      hide Dispatch;
      match e {
        case Send(req) =>
          if !ioClosed {
            var rx := WaitReadiness();
            if rx.None? { var _ := DispatchPacket(req, true); }
          }
        case Ready => if !ioClosed { var _ := WaitReadiness(); }
        case SendNoBlock(id, encodes) =>
          if !ioClosed && |inflight| < cap && !wrBackpressure {
            var _ := DispatchPacket(Request(Publish, id, encodes), false);
          }
        case Resume(x, req) =>
          if x in signalled {
            signalled := signalled - {x};
            var _ := DispatchPacket(req, true);
          }
        case ResumeReady(x) => signalled := signalled - {x};
      }
    }

    /** One step of a run. */
    method React(e: Event)
      modifies this
      ensures View() == Step(old(View()), e)
    {
      hide Dispatch, AckOf, Clear, Wake, Elements;
      if panicked { return; }
      match e {
        case SetCap(n) => SetCapacity(n);
        case EnableWrb => EnableWrBackpressure();
        case DisableWrb => DisableWrBackpressure();
        case SetCallback => onPublishAck := true;
        case Drop(x) =>
          droppedReceivers := droppedReceivers + {x};
          signalled := signalled - {x};
        case Ack(id, kind) => var _ := PktAck(id, kind);
        case HangUp => ioClosed := true;
        case Close => CloseConnection();
        case _ => RunSender(e);
      }
    }
  }

  /** For every sequence of events the shared state ends up where the specification says. */
  method RunEvents(events: seq<Event>) returns (w: Window)
    ensures w == Run(Initially(), events)
  {
    var s := new MqttShared();
    for k := 0 to |events|
      invariant Run(s.View(), events[k..]) == Run(Initially(), events)
    {
      assert events[k..][0] == events[k] && events[k..][1..] == events[k + 1..];
      s.React(events[k]);
    }
    w := Window(s.cap, s.inflightIdx, s.inflight, s.inflightIds, s.waiters, s.wrBackpressure, s.onPublishAck,
                s.ioClosed, s.cleared, s.panicked, s.nextWaiter, s.droppedReceivers, s.signalled, s.log);
  }
}
