/**
 The outbound window of an MQTT 5 connection (src/v5/shared.rs, driven by src/v5/sink.rs).

 Packets that need an acknowledgement are registered in a FIFO. A sender that finds no credit, or
 write back-pressure, queues a waiter and suspends; an acknowledgement signals the next living
 waiter, which sends in a later step. A run is a sequence of `Event`s, one per uninterrupted piece
 of code between two suspension points, in any order.

 The operations below specify the methods of `SharedState.MqttShared`, which work in place.
 */
module OutboundWindow {
  import opened Prelude

  type PacketId = NonZeroU16

  /** `inflight_idx` never stays at `u16::MAX`. */
  type LastId = n: nat | n < U16 - 1

  /** `AckType`, and the constructor of an `Ack`. */
  datatype Kind = Publish | Subscribe | Unsubscribe

  /**
   An element of `inflight`; `name` tells registrations apart, `blocking` says it has a sender, `written`
   that the codec accepted the packet.
   */
  datatype Entry = Entry(name: nat, id: PacketId, kind: Kind, blocking: bool, written: bool)

  /**
   What becomes of a registered send: it is acknowledged; it is lost when the queues are cleared, with or
   without a callback installed; it is popped by an acknowledgement that does not fit; or it is
   acknowledged and there is no callback to be told.
   */
  datatype Fate = Acked(id: PacketId, kind: Kind) | Disconnected(callback: bool) | Dropped | Unreported

  datatype Resolution = Resolution(name: nat, fate: Fate)

  /** A call of the publish-ack callback. */
  datatype Report = Report(name: nat, id: PacketId, disconnected: bool)

  datatype Window = Window(
    cap: nat,
    lastId: LastId,
    inflight: seq<Entry>,
    ids: set<PacketId>,
    waiters: seq<nat>,
    wrBackpressure: bool,
    callback: bool,
    // the world around the queues
    closed: bool,             // io.is_closed()
    cleared: bool,            // clear_queues has run
    panicked: bool,           // an acknowledgement found no callback; the run is over
    nextWaiter: nat,
    dead: set<nat>,           // waiters whose receiver was dropped
    signalled: set<nat>,      // waiters signalled but not yet resumed
    log: Log)

  /** History: registrations, packets written, fates and callback calls, each in order. */
  datatype Log = Log(
    registered: seq<Entry>,
    wire: seq<(PacketId, Kind)>,
    resolutions: seq<Resolution>,
    reports: seq<Report>)
  {
    function Add(e: Entry): Log
    {
      this.(registered := registered + [e], wire := if e.written then wire + [(e.id, e.kind)] else wire)
    }

    function Resolve(e: Entry, fate: Fate): Log
    {
      this.(resolutions := resolutions + [Resolution(e.name, fate)],
            reports := if fate.Acked? && !e.blocking then reports + [Report(e.name, e.id, false)] else reports)
    }
  }

  /** A packet to send: an explicit or generated id, and whether the codec accepts it. */
  datatype Request = Request(kind: Kind, explicitId: Option<PacketId>, encodes: bool)

  datatype Admission = Registered | PacketIdInUse | EncodeError

  datatype Event =
    | SetCap(cap: nat)
    | EnableWrb
    | DisableWrb
    | SetCallback
    | Send(req: Request)                        // blocking send: first poll
    | Ready                                     // MqttSink::ready: first poll
    | SendNoBlock(explicitId: Option<PacketId>, encodes: bool)
    | Resume(waiter: nat, req: Request)         // a signalled sender runs on
    | ResumeReady(waiter: nat)                  // a signalled `ready` future completes
    | Drop(waiter: nat)                         // a waiting future is dropped
    | Ack(id: PacketId, kind: Kind)
    | HangUp                                    // the peer goes away
    | Close                                     // close, force_close, drop_sink

  function Initially(): Window
  {
    Window(0, 0, [], {}, [], false, false, false, false, false, 0, {}, {}, Log([], [], [], []))
  }

  // ---------------------------------------------------------------- operations

  /** Pops waiters until `n` living ones have been signalled: the signalled ones and what is left. */
  function Wake(waiters: seq<nat>, dead: set<nat>, n: nat): (seq<nat>, seq<nat>)
  {
    if n == 0 || waiters == [] then ([], waiters)
    else if waiters[0] in dead then Wake(waiters[1..], dead, n)
    else
      var (woken, rest) := Wake(waiters[1..], dead, n - 1);
      ([waiters[0]] + woken, rest)
  }

  function Elements<T>(s: seq<T>): set<T> { set x | x in s }

  function WakeUp(w: Window, n: nat): Window
  {
    var (woken, rest) := Wake(w.waiters, w.dead, n);
    w.(waiters := rest, signalled := w.signalled + Elements(woken))
  }

  function SetCapOf(w: Window, cap: nat): Window { WakeUp(w, cap).(cap := cap) }

  function DisableWrbOf(w: Window): Window
  {
    var w' := w.(wrBackpressure := false);
    if |w.inflight| < w.cap then WakeUp(w', w.cap - |w.inflight|) else w'
  }

  /** `next_id`: the id handed out and the new `inflight_idx`. */
  function NextId(lastId: LastId): (PacketId, LastId)
  {
    (lastId + 1, if lastId + 1 == U16 - 1 then 0 else lastId + 1)
  }

  predicate NoCredit(w: Window) { |w.inflight| >= w.cap || w.wrBackpressure }

  function Enqueue(w: Window): Window
  {
    w.(waiters := w.waiters + [w.nextWaiter], nextWaiter := w.nextWaiter + 1)
  }

  /** What registering under `id` will answer; subscribe and unsubscribe register before encoding. */
  function Admit(w: Window, id: PacketId, kind: Kind, encodes: bool): Admission
  {
    if id in w.ids then PacketIdInUse
    else if kind.Publish? && !encodes then EncodeError
    else Registered
  }

  function Register(w: Window, id: PacketId, kind: Kind, blocking: bool, encodes: bool): Window
  {
    if !Admit(w, id, kind, encodes).Registered? then w
    else
      var e := Entry(|w.log.registered|, id, kind, blocking, encodes);
      w.(inflight := w.inflight + [e], ids := w.ids + {id}, log := w.log.Add(e))
  }

  /** Allocates an id when none was given, then registers and writes the packet. */
  function Dispatch(w: Window, req: Request, blocking: bool): Window
  {
    if req.explicitId.Some? then Register(w, req.explicitId.value, req.kind, blocking, req.encodes)
    else
      var (id, last) := NextId(w.lastId);
      Register(w.(lastId := last), id, req.kind, blocking, req.encodes)
  }

  function IdFor(w: Window, req: Request): PacketId
  {
    if req.explicitId.Some? then req.explicitId.value else NextId(w.lastId).0
  }

  /** The request will be registered if it is dispatched now. */
  predicate Admitted(w: Window, req: Request)
  {
    Admit(w, IdFor(w, req), req.kind, req.encodes).Registered?
  }

  /** The callback entries among `entries`, reported as disconnected. */
  function LostReports(entries: seq<Entry>): seq<Report>
  {
    if entries == [] then []
    else
      var before, last := LostReports(entries[..|entries| - 1]), entries[|entries| - 1];
      if last.blocking then before else before + [Report(last.name, last.id, true)]
  }

  function Lost(entries: seq<Entry>, callback: bool): seq<Resolution>
  {
    seq(|entries|, i requires 0 <= i < |entries| => Resolution(entries[i].name, Disconnected(callback)))
  }

  /** `clear_queues`: `inflight_ids` is left as it is. */
  function Clear(w: Window): Window
  {
    w.(waiters := [], inflight := [], cleared := true, callback := false,
       log := w.log.(resolutions := w.log.resolutions + Lost(w.inflight, w.callback),
                     reports := if w.callback then w.log.reports + LostReports(w.inflight) else w.log.reports))
  }

  function CloseOf(w: Window): Window { Clear(w.(closed := true)) }

  /** An acknowledgement fits when it names the oldest packet in flight, with its kind. */
  predicate Fits(w: Window, id: PacketId, kind: Kind)
  {
    w.inflight != [] && w.inflight[0].id == id && w.inflight[0].kind == kind
  }

  /** The front entry has neither a sender nor a callback: `on_publish_ack.take().unwrap()` panics. */
  predicate Unwraps(w: Window, id: PacketId, kind: Kind)
  {
    Fits(w, id, kind) && !w.inflight[0].blocking && !w.callback
  }

  function Pop(w: Window, ids: set<PacketId>, fate: Fate): Window
    requires w.inflight != []
  {
    w.(inflight := w.inflight[1..], ids := ids, log := w.log.Resolve(w.inflight[0], fate))
  }

  /** `pkt_ack`: any misfit pops the front entry, drops its sender and closes the connection. */
  function AckOf(w: Window, id: PacketId, kind: Kind): Window
  {
    if w.inflight == [] then CloseOf(w)
    else if w.inflight[0].id != id then CloseOf(Pop(w, w.ids, Dropped))
    else if w.inflight[0].kind != kind then CloseOf(Pop(w, w.ids - {id}, Dropped))
    else if Unwraps(w, id, kind) then Pop(w, w.ids - {id}, Unreported).(panicked := true)
    else WakeUp(Pop(w, w.ids - {id}, Acked(id, kind)), 1)
  }

  /** A panic ends the run. */
  function Step(w: Window, e: Event): Window { if w.panicked then w else Act(w, e) }

  function Act(w: Window, e: Event): Window
  {
    match e
    case SetCap(c) => SetCapOf(w, c)
    case EnableWrb => w.(wrBackpressure := true)
    case DisableWrb => DisableWrbOf(w)
    case SetCallback => w.(callback := true)
    case Send(req) => if w.closed then w else if NoCredit(w) then Enqueue(w) else Dispatch(w, req, true)
    case Ready => if !w.closed && NoCredit(w) then Enqueue(w) else w
    // a sink that is not ready makes the call panic before it changes anything
    case SendNoBlock(id, encodes) =>
      if w.closed || NoCredit(w) then w else Dispatch(w, Request(Publish, id, encodes), false)
    case Resume(x, req) =>
      if x in w.signalled then Dispatch(w.(signalled := w.signalled - {x}), req, true) else w
    case ResumeReady(x) => w.(signalled := w.signalled - {x})
    case Drop(x) => w.(dead := w.dead + {x}, signalled := w.signalled - {x})
    case Ack(id, kind) => AckOf(w, id, kind)
    case HangUp => w.(closed := true)
    case Close => CloseOf(w)
  }

  function Run(w: Window, events: seq<Event>): Window
    decreases |events|
  {
    if events == [] then w else Run(Step(w, events[0]), events[1..])
  }

  lemma {:induction false} RunSnoc(w: Window, events: seq<Event>, e: Event)
    ensures Run(w, events + [e]) == Step(Run(w, events), e)
    decreases |events|
  {
    hide Step;
    if events == [] {
      assert Run(w, [e]) == Run(Step(w, e), []);
    } else {
      assert (events + [e])[1..] == events[1..] + [e];
      RunSnoc(Step(w, events[0]), events[1..], e);
    }
  }
}
