/**
 What the publish-ack callback of the outbound window is told: exactly the callback sends that are
 acknowledged, and those lost while it is installed, each once, with its own id and in send order.
 */
module WindowReports {
  import opened Prelude
  import opened OutboundWindow
  import opened WindowOrder

  /** The call, if any, that a send with this fate deserves. */
  function ReportOf(e: Entry, fate: Fate): seq<Report>
  {
    if e.blocking then []
    else
      match fate
      case Acked(_, _) => [Report(e.name, e.id, false)]
      case Disconnected(callback) => if callback then [Report(e.name, e.id, true)] else []
      case Dropped => []
      case Unreported => []
  }

  function ReportsOf(registered: seq<Entry>, resolutions: seq<Resolution>): seq<Report>
    requires |resolutions| <= |registered|
  {
    if resolutions == [] then []
    else
      var n := |resolutions| - 1;
      ReportsOf(registered, resolutions[..n]) + ReportOf(registered[n], resolutions[n].fate)
  }

  predicate Told(L: Log)
  {
    |L.resolutions| <= |L.registered| && L.reports == ReportsOf(L.registered, L.resolutions)
  }

  // ---------------------------------------------------------------- one change of the log

  lemma {:induction false} MoreRegistered(reg: seq<Entry>, e: Entry, res: seq<Resolution>)
    requires |res| <= |reg|
    ensures ReportsOf(reg + [e], res) == ReportsOf(reg, res)
    decreases |res|
  {
    if res != [] {
      MoreRegistered(reg, e, res[..|res| - 1]);
    }
  }

  lemma OneMore(reg: seq<Entry>, res: seq<Resolution>, r: Resolution)
    requires |res| < |reg|
    ensures ReportsOf(reg, res + [r]) == ReportsOf(reg, res) + ReportOf(reg[|res|], r.fate)
  {
    assert (res + [r])[..|res|] == res;
  }

  lemma AddTold(L: Log, e: Entry)
    requires Told(L)
    ensures Told(L.Add(e))
  {
    MoreRegistered(L.registered, e, L.resolutions);
  }

  lemma ResolveTold(L: Log, e: Entry, fate: Fate)
    requires Told(L) && |L.resolutions| < |L.registered| && e == L.registered[|L.resolutions|] && !fate.Disconnected?
    ensures Told(L.Resolve(e, fate))
  {
    OneMore(L.registered, L.resolutions, Resolution(e.name, fate));
  }

  lemma LostSnoc(es: seq<Entry>, callback: bool)
    requires es != []
    ensures var n := |es| - 1;
      && |Lost(es[..n], callback)| == n
      && Lost(es, callback) == Lost(es[..n], callback) + [Resolution(es[n].name, Disconnected(callback))]
      && LostReports(es) == LostReports(es[..n]) + ReportOf(es[n], Disconnected(true))
  {
  }

  /** `es` are the entries registered from position `n` on. */
  predicate Continues(reg: seq<Entry>, n: nat, es: seq<Entry>)
  {
    n + |es| <= |reg| && forall i :: 0 <= i < |es| ==> reg[n + i] == es[i]
  }

  lemma ContinuesFront(reg: seq<Entry>, n: nat, es: seq<Entry>)
    requires Continues(reg, n, es) && es != []
    ensures Continues(reg, n, es[..|es| - 1]) && reg[n + |es| - 1] == es[|es| - 1]
  {
  }

  lemma LostNone(callback: bool)
    ensures Lost([], callback) == [] && LostReports([]) == []
  {
  }

  /** Losing `es`, the next ones in order, tells the callback of those among them that have no sender. */
  lemma {:induction false} LoseMany(reg: seq<Entry>, res: seq<Resolution>, es: seq<Entry>, callback: bool)
    requires Continues(reg, |res|, es)
    ensures |Lost(es, callback)| == |es| && |res| + |es| <= |reg|
    ensures ReportsOf(reg, res + Lost(es, callback)) == ReportsOf(reg, res) + if callback then LostReports(es) else []
    decreases |es|
  {
    hide ReportsOf, LostReports, Lost, ReportOf;
    if es == [] {
      LostNone(callback);
      assert res + [] == res;
    } else {
      var n := |es| - 1;
      ContinuesFront(reg, |res|, es);
      LoseMany(reg, res, es[..n], callback);
      LostSnoc(es, callback);
      LoseOne(reg, res, Lost(es[..n], callback), es[n], callback);
    }
  }

  lemma LoseOne(reg: seq<Entry>, res: seq<Resolution>, lost: seq<Resolution>, e: Entry, callback: bool)
    requires |res| + |lost| < |reg| && reg[|res| + |lost|] == e
    ensures ReportsOf(reg, res + (lost + [Resolution(e.name, Disconnected(callback))]))
         == ReportsOf(reg, res + lost) + if callback then ReportOf(e, Disconnected(true)) else []
  {
    hide ReportsOf;
    var r := Resolution(e.name, Disconnected(callback));
    OneMore(reg, res + lost, r);
    assert res + (lost + [r]) == (res + lost) + [r];
  }

  lemma ClearTold(w: Window)
    requires Told(w.log) && OrderedLog(w.log, w.inflight, true, false)
    ensures Told(Clear(w).log)
  {
    hide ReportsOf, LostReports;
    var L := w.log;
    assert Continues(L.registered, |L.resolutions|, w.inflight);
    LoseMany(L.registered, L.resolutions, w.inflight, w.callback);
    assert L.reports + [] == L.reports;
  }

  lemma PopTold(w: Window, fate: Fate)
    requires Told(w.log) && Ordered(w) && w.inflight != [] && !fate.Disconnected?
    ensures Told(w.log.Resolve(w.inflight[0], fate))
  {
    assert w.inflight[0] == w.log.registered[|w.log.resolutions|];
    ResolveTold(w.log, w.inflight[0], fate);
  }

  // ---------------------------------------------------------------- steps and runs

  lemma AckTold(w: Window, id: PacketId, kind: Kind)
    requires Told(w.log) && Ordered(w) && !w.panicked
    ensures Told(AckOf(w, id, kind).log)
  {
    hide OrderedLog, Told, AckOf, Clear, Abandoned, Log.Resolve;
    AckCases(w, id, kind);
    Loosen(w.log, w.inflight, w.cleared);
    if w.inflight == [] {
      ClearTold(w.(closed := true));
    } else if Fits(w, id, kind) {
      PopTold(w, if Unwraps(w, id, kind) then Unreported else Acked(id, kind));
    } else {
      AbandonedIs(w, id);
      PopTold(w, Dropped);
      ClearTold(Abandoned(w, id));
    }
  }

  lemma DispatchTold(w: Window, req: Request, blocking: bool)
    requires Told(w.log)
    ensures Told(Dispatch(w, req, blocking).log)
  {
    hide Told, Dispatch, Log.Add;
    DispatchLog(w, req, blocking);
    AddTold(w.log, NewEntry(w, req, blocking));
  }

  lemma ToldStep(w: Window, e: Event)
    requires Told(w.log) && Ordered(w)
    ensures Told(Step(w, e).log)
  {
    hide Told, OrderedLog, Dispatch, AckOf, Clear, Wake, Elements;
    match e {
      case Send(req) => DispatchTold(w, req, true);
      case SendNoBlock(id, encodes) => DispatchTold(w, Request(Publish, id, encodes), false);
      case Resume(x, req) => DispatchTold(w.(signalled := w.signalled - {x}), req, true);
      case Ack(id, kind) => if !w.panicked { AckTold(w, id, kind); }
      case Close =>
        if !w.panicked {
          Loosen(w.log, w.inflight, w.cleared);
          ClearTold(w.(closed := true));
        }
      case _ =>
    }
  }

  lemma {:induction false} RunTold(w: Window, events: seq<Event>)
    requires Told(w.log) && Ordered(w)
    ensures Told(Run(w, events).log) && Ordered(Run(w, events))
    decreases |events|
  {
    hide Step, Told, Ordered;
    if events != [] {
      OrderedStep(w, events[0]);
      ToldStep(w, events[0]);
      RunTold(Step(w, events[0]), events[1..]);
    }
  }

  // ---------------------------------------------------------------- what that means

  predicate Ascending(rs: seq<Report>)
  {
    forall i, j :: 0 <= i < j < |rs| ==> rs[i].name < rs[j].name
  }

  /**
   `r` names a callback send and its id: one that was acknowledged, told as delivered, or one that was lost
   while a callback was installed, told as disconnected.
   */
  predicate Deserved(registered: seq<Entry>, resolutions: seq<Resolution>, r: Report)
  {
    && r.name < |resolutions| <= |registered|
    && !registered[r.name].blocking && registered[r.name].id == r.id
    && (if r.disconnected then resolutions[r.name].fate == Disconnected(true) else resolutions[r.name].fate.Acked?)
  }

  lemma DeservedIs(registered: seq<Entry>, resolutions: seq<Resolution>, r: Report)
    requires |resolutions| <= |registered| && forall i :: 0 <= i < |registered| ==> registered[i].name == i
    ensures Deserved(registered, resolutions, r) <==>
      r.name < |resolutions| && ReportOf(registered[r.name], resolutions[r.name].fate) == [r]
  {
  }

  lemma {:induction false} ReportsAreDeserved(reg: seq<Entry>, res: seq<Resolution>)
    requires |res| <= |reg| && forall i :: 0 <= i < |reg| ==> reg[i].name == i
    ensures Ascending(ReportsOf(reg, res))
    ensures forall r :: r in ReportsOf(reg, res) <==> Deserved(reg, res, r)
    decreases |res|
  {
    if res != [] {
      var n := |res| - 1;
      var front, rs, last := res[..n], ReportsOf(reg, res[..n]), ReportOf(reg[n], res[n].fate);
      ReportsAreDeserved(reg, front);
      assert ReportsOf(reg, res) == rs + last;
      forall r ensures Deserved(reg, res, r) <==> Deserved(reg, front, r) || r in last {
        assert r.name < n ==> front[r.name] == res[r.name];
        DeservedIs(reg, res, r);
        DeservedIs(reg, front, r);
      }
      assert forall i :: 0 <= i < |rs| ==> rs[i] in rs && Deserved(reg, front, rs[i]);
    }
  }

  /**
   In every run the callback is called in send order, at most once per send, and exactly for these: the
   acknowledged callback sends, as delivered, and the callback sends lost while it was installed, as
   disconnected; each with its own id.
   */
  lemma CallbackReportsInSendOrder(events: seq<Event>)
    ensures var L := Run(Initially(), events).log;
      Ascending(L.reports) && forall r :: r in L.reports <==> Deserved(L.registered, L.resolutions, r)
  {
    hide Run, Deserved;
    RunTold(Initially(), events) by { NothingTold(); }
    var L := Run(Initially(), events).log;
    ReportsAreDeserved(L.registered, L.resolutions);
  }

  lemma NothingTold()
    ensures Told(Initially().log) && Ordered(Initially())
  {
  }

  /** Closing loses every send in flight, with or without a callback being there to be told. */
  lemma CloseFates(w: Window)
    requires !w.panicked
    ensures var L, L' := w.log.resolutions, Step(w, Close).log.resolutions;
      && |L'| == |L| + |w.inflight| && L'[..|L|] == L
      && forall i :: 0 <= i < |w.inflight| ==>
           L'[|L| + i] == Resolution(w.inflight[i].name, Disconnected(w.callback))
  {
    hide LostReports;
  }

  /** An acknowledgement that does not fit drops the oldest send unheard and loses all others to the clearing. */
  lemma MisfitFates(w: Window, id: PacketId, kind: Kind)
    requires !w.panicked && w.inflight != [] && !Fits(w, id, kind)
    ensures Step(w, Ack(id, kind)).log.resolutions
         == w.log.resolutions + [Resolution(w.inflight[0].name, Dropped)] + Lost(w.inflight[1..], w.callback)
  {
    hide Wake, Elements, Lost, LostReports;
  }
}
