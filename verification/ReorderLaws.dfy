/**
 What the reference machine of the reorder buffer means, field by field: which event supplies the outcome
 of a call, which call the dispatcher holds, when it stops, which error is pending and when the io is
 woken.
 */
module ReorderLaws {
  import opened Prelude
  import opened ReorderBuffer

  /** The step issues a service call: an item of the stream, or the report of an encoder error. */
  predicate Issues(r: Reference, e: Event)
  {
    && !r.phase.Terminated? && !r.Full()
    && (e.Call? || (e.CheckError? && r.error.Some? && r.error.value.Encoder?))
  }

  /** The step finishes call `c`, which was outstanding. */
  predicate Finishes(r: Reference, e: Event, c: nat)
  {
    e.Complete? && e.call == c && c < |r.results| && r.results[c].None?
  }

  /** A call that is ready at its first poll is known at once, unless the dispatcher already holds another. */
  lemma ResultsLaw(rejects: Packet -> bool, r: Reference, e: Event)
    ensures var r' := Step(rejects, r, e);
      && |r'.results| == |r.results| + (if Issues(r, e) then 1 else 0)
      && (Issues(r, e) ==> r'.results[|r.results|] == if r.held.None? then e.atOnce else None)
      && (forall c :: 0 <= c < |r.results| ==>
            r'.results[c] == if Finishes(r, e, c) then Some(e.outcome) else r.results[c])
  {
    hide Prefix, ErrorAfter;
  }

  lemma IdleIs(r: Reference)
    ensures r.Idle() <==> forall c :: 0 <= c < |r.results| ==> r.results[c].Some?
  {
    hide Prefix;
    PrefixSplit(r.results);
    var n := |Prefix(r.results)|;
    forall c | 0 <= c < n ensures r.results[c].Some? {
      assert r.results[..n][c] == Lift(Prefix(r.results))[c];
    }
  }

  /** A call is only held off when the deque, from the first incomplete call on, would not fit a `usize`. */
  lemma FullIs(r: Reference, n: nat)
    requires n <= |r.results| && (forall c :: 0 <= c < n ==> r.results[c].Some?)
    requires n < |r.results| ==> r.results[n].None?
    ensures r.Full() <==> |r.results| - n + 1 >= 0x1_0000_0000_0000_0000
  {
    hide Prefix;
    PrefixSplit(r.results);
    var m := |Prefix(r.results)|;
    forall c | 0 <= c < m ensures r.results[c].Some? {
      assert r.results[..m][c] == Lift(Prefix(r.results))[c];
    }
    assert m == n;
  }

  /** The dispatcher holds the first call that is not ready at once, until it finishes. */
  lemma HeldLaw(rejects: Packet -> bool, r: Reference, e: Event)
    requires Sane(r)
    ensures Step(rejects, r, e).held ==
      if e.Complete? && r.held == Some(e.call) then None
      else if Issues(r, e) && r.held.None? && e.atOnce.None? then Some(|r.results|)
      else r.held
  {
    hide Prefix, ErrorAfter;
  }

  /** The io is woken when a spawned call finishes as the last one outstanding. */
  lemma WakeLaw(rejects: Packet -> bool, r: Reference, e: Event)
    ensures Step(rejects, r, e).wakes == r.wakes +
      if e.Complete? && Finishes(r, e, e.call) && r.held != Some(e.call)
         && (forall c :: 0 <= c < |r.results| && c != e.call ==> r.results[c].Some?) then 1 else 0
  {
    hide Prefix, ErrorAfter;
    if e.Complete? && Finishes(r, e, e.call) {
      var results := r.results[e.call := Some(e.outcome)];
      IdleIs(Step(rejects, r, e));
      assert Step(rejects, r, e).results == results;
      assert forall c :: 0 <= c < |results| ==> results[c] == if c == e.call then Some(e.outcome) else r.results[c];
    }
  }

  /** Stop and any pending error stop the dispatcher; a drain ends it once no call is outstanding. */
  lemma PhaseLaw(rejects: Packet -> bool, r: Reference, e: Event)
    ensures var phase := Step(rejects, r, e).phase;
      if r.phase.Terminated? then phase == Terminated
      else if e.Stop? || (e.CheckError? && r.error.Some?) then phase == Stopping
      else if e.Resume? then phase == Processing
      else if e.Drain? && r.phase.Stopping? && (forall c :: 0 <= c < |r.results| ==> r.results[c].Some?)
      then phase == Terminated
      else phase == r.phase
  {
    hide Prefix, ErrorAfter;
    IdleIs(r);
  }

  // ---------------------------------------------------------------- errors

  /** Retiring the outcome raises no error. */
  predicate Benign(rejects: Packet -> bool, o: Outcome)
  {
    o.NoResponse? || (o.Response? && !rejects(o.packet))
  }

  /** The error of an outcome that is not benign. */
  function Blame(o: Outcome): DispatchError
    requires !o.NoResponse?
  {
    if o.Failed? then Service(o.error) else Encoder(o.packet)
  }

  lemma {:induction false} NoNewError(rejects: Packet -> bool, error: Option<DispatchError>, os: seq<Outcome>)
    requires forall i :: 0 <= i < |os| ==> Benign(rejects, os[i])
    ensures ErrorAfter(rejects, error, os) == error
  {
    if os != [] {
      assert Benign(rejects, os[|os| - 1]);
      NoNewError(rejects, error, os[..|os| - 1]);
    }
  }

  /** The pending error is the one raised last: the failure of a service, or a packet that did not encode. */
  lemma {:induction false} LastErrorPends(
      rejects: Packet -> bool, error: Option<DispatchError>, os: seq<Outcome>, k: nat)
    requires k < |os| && !Benign(rejects, os[k])
    requires forall j :: k < j < |os| ==> Benign(rejects, os[j])
    ensures ErrorAfter(rejects, error, os) == Some(Blame(os[k]))
    decreases |os|
  {
    if k < |os| - 1 {
      assert Benign(rejects, os[|os| - 1]);
      LastErrorPends(rejects, error, os[..|os| - 1], k);
    }
  }

  /** Learning outcomes retires those that complete the prefix; the error check consumes an encoder error. */
  lemma ErrorLaw(rejects: Packet -> bool, r: Reference, e: Event)
    ensures var r' := Step(rejects, r, e);
      && Prefix(r.results) <= Prefix(r'.results)
      && var consumed := e.CheckError? && !r.phase.Terminated? && r.error.Some? && r.error.value.Encoder?;
         r'.error == ErrorAfter(rejects, if consumed then None else r.error, Prefix(r'.results)[|Prefix(r.results)|..])
  {
    hide Prefix, ErrorAfter;
    StepGrows(rejects, r, e);
    NoErrorYet(rejects, r.error);
    NoErrorYet(rejects, None);
    var r' := Step(rejects, r, e);
    if r'.results == r.results {
      assert Prefix(r'.results)[|Prefix(r.results)|..] == [];
    } else if r'.results == r.results + [None] {
      PendingAdds(r.results);
      assert Prefix(r'.results)[|Prefix(r.results)|..] == [];
    }
  }

  lemma {:induction false} PendingAdds(rs: seq<Slot>)
    ensures Prefix(rs + [None]) == Prefix(rs)
  {
    if rs != [] && rs[0].Some? {
      assert (rs + [None])[1..] == rs[1..] + [None];
      PendingAdds(rs[1..]);
    }
  }

  // ---------------------------------------------------------------- runs

  /** Event `k` of the run supplies the outcome of call `c`. */
  predicate Supplies(rejects: Packet -> bool, events: seq<Event>, k: nat, c: nat, o: Outcome)
    requires k < |events|
  {
    var r, e := Behaviour(rejects, events[..k]), events[k];
    || (Finishes(r, e, c) && e.outcome == o)
    || (Issues(r, e) && |r.results| == c && r.held.None? && e.atOnce == Some(o))
  }

  lemma SuppliesFront(rejects: Packet -> bool, front: seq<Event>, e: Event, k: nat, c: nat, o: Outcome)
    requires k < |front|
    ensures Supplies(rejects, front + [e], k, c, o) <==> Supplies(rejects, front, k, c, o)
  {
    hide Behaviour;
    assert (front + [e])[..k] == front[..k];
  }

  /**
   The outcome of a call is exactly the one that the event completing it carried: its own completion, or
   the immediate result with which it was issued while the dispatcher held no other call.
   */
  lemma {:induction false} OutcomeIsSupplied(rejects: Packet -> bool, events: seq<Event>, c: nat, o: Outcome)
    ensures var results := Behaviour(rejects, events).results;
      (c < |results| && results[c] == Some(o))
      <==> exists k :: 0 <= k < |events| && Supplies(rejects, events, k, c, o)
  {
    hide Step, Supplies;
    if events != [] {
      var n := |events| - 1;
      var front, e := events[..n], events[n];
      assert events == front + [e];
      OutcomeIsSupplied(rejects, front, c, o);
      forall k | 0 <= k < n ensures Supplies(rejects, events, k, c, o) <==> Supplies(rejects, front, k, c, o) {
        SuppliesFront(rejects, front, e, k, c, o);
      }
      LastSupplies(rejects, front, e, c, o);
    }
  }

  lemma LastSupplies(rejects: Packet -> bool, front: seq<Event>, e: Event, c: nat, o: Outcome)
    ensures var r := Behaviour(rejects, front); var results := Step(rejects, r, e).results;
      (c < |results| && results[c] == Some(o))
      <==> (c < |r.results| && r.results[c] == Some(o)) || Supplies(rejects, front + [e], |front|, c, o)
  {
    hide Step, Behaviour;
    assert (front + [e])[..|front|] == front;
    ResultsLaw(rejects, Behaviour(rejects, front), e);
  }
}
