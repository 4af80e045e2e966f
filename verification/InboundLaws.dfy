/**
 Inbound admission verdict by verdict: the exact condition of every answer, on the packet, the settings, the
 operations in progress and the bindings recorded so far, and what each answer does to them.
 */
module InboundLaws {
  import opened Prelude
  import opened Inbound
  import TopicFilter

  /** Packet ids in use: one for each operation in progress, and the abandoned ones. */
  function Occupied(s: State): nat { |s.ops| + |s.abandoned| }

  predicate Taken(s: State, id: PacketId)
  {
    id in s.abandoned || exists i :: 0 <= i < |s.ops| && s.ops[i].id == id
  }

  lemma TakenIs(s: State, id: PacketId)
    requires Owned(s)
    ensures id in s.inflight <==> Taken(s, id)
  {
    if id in s.inflight && id !in s.abandoned {
      var o :| o in s.ops && o.id == id;
      var i :| 0 <= i < |s.ops| && s.ops[i] == o;
    }
    if exists i :: 0 <= i < |s.ops| && s.ops[i].id == id {
      var i :| 0 <= i < |s.ops| && s.ops[i].id == id;
      assert s.ops[i] in s.ops;
    }
  }

  lemma OccupiedIs(s: State)
    requires Owned(s)
    ensures |s.inflight| == Occupied(s)
  {
    hide CountKind, Owned;
    InFlightCount(s);
    CountAll(s.ops);
  }

  /** The topic bound last to the alias: the binding after which no other one for it was recorded. */
  lemma {:induction false} LastBindingIs(recorded: seq<(Alias, string)>, alias: Alias, topic: string)
    ensures LastBinding(recorded, alias) == Some(topic) <==> exists k :: BoundAt(recorded, k, alias, topic)
  {
    if recorded != [] {
      var n := |recorded| - 1;
      var front := recorded[..n];
      LastBindingIs(front, alias, topic);
      if recorded[n].0 == alias {
        assert recorded[n].1 == topic ==> BoundAt(recorded, n, alias, topic);
      } else {
        forall k | 0 <= k < n ensures BoundAt(recorded, k, alias, topic) <==> BoundAt(front, k, alias, topic) {}
      }
    }
  }

  predicate BoundAt(recorded: seq<(Alias, string)>, k: int, alias: Alias, topic: string)
  {
    && 0 <= k < |recorded| && recorded[k] == (alias, topic)
    && forall j :: k < j < |recorded| ==> recorded[j].0 != alias
  }

  // ---------------------------------------------------------------- publishes

  /** Still handled although the connection is closed. */
  predicate InTime(c: Settings, s: State, qos: nat)
  {
    !s.closed || (c.qosAfterDisconnect.Some? && qos <= c.qosAfterDisconnect.value)
  }

  /** The answer to a publish. The receive maximum, QoS, retain and id checks are only made with a packet id. */
  function Answer(c: Settings, s: State, p: Publish): Verdict
  {
    var bound := if p.alias.Some? then LastBinding(s.recorded, p.alias.value) else None;
    if '+' in p.topic || '#' in p.topic then Violated(WildcardInTopic)
    else if p.id.Some? && c.receiveMax != 0 && Occupied(s) >= c.receiveMax then Violated(ReceiveMaximumExceeded)
    else if p.id.Some? && p.qos > c.maxQos then Violated(QosNotSupported)
    else if p.id.Some? && p.retain && !c.retainAvailable then Violated(RetainNotSupported)
    else if p.id.Some? && Taken(s, p.id.value) then InUse(p.id.value)
    else if p.alias.Some? && p.topic == "" && bound.None? then Violated(UnknownAlias)
    else if p.alias.Some? && p.topic != "" && bound.None? && p.alias.value > c.aliasMax then Violated(AliasTooLarge)
    else if !InTime(c, s, p.qos) then Ignored
    else Deliver(if bound.Some? && p.topic == "" then bound.value else p.topic)
  }

  lemma RefusalIs(c: Settings, s: State, p: Publish)
    requires Owned(s)
    ensures Refusal(c, s, p) ==
      if c.receiveMax != 0 && Occupied(s) >= c.receiveMax then Some(ReceiveMaximumExceeded)
      else if p.qos > c.maxQos then Some(QosNotSupported)
      else if p.retain && !c.retainAvailable then Some(RetainNotSupported)
      else None
  {
    OccupiedIs(s);
  }

  /** Alias handling: what it answers, and what it records. */
  lemma ResolveIs(c: Settings, s: State, p: Publish)
    requires AliasesSound(c, s)
    ensures var r := Resolve(c, s, p);
      var bound := if p.alias.Some? then LastBinding(s.recorded, p.alias.value) else None;
      if p.alias.Some? && p.topic == "" && bound.None? then r == Err(UnknownAlias)
      else if p.alias.Some? && p.topic != "" && bound.None? && p.alias.value > c.aliasMax then r == Err(AliasTooLarge)
      else
        && r.Ok? && r.value.0 == (if bound.Some? && p.topic == "" then bound.value else p.topic)
        && r.value.1.recorded
           == s.recorded + (if p.alias.Some? && p.topic != "" then [(p.alias.value, p.topic)] else [])
        && r.value.1.closed == s.closed
  {
    hide LastBinding, TopicFilter.Wild;
  }

  /** Every verdict on a publish, exactly when it is given. */
  lemma PublishAnswered(c: Settings, s: State, p: Publish)
    requires Owned(s) && AliasesSound(c, s)
    ensures OnPublish(c, s, p).1 == Answer(c, s, p)
  {
    hide Resolve, Refusal, LastBinding, Owned, AliasesSound, Taken, Occupied;
    RefusalIs(c, s, p);
    ResolveIs(c, s, p);
    if p.id.Some? { TakenIs(s, p.id.value); }
  }

  /** A publish without an alias is delivered under its own topic. */
  lemma PlainDelivery(c: Settings, s: State, p: Publish)
    requires p.alias.None? && OnPublish(c, s, p).1.Deliver?
    ensures OnPublish(c, s, p).1 == Deliver(p.topic)
  {
  }

  /** The id is taken without a call that could release it: the alias was wrong, or it came too late. */
  predicate GivenUp(v: Verdict) { v == Violated(UnknownAlias) || v == Violated(AliasTooLarge) || v == Ignored }

  /** What a publish changes: a delivered one starts an operation, a given-up one loses its id, others nothing. */
  lemma PublishChanges(c: Settings, s: State, p: Publish)
    requires AliasesSound(c, s)
    ensures var (s', v) := OnPublish(c, s, p);
      && s'.ops == s.ops + (if v.Deliver? && p.id.Some? then [Op(p.id.value, Publishing)] else [])
      && s'.abandoned == s.abandoned + (if GivenUp(v) && p.id.Some? then {p.id.value} else {})
      && s'.inflight == s.inflight + (if (v.Deliver? || GivenUp(v)) && p.id.Some? then {p.id.value} else {})
      && s'.recorded == s.recorded
           + (if (v.Deliver? || v.Ignored?) && p.alias.Some? && p.topic != "" then [(p.alias.value, p.topic)] else [])
      && s'.closed == s.closed
  {
    hide Resolve, Refusal, LastBinding, AliasesSound, TopicFilter.Wild, StillHandled;
    ResolveIs(c, s, p);
    ResolveEffect(c, s, p);
    RefusalKinds(c, s, p);
    ResolveKinds(c, s, p);
    assert s.ops + [] == s.ops && s.recorded + [] == s.recorded;
  }

  lemma RefusalKinds(c: Settings, s: State, p: Publish)
    ensures Refusal(c, s, p).Some? ==> Refusal(c, s, p).value != UnknownAlias && Refusal(c, s, p).value != AliasTooLarge
  {
  }

  lemma ResolveKinds(c: Settings, s: State, p: Publish)
    ensures Resolve(c, s, p).Err? ==> Resolve(c, s, p).error == UnknownAlias || Resolve(c, s, p).error == AliasTooLarge
  {
  }

  // ---------------------------------------------------------------- subscriptions and completions

  /** Every verdict on a subscribe or unsubscribe, exactly when it is given, and what it changes. */
  lemma SubscriptionAnswered(c: Settings, s: State, sub: Subscription)
    requires Owned(s)
    ensures var (s', v) := OnSubscription(c, s, sub);
      && v == (if s.closed then Ignored
               else if exists i :: 0 <= i < |sub.filters| && TopicFilter.Parse(sub.filters[i]).Err?
               then Violated(MalformedFilter)
               else if sub.hasSubId && !c.subIdsAvailable then Violated(SubIdsNotSupported)
               else if Taken(s, sub.id) then InUse(sub.id)
               else Control)
      && s' == (if v == Control
                then s.(inflight := s.inflight + {sub.id}, ops := s.ops + [Op(sub.id, Controlling)]) else s)
  {
    hide Owned, Taken, TopicFilter.Parse;
    TakenIs(s, sub.id);
  }

  /** The end of an operation: its id becomes free, or stays taken for good when the service failed. */
  lemma FinishFrees(s: State, k: nat, released: bool)
    requires Owned(s) && k < |s.ops|
    ensures var s' := OnFinish(s, k, released);
      && s'.ops == s.ops[..k] + s.ops[k + 1..]
      && (Taken(s', s.ops[k].id) <==> !released)
      && s'.aliases == s.aliases && s'.recorded == s.recorded && s'.closed == s.closed
  {
    hide Taken;
    FinishOwned(s, k, released);
    TakenIs(OnFinish(s, k, released), s.ops[k].id);
    assert s.ops[k] in s.ops;
  }

  // ---------------------------------------------------------------- runs

  /** In every run, what comes next is answered like this. */
  lemma RunsAnswer(c: Settings, events: seq<Event>, p: Publish)
    ensures var s := Run(c, Initially(), events); OnPublish(c, s, p).1 == Answer(c, s, p)
  {
    hide Run, OnPublish, Answer;
    RunOwned(c, Initially(), events);
    RunAliases(c, Initially(), events);
    PublishAnswered(c, Run(c, Initially(), events), p);
  }

  lemma StepClosed(c: Settings, s: State, e: Event)
    requires AliasesSound(c, s)
    ensures Step(c, s, e).closed <==> s.closed || e == Disconnect
  {
    hide OnPublish, AliasesSound;
    if e.ArrivePublish? { PublishChanges(c, s, e.publish); }
  }

  /** The connection counts as closed exactly from a disconnect on. */
  lemma {:induction false} ClosedByDisconnect(c: Settings, s: State, events: seq<Event>)
    requires AliasesSound(c, s)
    ensures Run(c, s, events).closed <==> s.closed || Disconnect in events
    decreases |events|
  {
    hide Step, AliasesSound;
    if events != [] {
      StepClosed(c, s, events[0]);
      AliasStep(c, s, events[0]);
      ClosedByDisconnect(c, Step(c, s, events[0]), events[1..]);
    }
  }
}
