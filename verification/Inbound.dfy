/**
 Admission of inbound packets by the MQTT 5 dispatcher (src/v5/dispatcher.rs): packet-id ownership,
 the receive maximum and topic aliases. Service calls finish in any order and may fail.
 */
module Inbound {
  import opened Prelude
  import TopicFilter

  type PacketId = NonZeroU16
  type Alias = NonZeroU16

  /** Settings negotiated before the first packet. A zero `receiveMax` means no limit. */
  datatype Settings = Settings(
    receiveMax: nat,
    aliasMax: nat,
    maxQos: nat,
    retainAvailable: bool,
    subIdsAvailable: bool,
    qosAfterDisconnect: Option<nat>)

  /** A PUBLISH as decoded: a packet id is present exactly when the QoS is not 0. */
  datatype Publish = Publish(topic: string, qos: nat, id: Option<PacketId>, retain: bool, alias: Option<Alias>)

  /** A SUBSCRIBE or UNSUBSCRIBE. */
  datatype Subscription = Subscription(id: PacketId, filters: seq<string>, hasSubId: bool)

  datatype OpKind = Publishing | Controlling

  /** A service call in progress that owns a packet id. */
  datatype Op = Op(id: PacketId, kind: OpKind)

  datatype Violation =
    | WildcardInTopic | ReceiveMaximumExceeded | QosNotSupported | RetainNotSupported
    | UnknownAlias | AliasTooLarge | MalformedFilter | SubIdsNotSupported

  datatype Verdict =
    | Violated(violation: Violation)     // handed to the control service as a protocol error
    | InUse(id: PacketId)                // answered with PacketIdentifierInUse
    | Ignored
    | Deliver(topic: string)             // handed to the publish service
    | Control                            // handed to the control service

  /**
   `inflight` and `aliases` are the code's. `ops` are the calls in progress with a packet id;
   `abandoned` the ids that no call will ever release; `recorded` every alias binding, in order.
   */
  datatype State = State(
    inflight: set<PacketId>,
    aliases: map<Alias, string>,
    closed: bool,
    ops: seq<Op>,
    abandoned: set<PacketId>,
    recorded: seq<(Alias, string)>)

  datatype Event =
    | ArrivePublish(publish: Publish)
    | ArriveSubscription(sub: Subscription)
    | FinishOp(op: nat, released: bool)    // a call with a packet id ends; an error does not release the id
    | Disconnect

  function Initially(): State { State({}, map[], false, [], {}, []) }

  // ---------------------------------------------------------------- operations

  /** The checks made for a publish with a packet id, in order. */
  function Refusal(c: Settings, s: State, p: Publish): Option<Violation>
  {
    if c.receiveMax != 0 && |s.inflight| >= c.receiveMax then Some(ReceiveMaximumExceeded)
    else if p.qos > c.maxQos then Some(QosNotSupported)
    else if p.retain && !c.retainAvailable then Some(RetainNotSupported)
    else None
  }

  /** The topic after alias handling, and the alias table. */
  function Resolve(c: Settings, s: State, p: Publish): Result<(string, State), Violation>
  {
    if p.alias.None? then Ok((p.topic, s))
    else
      var alias := p.alias.value;
      if p.topic == "" then
        if alias in s.aliases then Ok((s.aliases[alias], s)) else Err(UnknownAlias)
      else if alias !in s.aliases && alias > c.aliasMax then Err(AliasTooLarge)
      else Ok((p.topic, s.(aliases := s.aliases[alias := p.topic], recorded := s.recorded + [(alias, p.topic)])))
  }

  predicate StillHandled(c: Settings, qos: nat)
  {
    c.qosAfterDisconnect.Some? && qos <= c.qosAfterDisconnect.value
  }

  function Own(s: State, id: Option<PacketId>): State
  {
    if id.Some? then s.(inflight := s.inflight + {id.value}) else s
  }

  function Abandon(s: State, id: Option<PacketId>): State
  {
    if id.Some? then s.(abandoned := s.abandoned + {id.value}) else s
  }

  function OnPublish(c: Settings, s: State, p: Publish): (State, Verdict)
  {
    if TopicFilter.Wild(p.topic) then (s, Violated(WildcardInTopic))
    else if p.id.Some? && Refusal(c, s, p).Some? then (s, Violated(Refusal(c, s, p).value))
    else if p.id.Some? && p.id.value in s.inflight then (s, InUse(p.id.value))
    else
      match Resolve(c, s, p)
      case Err(v) => (Abandon(Own(s, p.id), p.id), Violated(v))
      case Ok((topic, s1)) =>
        var owned := Own(s1, p.id);
        if s.closed && !StillHandled(c, p.qos) then (Abandon(owned, p.id), Ignored)
        else if p.id.Some? then (owned.(ops := owned.ops + [Op(p.id.value, Publishing)]), Deliver(topic))
        else (owned, Deliver(topic))
  }

  function OnSubscription(c: Settings, s: State, sub: Subscription): (State, Verdict)
  {
    if s.closed then (s, Ignored)
    else if exists i :: 0 <= i < |sub.filters| && TopicFilter.Parse(sub.filters[i]).Err? then
      (s, Violated(MalformedFilter))
    else if sub.hasSubId && !c.subIdsAvailable then (s, Violated(SubIdsNotSupported))
    else if sub.id in s.inflight then (s, InUse(sub.id))
    else (s.(inflight := s.inflight + {sub.id}, ops := s.ops + [Op(sub.id, Controlling)]), Control)
  }

  function OnFinish(s: State, k: nat, released: bool): State
    requires k < |s.ops|
  {
    var id := s.ops[k].id;
    var s' := s.(ops := s.ops[..k] + s.ops[k + 1..]);
    if released then s'.(inflight := s.inflight - {id}) else s'.(abandoned := s.abandoned + {id})
  }

  function Step(c: Settings, s: State, e: Event): State
  {
    match e
    case ArrivePublish(p) => OnPublish(c, s, p).0
    case ArriveSubscription(sub) => OnSubscription(c, s, sub).0
    case FinishOp(k, released) => if k < |s.ops| then OnFinish(s, k, released) else s
    case Disconnect => s.(closed := true)
  }

  function Run(c: Settings, s: State, events: seq<Event>): State
    decreases |events|
  {
    if events == [] then s else Run(c, Step(c, s, events[0]), events[1..])
  }

  // ---------------------------------------------------------------- packet ids

  function OpIds(ops: seq<Op>): set<PacketId> { set o | o in ops :: o.id }

  predicate DistinctIds(ops: seq<Op>) { forall i, j :: 0 <= i < j < |ops| ==> ops[i].id != ops[j].id }

  /** A packet id is owned by at most one call, or abandoned; `inflight` is exactly those ids. */
  predicate Owned(s: State)
  {
    && DistinctIds(s.ops)
    && s.inflight == OpIds(s.ops) + s.abandoned
    && OpIds(s.ops) !! s.abandoned
  }

  lemma StartOwned(s: State, op: Op)
    requires Owned(s) && op.id !in s.inflight
    ensures Owned(s.(inflight := s.inflight + {op.id}, ops := s.ops + [op]))
  {
    assert forall i :: 0 <= i < |s.ops| ==> s.ops[i] in s.ops && s.ops[i].id in OpIds(s.ops);
    assert OpIds(s.ops + [op]) == OpIds(s.ops) + {op.id};
  }

  /** Position before the element at `k` was removed. */
  function Skip(i: nat, k: nat): nat { if i < k then i else i + 1 }

  lemma RemoveOp(ops: seq<Op>, k: nat, ops': seq<Op>)
    requires k < |ops| && DistinctIds(ops) && ops' == ops[..k] + ops[k + 1..]
    ensures DistinctIds(ops') && OpIds(ops') == OpIds(ops) - {ops[k].id}
  {
    forall i, j | 0 <= i < j < |ops'| ensures ops'[i].id != ops'[j].id {
      assert ops'[i] == ops[Skip(i, k)] && ops'[j] == ops[Skip(j, k)];
    }
    forall o | o in ops' ensures o in ops && o.id != ops[k].id {
      var i :| 0 <= i < |ops'| && ops'[i] == o;
      assert o == ops[Skip(i, k)];
    }
    forall o | o in ops ensures o in ops' || o == ops[k] {
      assert ops == ops[..k] + [ops[k]] + ops[k + 1..];
    }
  }

  lemma FinishOwned(s: State, k: nat, released: bool)
    requires Owned(s) && k < |s.ops|
    ensures Owned(OnFinish(s, k, released))
  {
    RemoveOp(s.ops, k, s.ops[..k] + s.ops[k + 1..]);
    assert s.ops[k].id in OpIds(s.ops);
  }

  lemma ResolveEffect(c: Settings, s: State, p: Publish)
    ensures Resolve(c, s, p).Ok? ==>
      var s' := Resolve(c, s, p).value.1; s'.inflight == s.inflight && s'.ops == s.ops && s'.abandoned == s.abandoned
  {
  }

  /** A publish leaves the ids alone, or takes a new one for a call, or takes and abandons it. */
  lemma PublishEffect(c: Settings, s: State, p: Publish)
    ensures var s' := OnPublish(c, s, p).0;
      || (s'.inflight == s.inflight && s'.ops == s.ops && s'.abandoned == s.abandoned)
      || ( && p.id.Some? && p.id.value !in s.inflight && (c.receiveMax != 0 ==> |s.inflight| < c.receiveMax)
           && s'.inflight == s.inflight + {p.id.value}
           && ( || (s'.ops == s.ops + [Op(p.id.value, Publishing)] && s'.abandoned == s.abandoned)
                || (s'.ops == s.ops && s'.abandoned == s.abandoned + {p.id.value})))
  {
    hide Resolve, TopicFilter.Wild, StillHandled;
    ResolveEffect(c, s, p);
  }

  lemma AbandonOwned(s: State, id: PacketId)
    requires Owned(s) && id !in s.inflight
    ensures Owned(s.(inflight := s.inflight + {id}, abandoned := s.abandoned + {id}))
  {
  }

  lemma PublishOwned(c: Settings, s: State, p: Publish)
    requires Owned(s)
    ensures Owned(OnPublish(c, s, p).0)
  {
    PublishEffect(c, s, p);
    if p.id.Some? && p.id.value !in s.inflight {
      StartOwned(s, Op(p.id.value, Publishing));
      AbandonOwned(s, p.id.value);
    }
  }

  lemma OwnedStep(c: Settings, s: State, e: Event)
    requires Owned(s)
    ensures Owned(Step(c, s, e))
  {
    match e {
      case ArrivePublish(p) => PublishOwned(c, s, p);
      case ArriveSubscription(sub) => if sub.id !in s.inflight { StartOwned(s, Op(sub.id, Controlling)); }
      case FinishOp(k, released) => if k < |s.ops| { FinishOwned(s, k, released); }
      case _ =>
    }
  }

  lemma {:induction false} RunOwned(c: Settings, s: State, events: seq<Event>)
    requires Owned(s)
    ensures Owned(Run(c, s, events))
    decreases |events|
  {
    if events != [] {
      OwnedStep(c, s, events[0]);
      RunOwned(c, Step(c, s, events[0]), events[1..]);
    }
  }

  /** In every run each packet id has at most one operation in progress, whatever finishes or fails. */
  lemma OneOperationPerPacketId(c: Settings, events: seq<Event>, i: nat, j: nat)
    requires var ops := Run(c, Initially(), events).ops; i < |ops| && j < |ops| && ops[i].id == ops[j].id
    ensures i == j
  {
    RunOwned(c, Initially(), events);
  }

  // ---------------------------------------------------------------- receive maximum

  function CountKind(ops: seq<Op>, kind: OpKind): nat
  {
    if ops == [] then 0 else CountKind(ops[..|ops| - 1], kind) + if ops[|ops| - 1].kind == kind then 1 else 0
  }

  lemma {:induction false} CountConcat(a: seq<Op>, b: seq<Op>, kind: OpKind)
    ensures CountKind(a + b, kind) == CountKind(a, kind) + CountKind(b, kind)
  {
    if b == [] {
      assert a + b == a;
    } else {
      assert (a + b)[..|a + b| - 1] == a + b[..|b| - 1];
      CountConcat(a, b[..|b| - 1], kind);
    }
  }

  lemma {:induction false} CountAll(ops: seq<Op>)
    ensures CountKind(ops, Publishing) + CountKind(ops, Controlling) == |ops|
  {
    if ops != [] {
      CountAll(ops[..|ops| - 1]);
    }
  }

  lemma NoOpIds()
    ensures OpIds([]) == {}
  {
  }

  lemma LastOpId(ops: seq<Op>)
    requires ops != [] && DistinctIds(ops)
    ensures var front, last := ops[..|ops| - 1], ops[|ops| - 1];
      last.id !in OpIds(front) && OpIds(ops) == OpIds(front) + {last.id}
  {
    var front, last := ops[..|ops| - 1], ops[|ops| - 1];
    assert ops == front + [last];
    forall o | o in front ensures o.id != last.id {
      var i :| 0 <= i < |front| && front[i] == o;
      assert ops[i] == o;
    }
  }

  lemma {:induction false} OpIdsCard(ops: seq<Op>)
    requires DistinctIds(ops)
    ensures |OpIds(ops)| == |ops|
  {
    hide OpIds;
    if ops == [] {
      NoOpIds();
    } else {
      var front, last := ops[..|ops| - 1], ops[|ops| - 1];
      OpIdsCard(front);
      LastOpId(ops);
    }
  }

  /** What counts against the receive maximum: all calls in progress and all abandoned ids. */
  lemma InFlightCount(s: State)
    requires Owned(s)
    ensures |s.inflight| == CountKind(s.ops, Publishing) + CountKind(s.ops, Controlling) + |s.abandoned|
  {
    OpIdsCard(s.ops);
    CountAll(s.ops);
  }

  predicate WithinMaximum(c: Settings, s: State) { c.receiveMax != 0 ==> CountKind(s.ops, Publishing) <= c.receiveMax }

  lemma {:induction false} CountRemove(ops: seq<Op>, k: nat, kind: OpKind)
    requires k < |ops|
    ensures CountKind(ops[..k] + ops[k + 1..], kind) <= CountKind(ops, kind)
  {
    assert ops == ops[..k] + ([ops[k]] + ops[k + 1..]);
    CountConcat(ops[..k], [ops[k]] + ops[k + 1..], kind);
    CountConcat([ops[k]], ops[k + 1..], kind);
    CountConcat(ops[..k], ops[k + 1..], kind);
  }

  lemma CountSnoc(ops: seq<Op>, op: Op)
    ensures CountKind(ops + [op], Publishing) == CountKind(ops, Publishing) + if op.kind.Publishing? then 1 else 0
  {
    assert (ops + [op])[..|ops|] == ops;
  }

  lemma PublishMaximum(c: Settings, s: State, p: Publish)
    requires Owned(s) && WithinMaximum(c, s)
    ensures WithinMaximum(c, OnPublish(c, s, p).0)
  {
    InFlightCount(s);
    PublishEffect(c, s, p);
    if p.id.Some? {
      CountSnoc(s.ops, Op(p.id.value, Publishing));
    }
  }

  lemma MaximumStep(c: Settings, s: State, e: Event)
    requires Owned(s) && WithinMaximum(c, s)
    ensures WithinMaximum(c, Step(c, s, e))
  {
    match e {
      case ArrivePublish(p) => PublishMaximum(c, s, p);
      case ArriveSubscription(sub) => CountSnoc(s.ops, Op(sub.id, Controlling));
      case FinishOp(k, _) => if k < |s.ops| { CountRemove(s.ops, k, Publishing); }
      case _ =>
    }
  }

  /** In every run the QoS 1 and 2 publishes in service never exceed a receive maximum. */
  lemma {:induction false} ReceiveMaximumRespected(c: Settings, s: State, events: seq<Event>)
    requires Owned(s) && WithinMaximum(c, s)
    ensures WithinMaximum(c, Run(c, s, events))
    decreases |events|
  {
    if events != [] {
      OwnedStep(c, s, events[0]);
      MaximumStep(c, s, events[0]);
      ReceiveMaximumRespected(c, Step(c, s, events[0]), events[1..]);
    }
  }

  /**
   The converse does not hold: the peer is accused of exceeding the receive maximum exactly when
   publishes in service, subscriptions in progress and abandoned ids together reach it.
   */
  lemma AccusedExactlyWhen(c: Settings, s: State, p: Publish)
    requires Owned(s) && p.id.Some? && !TopicFilter.Wild(p.topic) && c.receiveMax != 0
    ensures OnPublish(c, s, p).1 == Violated(ReceiveMaximumExceeded) <==>
      CountKind(s.ops, Publishing) + CountKind(s.ops, Controlling) + |s.abandoned| >= c.receiveMax
  {
    hide CountKind, Owned, TopicFilter.Wild;
    InFlightCount(s);
  }

  const OneAtATime: Settings := Settings(1, 0, 2, true, true, None)

  lemma HashIsValid()
    ensures TopicFilter.Parse("#").Ok?
  {
    var f := [TopicFilter.MultiWildcard];
    TopicFilter.ParsePrinted(f);
    assert TopicFilter.Texts(f) == ["#"];
  }

  /** A SUBSCRIBE in progress has the first QoS 1 publish accused of exceeding a receive maximum of one. */
  lemma SubscriptionGetsPublishAccused()
    ensures var s := Run(OneAtATime, Initially(), [ArriveSubscription(Subscription(1, ["#"], false))]);
      && s.ops == [Op(1, Controlling)] && s.abandoned == {}
      && OnPublish(OneAtATime, s, Publish("t", 1, Some(2), false, None)).1 == Violated(ReceiveMaximumExceeded)
  {
    HashIsValid();
    var sub := Subscription(1, ["#"], false);
    var s := Step(OneAtATime, Initially(), ArriveSubscription(sub));
    assert OnSubscription(OneAtATime, Initially(), sub).1 == Control;
    assert s.inflight == {1} && |s.inflight| == 1;
    assert [ArriveSubscription(sub)][1..] == [] && Run(OneAtATime, s, []) == s;
  }

  /** A publish whose service failed has the next one accused, although nothing is in progress. */
  lemma FailedPublishGetsNextAccused()
    ensures var s := Run(OneAtATime, Initially(),
                         [ArrivePublish(Publish("t", 1, Some(1), false, None)), FinishOp(0, false)]);
      && s.ops == []
      && OnPublish(OneAtATime, s, Publish("t", 1, Some(2), false, None)).1 == Violated(ReceiveMaximumExceeded)
  {
    var first := Publish("t", 1, Some(1), false, None);
    var s1 := Step(OneAtATime, Initially(), ArrivePublish(first));
    assert s1.ops == [Op(1, Publishing)];
    var s2 := Step(OneAtATime, s1, FinishOp(0, false));
    assert s2.inflight == {1} && |s2.inflight| == 1;
    var events := [ArrivePublish(first), FinishOp(0, false)];
    assert events[1..] == [FinishOp(0, false)] && [FinishOp(0, false)][1..] == [];
    assert Run(OneAtATime, s1, events[1..]) == Run(OneAtATime, s2, []);
  }

  // ---------------------------------------------------------------- topic aliases

  /** The topic bound last to `alias`. */
  function LastBinding(recorded: seq<(Alias, string)>, alias: Alias): Option<string>
  {
    if recorded == [] then None
    else if recorded[|recorded| - 1].0 == alias then Some(recorded[|recorded| - 1].1)
    else LastBinding(recorded[..|recorded| - 1], alias)
  }

  /** Aliases are within the maximum and hold the topic bound last, which is a proper topic name. */
  predicate AliasesSound(c: Settings, s: State)
  {
    && (forall a :: a in s.aliases ==> a <= c.aliasMax && s.aliases[a] != "" && !TopicFilter.Wild(s.aliases[a]))
    && (forall a: Alias :: LastBinding(s.recorded, a) == if a in s.aliases then Some(s.aliases[a]) else None)
  }

  lemma ResolveSound(c: Settings, s: State, p: Publish)
    requires AliasesSound(c, s) && !TopicFilter.Wild(p.topic)
    ensures Resolve(c, s, p).Ok? ==> AliasesSound(c, Resolve(c, s, p).value.1)
  {
    if Resolve(c, s, p).Ok? && p.alias.Some? && p.topic != "" {
      var s' := Resolve(c, s, p).value.1;
      assert s'.recorded[..|s.recorded|] == s.recorded;
    }
  }

  lemma AliasStep(c: Settings, s: State, e: Event)
    requires AliasesSound(c, s)
    ensures AliasesSound(c, Step(c, s, e))
  {
    if e.ArrivePublish? && !TopicFilter.Wild(e.publish.topic) {
      ResolveSound(c, s, e.publish);
    }
  }

  lemma {:induction false} RunAliases(c: Settings, s: State, events: seq<Event>)
    requires AliasesSound(c, s)
    ensures AliasesSound(c, Run(c, s, events))
    decreases |events|
  {
    if events != [] {
      AliasStep(c, s, events[0]);
      RunAliases(c, Step(c, s, events[0]), events[1..]);
    }
  }

  /**
   In every run a publish with an alias is delivered with the topic bound last to that alias, its own
   topic included, and that topic is not empty and has no wildcards; one that names no topic and finds
   the alias unbound is refused.
   */
  lemma AliasDelivery(c: Settings, events: seq<Event>, p: Publish)
    requires p.alias.Some?
    ensures var s := Run(c, Initially(), events);
      var (s', v) := OnPublish(c, s, p);
      && (v.Deliver? ==> LastBinding(s'.recorded, p.alias.value) == Some(v.topic))
      && (v.Deliver? ==> v.topic != "" && !TopicFilter.Wild(v.topic))
      && (v.Deliver? && p.topic == "" ==> LastBinding(s.recorded, p.alias.value) == Some(v.topic))
      && (v == Violated(UnknownAlias) ==> LastBinding(s.recorded, p.alias.value) == None)
  {
    RunAliases(c, Initially(), events);
  }

  // ---------------------------------------------------------------- the code

  /** `Inner` with its `PublishInfo`, and the calls in progress. */
  class Dispatcher {
    const settings: Settings
    var inflight: set<PacketId>
    var aliases: map<Alias, string>
    var closed: bool
    var ops: seq<Op>
    ghost var abandoned: set<PacketId>
    ghost var recorded: seq<(Alias, string)>

    ghost function View(): State
      reads this
    {
      State(inflight, aliases, closed, ops, abandoned, recorded)
    }

    constructor (settings: Settings)
      ensures View() == Initially() && this.settings == settings
    {
      this.settings := settings;
      inflight, aliases, closed, ops, abandoned, recorded := {}, map[], false, [], {}, [];
    }

    /** The publish arm of `Dispatcher::call`, up to the call of the publish service. */
    method CallPublish(p: Publish) returns (v: Verdict)
      modifies this
      ensures (View(), v) == OnPublish(settings, old(View()), p)
    {
      if TopicFilter.Wild(p.topic) { return Violated(WildcardInTopic); }
      if p.id.Some? {
        var pid := p.id.value;
        if settings.receiveMax != 0 && |inflight| >= settings.receiveMax { return Violated(ReceiveMaximumExceeded); }
        if p.qos > settings.maxQos { return Violated(QosNotSupported); }
        if p.retain && !settings.retainAvailable { return Violated(RetainNotSupported); }
        if pid in inflight { return InUse(pid); }
        inflight := inflight + {pid};
      }
      var topic := p.topic;
      if p.alias.Some? {
        var alias := p.alias.value;
        if topic == "" {
          if alias in aliases {
            topic := aliases[alias];
          } else {
            GiveUp(p.id);
            return Violated(UnknownAlias);
          }
        } else {
          if alias in aliases {
            if aliases[alias] != topic { aliases := aliases[alias := topic]; }
          } else {
            if alias > settings.aliasMax {
              GiveUp(p.id);
              return Violated(AliasTooLarge);
            }
            aliases := aliases[alias := topic];
          }
          assert aliases == old(aliases)[alias := topic];
          recorded := recorded + [(alias, topic)];
        }
      }
      if closed && !StillHandled(settings, p.qos) {
        GiveUp(p.id);
        return Ignored;
      }
      if p.id.Some? { ops := ops + [Op(p.id.value, Publishing)]; }
      return Deliver(topic);
    }

    /** An early return after the id was inserted: nothing will remove it. */
    ghost method GiveUp(id: Option<PacketId>)
      modifies this`abandoned
      ensures View() == Abandon(old(View()), id)
    {
      if id.Some? { abandoned := abandoned + {id.value}; }
    }

    /** The subscribe and unsubscribe arms of `Dispatcher::call`. */
    method CallSubscription(sub: Subscription) returns (v: Verdict)
      modifies this
      ensures (View(), v) == OnSubscription(settings, old(View()), sub)
    {
      if closed { return Ignored; }
      for i := 0 to |sub.filters|
        invariant forall j :: 0 <= j < i ==> TopicFilter.Parse(sub.filters[j]).Ok?
        invariant View() == old(View())
      {
        var ok := TopicFilter.IsValidTopic(sub.filters[i]);
        if !ok { return Violated(MalformedFilter); }
      }
      if sub.hasSubId && !settings.subIdsAvailable { return Violated(SubIdsNotSupported); }
      if sub.id in inflight { return InUse(sub.id); }
      inflight := inflight + {sub.id};
      ops := ops + [Op(sub.id, Controlling)];
      return Control;
    }

    /** The end of `publish_fn` or `control` for a call with a packet id. */
    method Finish(k: nat, released: bool)
      requires k < |ops|
      modifies this
      ensures View() == OnFinish(old(View()), k, released)
    {
      if released {
        inflight := inflight - {ops[k].id};
      } else {
        abandoned := abandoned + {ops[k].id};
      }
      ops := ops[..k] + ops[k + 1..];
    }
  }

  /** For every sequence of events the dispatcher's set, table and calls are those of the specification. */
  method RunEvents(settings: Settings, events: seq<Event>)
    returns (inflight: set<PacketId>, aliases: map<Alias, string>, closed: bool, ops: seq<Op>)
    ensures var s := Run(settings, Initially(), events);
      inflight == s.inflight && aliases == s.aliases && closed == s.closed && ops == s.ops
  {
    hide OnPublish, OnSubscription, OnFinish;
    var d := new Dispatcher(settings);
    for k := 0 to |events|
      invariant d.settings == settings && fresh(d)
      invariant Run(settings, d.View(), events[k..]) == Run(settings, Initially(), events)
    {
      assert events[k..][0] == events[k] && events[k..][1..] == events[k + 1..];
      match events[k] {
        case ArrivePublish(p) => var _ := d.CallPublish(p);
        case ArriveSubscription(sub) => var _ := d.CallSubscription(sub);
        case FinishOp(op, released) => if op < |d.ops| { d.Finish(op, released); }
        case Disconnect => d.closed := true;
      }
    }
    return d.inflight, d.aliases, d.closed, d.ops;
  }
}
