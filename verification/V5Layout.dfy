/**
 MQTT 5 packets byte by byte (sections 2 and 3 of MQTT 5.0): what the encoder writes, and which packet a
 first byte announces to the decoder.
 */
module V5Layout {
  import opened Prelude
  import opened Wire
  import opened Types
  import opened V5Props
  import opened V5Codec
  import opened Layout
  import opened V3Layout
  import V5RoundTrip
  import V5Publish
  import V5Stream
  import V5Limit

  function First5(p: Packet): byte
  {
    match p
    case Publish(dup, retain, qos, _, _, _, _) => 0x30 + One(dup, 8) + Qos(qos) * 2 + One(retain, 1)
    case PublishAck(_, _, _) => 0x40
    case PublishReceived(_, _, _) => 0x50
    case PublishRelease(_, _, _) => 0x62
    case PublishComplete(_, _, _) => 0x70
    case Subscribe(_, _, _, _) => 0x82
    case SubscribeAck(_, _, _) => 0x90
    case Unsubscribe(_, _, _) => 0xA2
    case UnsubscribeAck(_, _, _) => 0xB0
    case PingRequest => 0xC0
    case PingResponse => 0xD0
    case Disconnect(_, _, _, _) => 0xE0
  }

  // ---------------------------------------------------------------- properties

  /** A property: its identifier and its value; absent ones take no bytes. */
  function StrProp(id: byte, s: Option<Bytes>): Bytes
    requires Ok16(s)
  {
    if s.Some? then [id] + Str(s.value) else []
  }

  predicate Ok16(s: Option<Bytes>) { s.Some? ==> |s.value| < 65_536 }

  predicate OkProps(ps: seq<UserProperty>)
  {
    forall i :: 0 <= i < |ps| ==> |ps[i].0| < 65_536 && |ps[i].1| < 65_536
  }

  predicate OkIds(ids: seq<NonZeroU32>) { forall i :: 0 <= i < |ids| ==> ids[i] < 268_435_456 }

  function UserProps(ps: seq<UserProperty>): Bytes
    requires OkProps(ps)
  {
    if ps == [] then [] else [0x26] + Str(ps[0].0) + Str(ps[0].1) + UserProps(ps[1..])
  }

  function SubIds(ids: seq<NonZeroU32>): Bytes
  {
    if ids == [] then [] else [0x0B] + VarBytes(ids[0]) + SubIds(ids[1..])
  }

  /** User properties, then the reason string. */
  function DiagBytes(d: Diag): Bytes
    requires OkProps(d.props) && Ok16(d.reason)
  {
    UserProps(d.props) + StrProp(0x1F, d.reason)
  }

  /** A block of properties, preceded by its length. */
  function Block(content: Bytes): Bytes { VarBytes(|content|) + content }

  function Fixed(expiry: Option<U32Value>, reference: Option<ByteString>): Bytes
    requires Ok16(reference)
  {
    (if expiry.Some? then [0x11] + Big32(expiry.value) else []) + StrProp(0x1C, reference)
  }

  predicate OkPublish(q: PublishProps)
  {
    && Ok16(q.correlationData) && Ok16(q.contentType) && Ok16(q.responseTopic) && OkProps(q.userProperties)
    && OkIds(q.subscriptionIds)
  }

  function PropsOf(q: PublishProps): Bytes
    requires OkPublish(q)
  {
    (if q.topicAlias.Some? then [0x23] + Big16(q.topicAlias.value) else [])
    + (StrProp(0x09, q.correlationData)
    + ((if q.messageExpiry.Some? then [0x02] + Big32(q.messageExpiry.value) else [])
    + (StrProp(0x03, q.contentType)
    + ((if q.isUtf8Payload then [0x01, 0x01] else [])
    + (StrProp(0x08, q.responseTopic)
    + (SubIds(q.subscriptionIds)
    + UserProps(q.userProperties)))))))
  }

  // ---------------------------------------------------------------- bodies

  predicate Fits5(p: Packet)
  {
    match p
    case Publish(_, _, qos, pid, topic, _, q) => |topic| < 65_536 && (pid.None? <==> qos.AtMostOnce?) && OkPublish(q)
    case Subscribe(_, id, props, fs) =>
      OkProps(props) && OkIds(OptToSeq(id)) && forall i :: 0 <= i < |fs| ==> |fs[i].0| < 65_536
    case Unsubscribe(_, props, fs) => OkProps(props) && forall i :: 0 <= i < |fs| ==> |fs[i]| < 65_536
    case Disconnect(_, _, reference, d) => Ok16(reference) && OkProps(d.props) && Ok16(d.reason)
    case PingRequest => true
    case PingResponse => true
    case _ => OkProps(p.diag.props) && Ok16(p.diag.reason)
  }

  /** QoS in bits 0 and 1, no-local 2, retain-as-published 3, retain handling 4 and 5. */
  function Options(o: SubscriptionOptions): byte
  {
    Qos(o.qos) + One(o.noLocal, 4) + One(o.retainAsPublished, 8) + o.retainHandling * 16
  }

  function Filters5(fs: seq<(ByteString, SubscriptionOptions)>): Bytes
    requires forall i :: 0 <= i < |fs| ==> |fs[i].0| < 65_536
  {
    if fs == [] then [] else Str(fs[0].0) + [Options(fs[0].1)] + Filters5(fs[1..])
  }

  function Body5(p: Packet): Bytes
    requires Fits5(p)
  {
    match p
    case Publish(_, _, _, pid, topic, payload, q) =>
      Str(topic) + ((if pid.Some? then Big16(pid.value) else []) + (Block(PropsOf(q)) + payload))
    case PublishAck(id, code, d) => Big16(id) + [code] + Block(DiagBytes(d))
    case PublishReceived(id, code, d) => Big16(id) + [code] + Block(DiagBytes(d))
    case PublishRelease(id, code, d) => Big16(id) + [code] + Block(DiagBytes(d))
    case PublishComplete(id, code, d) => Big16(id) + [code] + Block(DiagBytes(d))
    case SubscribeAck(id, d, status) => Big16(id) + Block(DiagBytes(d)) + status
    case UnsubscribeAck(id, d, status) => Big16(id) + Block(DiagBytes(d)) + status
    case Subscribe(id, subId, props, fs) =>
      Big16(id) + Block(SubIds(OptToSeq(subId)) + UserProps(props)) + Filters5(fs)
    case Unsubscribe(id, props, fs) => Big16(id) + Block(UserProps(props)) + Names(fs)
    case Disconnect(code, expiry, reference, d) => [code] + Block(Fixed(expiry, reference) + DiagBytes(d))
    case PingRequest => []
    case PingResponse => []
  }

  // ---------------------------------------------------------------- writing properties

  lemma StrPropWritten(id: byte, s: Option<Bytes>)
    requires Ok16(s)
    ensures PutOptBytes(id, s) == Put(StrProp(id, s), Done)
  {
    hide PutBytes;
    if s.Some? { StrLayout(s.value); }
  }

  lemma {:induction false} UserPropsWritten(ps: seq<UserProperty>)
    requires OkProps(ps)
    ensures PutProps(ps) == Put(UserProps(ps), Done)
  {
    hide PutBytes, Str;
    if ps != [] {
      StrLayout(ps[0].0);
      StrLayout(ps[0].1);
      UserPropsWritten(ps[1..]);
      assert PutProp(ps[0]) == Put([0x26] + Str(ps[0].0) + Str(ps[0].1), Done);
    }
  }

  lemma {:induction false} SubIdsWritten(ids: seq<NonZeroU32>)
    requires OkIds(ids)
    ensures PutSubIds(ids) == Put(SubIds(ids), Done)
  {
    hide PutVarInt, VarBytes;
    if ids != [] {
      VarLayout(ids[0]);
      SubIdsWritten(ids[1..]);
    }
  }

  lemma DiagWritten(d: Diag)
    requires OkProps(d.props) && Ok16(d.reason)
    ensures PutDiag(d) == Put(DiagBytes(d), Done)
  {
    hide PutProps, UserProps, PutBytes, OkProps;
    UserPropsWritten(d.props);
    if d.reason.Some? { StrLayout(d.reason.value); }
  }

  lemma FixedWritten(expiry: Option<U32Value>, reference: Option<ByteString>)
    requires Ok16(reference)
    ensures PutFixed(expiry, reference) == Put(Fixed(expiry, reference), Done)
  {
    hide PutOptBytes, U32Bytes, StrProp, Big32;
    StrPropWritten(0x1C, reference);
    if expiry.Some? { U32Layout(expiry.value); }
  }

  lemma Chain(a: Put, x: Bytes, b: Put, y: Bytes)
    requires a == Put(x, Done) && b == Put(y, Done)
    ensures a.Then(b) == Put(x + y, Done)
  {
  }

  lemma PropsWritten(q: PublishProps)
    requires OkPublish(q)
    ensures PutPublishProps(q) == Put(PropsOf(q), Done)
  {
    hide PutOptBytes, PutSubIds, PutProps, U16Bytes, U32Bytes, StrProp, SubIds, UserProps, Big16, Big32, Put.Then,
         OkProps, OkIds;
    if q.topicAlias.Some? { U16Layout(q.topicAlias.value); }
    if q.messageExpiry.Some? { U32Layout(q.messageExpiry.value); }
    StrPropWritten(0x09, q.correlationData);
    StrPropWritten(0x03, q.contentType);
    StrPropWritten(0x08, q.responseTopic);
    SubIdsWritten(q.subscriptionIds);
    UserPropsWritten(q.userProperties);
    var h, h' := PutProps(q.userProperties), UserProps(q.userProperties);
    var g, g' := PutSubIds(q.subscriptionIds), SubIds(q.subscriptionIds);
    Chain(g, g', h, h');
    var f, f' := PutOptBytes(RESP_TOPIC, q.responseTopic), StrProp(0x08, q.responseTopic);
    Chain(f, f', g.Then(h), g' + h');
    var e: Put, e': Bytes := PutUtf8(q.isUtf8Payload), if q.isUtf8Payload then [0x01, 0x01] else [];
    Chain(e, e', f.Then(g.Then(h)), f' + (g' + h'));
    var t4, t4' := e.Then(f.Then(g.Then(h))), e' + (f' + (g' + h'));
    var d, d' := PutOptBytes(CONTENT_TYPE, q.contentType), StrProp(0x03, q.contentType);
    Chain(d, d', t4, t4');
    var c: Put, c': Bytes := PutOptU32(MSG_EXPIRY_INT, q.messageExpiry),
        if q.messageExpiry.Some? then [0x02] + Big32(q.messageExpiry.value) else [];
    Chain(c, c', d.Then(t4), d' + t4');
    var b, b' := PutOptBytes(CORR_DATA, q.correlationData), StrProp(0x09, q.correlationData);
    Chain(b, b', c.Then(d.Then(t4)), c' + (d' + t4'));
    var a: Put, a': Bytes := PutAlias(q.topicAlias),
        if q.topicAlias.Some? then [0x23] + Big16(q.topicAlias.value) else [];
    Chain(a, a', b.Then(c.Then(d.Then(t4))), b' + (c' + (d' + t4')));
  }

  // ---------------------------------------------------------------- writing bodies

  lemma OkIs(d: Diag)
    ensures V5Limit.ShortDiag(d) <==> OkProps(d.props) && Ok16(d.reason)
  {
  }

  /** Acknowledgement properties: the length and content of the diagnostics that are kept. */
  lemma AckPropsLayout(d: Diag, limit: nat)
    requires AckPropsSize(d, limit) <= MaxVarInt && PutAckProps(d, AckPropsSize(d, limit)).outcome.Done?
    ensures var c := AckCut(d, limit);
      && OkProps(c.props) && Ok16(c.reason)
      && PutAckProps(d, AckPropsSize(d, limit)) == Put(Block(DiagBytes(c)), Done)
  {
    hide PutVarInt, PutDiag, DiagSize, AckCut, PutAckProps, AckPropsSize, VarBytes, DiagBytes, OkProps, Ok16,
         V5Limit.ShortDiag;
    var c := AckCut(d, limit);
    V5RoundTrip.AckSizeBound(d, limit);
    AckPropsWritten(d, limit);
    V5Limit.DiagDone(c);
    OkIs(c);
    DiagWritten(c);
    DiagRoundTrip([], c);
    VarLayout(DiagSize(c));
  }

  lemma AckLayout(id: NonZeroU16, code: byte, d: Diag, limit: nat)
    requires AckPropsSize(d, limit) <= MaxVarInt && PutAck(id, code, d, 3 + AckPropsSize(d, limit)).outcome.Done?
    ensures var c := AckCut(d, limit);
      && OkProps(c.props) && Ok16(c.reason)
      && PutAck(id, code, d, 3 + AckPropsSize(d, limit)).bytes == Big16(id) + [code] + Block(DiagBytes(c))
  {
    hide U16Bytes, Big16, PutAckProps, AckPropsSize, AckCut, Block, DiagBytes, OkProps, Ok16;
    AckPropsLayout(d, limit);
    U16Layout(id);
  }

  lemma StatusAckLayout(id: NonZeroU16, d: Diag, status: Bytes, limit: nat)
    requires AckPropsSize(d, limit) <= MaxVarInt
    requires PutStatusAck(id, d, status, 2 + |status| + AckPropsSize(d, limit)).outcome.Done?
    ensures var c := AckCut(d, limit);
      && OkProps(c.props) && Ok16(c.reason)
      && PutStatusAck(id, d, status, 2 + |status| + AckPropsSize(d, limit)).bytes
         == Big16(id) + Block(DiagBytes(c)) + status
  {
    hide U16Bytes, Big16, PutAckProps, AckPropsSize, AckCut, Block, DiagBytes, OkProps, Ok16;
    AckPropsLayout(d, limit);
    U16Layout(id);
  }

  lemma AcksWritten(p: Packet, limit: U32Value)
    requires HasDiag(p) && !p.Disconnect?
    requires EncodedSize(p, limit) <= MaxVarInt && PutBody(p, EncodedSize(p, limit)).outcome.Done?
    ensures var q := Trimmed(p, limit); Fits5(q) && PutBody(p, EncodedSize(p, limit)).bytes == Body5(q)
  {
    hide PutAck, PutStatusAck, AckPropsSize, AckCut, DiagLimit, Big16, Block, DiagBytes, OkProps, Ok16;
    match p {
      case PublishAck(id, code, d) => AckLayout(id, code, d, DiagLimit(p, limit));
      case PublishReceived(id, code, d) => AckLayout(id, code, d, DiagLimit(p, limit));
      case PublishRelease(id, code, d) => AckLayout(id, code, d, DiagLimit(p, limit));
      case PublishComplete(id, code, d) => AckLayout(id, code, d, DiagLimit(p, limit));
      case SubscribeAck(id, d, status) => StatusAckLayout(id, d, status, DiagLimit(p, limit));
      case UnsubscribeAck(id, d, status) => StatusAckLayout(id, d, status, DiagLimit(p, limit));
    }
  }

  lemma DisconnectLayout(p: Packet, limit: U32Value)
    requires p.Disconnect? && EncodedSize(p, limit) <= MaxVarInt
    requires PutDisconnect(p, EncodedSize(p, limit)).outcome.Done?
    ensures var q := Trimmed(p, limit); Fits5(q) && PutDisconnect(p, EncodedSize(p, limit)).bytes == Body5(q)
  {
    hide PutVarInt, PutDiag, PutFixed, DiagSize, FixedSize, Kept, EncodedSize, PutDisconnect, VarBytes, DiagBytes,
         Fixed, OkProps,
         V5Limit.ShortDiag, Trimmed, ParseDisconnect, VarIntLen, HasDiag, WithDiag;
    V5RoundTrip.DisconnectTrimmed(p, limit);
    var c := Kept(p, limit);
    var fixed, diag := PutFixed(p.sessionExpiry, p.serverReference), PutDiag(c);
    V5RoundTrip.DisconnectWritten(p, limit);
    V5Limit.DiagDone(c);
    OkIs(c);
    V5Limit.FixedDone(p.sessionExpiry, p.serverReference);
    FixedWritten(p.sessionExpiry, p.serverReference);
    DiagWritten(c);
    V5RoundTrip.DisconnectProperties(p.sessionExpiry, p.serverReference, c);
    VarLayout(FixedSize(p.sessionExpiry, p.serverReference) + DiagSize(c));
  }

  lemma {:induction false} FiltersWritten5(fs: seq<(ByteString, SubscriptionOptions)>)
    requires forall i :: 0 <= i < |fs| ==> |fs[i].0| < 65_536
    ensures PutFilters(fs) == Put(Filters5(fs), Done)
  {
    hide PutBytes, Str;
    if fs != [] {
      StrLayout(fs[0].0);
      FiltersWritten5(fs[1..]);
      assert Str(fs[0].0) + ([Options(fs[0].1)] + Filters5(fs[1..]))
        == Str(fs[0].0) + [Options(fs[0].1)] + Filters5(fs[1..]);
    }
  }

  /** An id, a length, the properties it counts, and the rest. */
  lemma Sandwich(id: Bytes, length: Put, content: Put, rest: Put, v: Bytes, c: Bytes, r: Bytes)
    requires length == Put(v, Done) && content == Put(c, Done) && rest == Put(r, Done)
    ensures Write(id).Then(length).Then(content).Then(rest) == Put(id + (v + c) + r, Done)
  {
    assert id + v + c == id + (v + c);
  }

  lemma SubscribeLayout(p: Packet)
    requires p.Subscribe? && PutSubscribe(p).outcome.Done?
    ensures Fits5(p) && PutSubscribe(p).bytes == Body5(p)
  {
    hide U16Bytes, Big16, PutVarInt, PutSubIds, PutProps, PutFilters, SubIdSize, PropsSize, VarBytes, SubIds,
         UserProps, Filters5,
         OptToSeq, OkProps, OkIds, Put.Then;
    SubscribeFits(p);
    SubscribeParts(p);
    U16Layout(p.packetId);
    var ids, props := OptToSeq(p.id), p.userProperties;
    SubIdsWritten(ids);
    UserPropsWritten(props);
    FiltersWritten5(p.topicFilters);
    Chain(PutSubIds(ids), SubIds(ids), PutProps(props), UserProps(props));
    V5RoundTrip.SubscribePropsRoundTrip(p.id, props);
    var n, c := SubIdSize(p.id) + PropsSize(props), SubIds(ids) + UserProps(props);
    VarLayout(n);
    Sandwich(Big16(p.packetId), PutVarInt(n), PutSubIds(ids).Then(PutProps(props)), PutFilters(p.topicFilters),
      VarBytes(n), c,
             Filters5(p.topicFilters));
  }

  lemma SubscribeParts(p: Packet)
    requires p.Subscribe? && PutSubscribe(p).outcome.Done?
    ensures PutVarInt(SubIdSize(p.id) + PropsSize(p.userProperties)).outcome.Done?
  {
    hide U16Bytes, PutVarInt, PutSubIds, PutProps, PutFilters, SubIdSize, PropsSize, OptToSeq;
  }

  lemma SubscribeFits(p: Packet)
    requires p.Subscribe? && PutSubscribe(p).outcome.Done?
    ensures Fits5(p)
  {
    hide U16Bytes, PutVarInt, PutSubIds, PutProps, PutFilters, SubIdSize, PropsSize, OptToSeq;
    V5Limit.PropsDone(p.userProperties);
    V5Limit.SubIdsDone(OptToSeq(p.id));
    V5Limit.FiltersDone(p.topicFilters);
  }

  lemma UnsubscribeLayout(p: Packet)
    requires p.Unsubscribe? && PutUnsubscribe(p).outcome.Done?
    ensures Fits5(p) && PutUnsubscribe(p).bytes == Body5(p)
  {
    hide U16Bytes, Big16, PutVarInt, PutProps, PutNames, PropsSize, VarBytes, UserProps, Names, OkProps, Put.Then;
    UnsubscribeParts(p);
    U16Layout(p.packetId);
    var props, n := p.userProperties, PropsSize(p.userProperties);
    UserPropsWritten(props);
    NamesWritten(p.filters);
    V5RoundTrip.UserPropsRoundTrip(None, [], props, false);
    VarLayout(n);
    Sandwich(Big16(p.packetId), PutVarInt(n), PutProps(props), PutNames(p.filters), VarBytes(n), UserProps(props),
             Names(p.filters));
  }

  lemma UnsubscribeParts(p: Packet)
    requires p.Unsubscribe? && PutUnsubscribe(p).outcome.Done?
    ensures PutVarInt(PropsSize(p.userProperties)).outcome.Done? && OkProps(p.userProperties)
    ensures forall i :: 0 <= i < |p.filters| ==> |p.filters[i]| < 65_536
  {
    hide U16Bytes, PutVarInt, PutProps, PutNames, PropsSize;
    V5Limit.PropsDone(p.userProperties);
    NamesDone(p.filters);
  }

  lemma PublishFits(p: Packet)
    requires p.Publish? && PutBytes(p.topic).outcome.Done? && PutPublishId(p).outcome.Done?
    requires PutPublishProps(p.props).outcome.Done?
    ensures Fits5(p)
  {
    hide PutPublishProps;
    V5Limit.BlockDone(p.props);
  }

  lemma PublishLayout(p: Packet, limit: U32Value)
    requires p.Publish? && EncodedSize(p, limit) <= MaxVarInt && PutPublish(p, EncodedSize(p, limit)).outcome.Done?
    ensures Fits5(p) && PutPublish(p, EncodedSize(p, limit)).bytes == Body5(p)
  {
    hide PutBytes, PutPublishId, PutPublishProps, PutVarInt, PutPublish, EncodedSize, PublishPropLen, VarIntLen,
         VarIntLenFromSize,
         Str, PropsOf, VarBytes, OkPublish, Big16;
    var n := PublishPropLen(p.props);
    V5Publish.PublishSize(p, limit);
    FromSizeInverts(n);
    VarIntRoundTrip(n, []);
    StringRoundTrip(p.topic, []);
    V5Publish.PublishIdSize(p);
    V5Publish.PublishWritten(p, n);
    PublishFits(p);
    StrLayout(p.topic);
    PublishIdWritten(p);
    PropsWritten(p.props);
    V5Publish.BlockRoundTrip(p.props);
    VarLayout(n);
  }

  lemma PublishIdWritten(p: Packet)
    requires p.Publish? && PutPublishId(p).outcome.Done?
    ensures PutPublishId(p).bytes == if p.pid.Some? then Big16(p.pid.value) else []
  {
    hide U16Bytes, Big16;
    if p.pid.Some? { U16Layout(p.pid.value); }
  }

  lemma BodyLayout(p: Packet, limit: U32Value)
    requires EncodedSize(p, limit) <= MaxVarInt && PutBody(p, EncodedSize(p, limit)).outcome.Done?
    ensures var q := Trimmed(p, limit); Fits5(q) && PutBody(p, EncodedSize(p, limit)).bytes == Body5(q)
  {
    hide EncodedSize, PutAck, PutStatusAck, PutDisconnect, PutSubscribe, PutUnsubscribe, PutPublish, Kept, WithDiag,
         Fits5, Body5;
    if p.Disconnect? {
      DisconnectLayout(p, limit);
    } else if HasDiag(p) {
      AcksWritten(p, limit);
    } else if p.Publish? {
      PublishLayout(p, limit);
    } else if p.Subscribe? {
      SubscribeLayout(p);
    } else if p.Unsubscribe? {
      UnsubscribeLayout(p);
    } else {
      PingLayout(p);
    }
  }

  lemma PingLayout(p: Packet)
    ensures p.PingRequest? || p.PingResponse? ==> Fits5(p) && Body5(p) == []
  {
  }

  lemma FirstIs5(s: Settings, p: Packet)
    ensures FirstByte(Stripped(s, p)) == First5(V5Stream.Sent(s, p))
  {
    hide Kept;
  }

  /** What a successful encode puts on the wire, byte for byte: the packet as it is meant to be sent. */
  lemma EncodeLayout5(s: Settings, p: Packet)
    requires Encode(s, p).outcome.Done?
    ensures var q := V5Stream.Sent(s, p);
      Fits5(q) && Encode(s, p).bytes == [First5(q)] + VarBytes(|Body5(q)|) + Body5(q)
  {
    hide PutVarInt, PutBody, EncodedSize, FirstByte, Stripped, Limit, Encode, Trimmed, VarBytes, Body5, First5, Fits5;
    V5Stream.Layout(s, p);
    V5Stream.BodyRoundTrip(Stripped(s, p), Limit(s));
    BodyLayout(Stripped(s, p), Limit(s));
    VarLayout(V5Stream.SentSize(s, p));
    FirstIs5(s, p);
  }

  // ---------------------------------------------------------------- reading

  /** The first byte alone decides which packet the decoder yields, if any. */
  lemma FirstByteDecides(src: Bytes, first: byte)
    ensures var r := DecodePacket(src, first);
      && (r.Ok? ==>
            && (r.value.Publish? <==> 0x30 <= first <= 0x3F) && (r.value.PublishAck? <==> first == 0x40)
            && (r.value.PublishReceived? <==> first == 0x50) && (r.value.PublishRelease? <==> first == 0x62)
            && (r.value.PublishComplete? <==> first == 0x70) && (r.value.Subscribe? <==> first == 0x82)
            && (r.value.SubscribeAck? <==> first == 0x90) && (r.value.Unsubscribe? <==> first == 0xA2)
            && (r.value.UnsubscribeAck? <==> first == 0xB0) && (r.value.PingRequest? <==> first == 0xC0)
            && (r.value.PingResponse? <==> first == 0xD0) && (r.value.Disconnect? <==> first == 0xE0))
      && (!(0x30 <= first <= 0x3F) && first !in [0x40, 0x50, 0x62, 0x70, 0x82, 0x90, 0xA2, 0xB0, 0xC0, 0xD0, 0xE0] ==>
            r == Err(UnsupportedPacketType))
  {
    hide DecodeAck, DecodeStatusAck, GetNonZeroU16, GetString, TakeProperties, ParseSubscribe, GetFilters, GetNames,
         ParseDisconnect, ParsePublish, GetPublishId, Collected, Bit, QosFrom;
  }

  /** The reason codes of sections 3.4.2.1, 3.6.2.1, 3.9.3, 3.11.3 and 3.14.2.1, as the decoder accepts them. */
  lemma ReasonCodes(b: byte)
    ensures IsAckCode(b) <==> b in {0x00, 0x10, 0x80, 0x83, 0x87, 0x90, 0x91, 0x97, 0x99}
    ensures IsAck2Code(b) <==> b in {0x00, 0x92}
    ensures IsSubCode(b) <==> b in {0x00, 0x01, 0x02, 0x80, 0x83, 0x87, 0x8F, 0x91, 0x97, 0x9E, 0xA1, 0xA2}
    ensures IsUnsubCode(b) <==> b in {0x00, 0x11, 0x80, 0x83, 0x87, 0x8F, 0x91}
    ensures IsDisconnectCode(b) <==> b in {0x00, 0x04, 0x80, 0x81, 0x82, 0x83, 0x87, 0x89, 0x8B, 0x8C, 0x8D, 0x8E,
      0x8F, 0x90, 0x93, 0x94, 0x95, 0x96, 0x97, 0x98, 0x99, 0x9A, 0x9B, 0x9C, 0x9D, 0x9E, 0x9F, 0xA0, 0xA1, 0xA2}
  {
  }

  /** The property is unknown in an acknowledgement, or was given before. */
  predicate NotInAck(d: Diag, id: byte) { id !in {0x1F, 0x26} || (id == 0x1F && d.reason.Some?) }

  predicate NotInDisconnect(q: DisconnectProps, id: byte)
  {
    || id !in {0x11, 0x1C, 0x1F, 0x26} || (id == 0x11 && q.expiry.Some?) || (id == 0x1C && q.reference.Some?)
    || (id == 0x1F && q.diag.reason.Some?)
  }

  predicate NotInSubscribe(subId: Option<NonZeroU32>, id: byte) { id !in {0x0B, 0x26} || (id == 0x0B && subId.Some?) }

  predicate NotInPublish(q: PublishAcc, id: byte)
  {
    || id !in {0x01, 0x02, 0x03, 0x08, 0x09, 0x0B, 0x23, 0x26}
    || (id == 0x01 && q.isUtf8Payload.Some?) || (id == 0x02 && q.messageExpiry.Some?)
    || (id == 0x03 && q.contentType.Some?) || (id == 0x08 && q.responseTopic.Some?)
    || (id == 0x09 && q.correlationData.Some?) || (id == 0x23 && q.topicAlias.Some?)
  }

  /** A property that may be given once is refused the second time, and an unknown one always. */
  lemma PropertiesRefused(d: Diag, q: DisconnectProps, acc: PublishAcc, subId: Option<NonZeroU32>,
      props: seq<UserProperty>, src: Bytes)
    requires src != []
    ensures NotInAck(d, src[0]) ==> ParseDiag(d, src) == Err(DecodeError.MalformedPacket)
    ensures NotInDisconnect(q, src[0]) ==> ParseDisconnect(q, src) == Err(DecodeError.MalformedPacket)
    ensures NotInSubscribe(subId, src[0]) ==>
      ParseSubscribe(subId, props, src, true) == Err(DecodeError.MalformedPacket)
    ensures src[0] != 0x26 ==> ParseSubscribe(None, props, src, false) == Err(DecodeError.MalformedPacket)
    ensures NotInPublish(acc, src[0]) ==> ParsePublish(acc, src) == Err(DecodeError.MalformedPacket)
  {
    hide GetString, GetBytes, GetU32, GetNonZeroU32, GetNonZeroU16, GetVarInt, GetBool;
  }

  /** The short forms: no reason code means success, and no properties means none. */
  lemma ShortForms(id: NonZeroU16, code: byte)
    ensures DecodePacket(Big16(id), 0x40) == Ok(PublishAck(id, 0, Diag([], None)))
    ensures DecodePacket(Big16(id), 0x50) == Ok(PublishReceived(id, 0, Diag([], None)))
    ensures DecodePacket(Big16(id), 0x62) == Ok(PublishRelease(id, 0, Diag([], None)))
    ensures DecodePacket(Big16(id), 0x70) == Ok(PublishComplete(id, 0, Diag([], None)))
    ensures DecodePacket([], 0xE0) == Ok(Disconnect(0, None, None, Diag([], None)))
    ensures DecodePacket(Big16(id) + [code], 0x40)
         == if IsAckCode(code) then Ok(PublishAck(id, code, Diag([], None))) else Err(DecodeError.MalformedPacket)
    ensures DecodePacket(Big16(id) + [code], 0x62)
         == if IsAck2Code(code) then Ok(PublishRelease(id, code, Diag([], None))) else Err(DecodeError.MalformedPacket)
    ensures DecodePacket([code], 0xE0)
         == if IsDisconnectCode(code) then Ok(Disconnect(code, None, None, Diag([], None)))
            else Err(DecodeError.MalformedPacket)
  {
    hide GetNonZeroU16, GetAckProps, IsAckCode, IsAck2Code, IsDisconnectCode, Big16, TakeProperties, ParseDisconnect;
    U16Layout(id);
    IdRoundTrip(id, []);
    IdRoundTrip(id, [code]);
    assert Big16(id) + [] == Big16(id);
  }

  /** Bytes after the properties of an acknowledgement are refused. */
  lemma TrailingRefused(id: NonZeroU16, code: byte, d: Diag, extra: Bytes)
    requires OkProps(d.props) && Ok16(d.reason) && |DiagBytes(d)| < 268_435_456 && extra != []
    ensures IsAckCode(code) ==>
      && DecodePacket(Big16(id) + ([code] + (Block(DiagBytes(d)) + extra)), 0x40) == Err(DecodeError.InvalidLength)
      && DecodePacket(Big16(id) + ([code] + (Block(DiagBytes(d)) + extra)), 0x50) == Err(DecodeError.InvalidLength)
    ensures IsAck2Code(code) ==>
      && DecodePacket(Big16(id) + ([code] + (Block(DiagBytes(d)) + extra)), 0x62) == Err(DecodeError.InvalidLength)
      && DecodePacket(Big16(id) + ([code] + (Block(DiagBytes(d)) + extra)), 0x70) == Err(DecodeError.InvalidLength)
  {
    hide GetNonZeroU16, GetAckProps, IsAckCode, IsAck2Code, Big16, Block, DiagBytes;
    var props := Block(DiagBytes(d)) + extra;
    var src := Big16(id) + ([code] + props);
    U16Layout(id);
    IdRoundTrip(id, [code] + props);
    assert ([code] + props)[1..] == props;
    AckPropsRead(d, extra);
  }

  lemma AckPropsRead(d: Diag, extra: Bytes)
    requires OkProps(d.props) && Ok16(d.reason) && |DiagBytes(d)| < 268_435_456
    ensures GetAckProps(Block(DiagBytes(d)) + extra) == Ok((d, extra))
  {
    hide PutDiag, ParseDiag, TakeProperties, VarBytes, DiagBytes;
    var content := DiagBytes(d);
    DiagWritten(d);
    DiagRoundTrip([], d);
    assert [] + d.props == d.props;
    TakeIs(|content|, content + extra);
    assert Block(content) + extra == VarBytes(|content|) + (content + extra);
    assert (content + extra)[..|content|] == content && (content + extra)[|content|..] == extra;
  }

  /** So they are after those of a disconnect. */
  lemma DisconnectTrailingRefused(
      code: byte, expiry: Option<U32Value>, reference: Option<ByteString>, d: Diag, extra: Bytes)
    requires IsDisconnectCode(code) && Ok16(reference) && OkProps(d.props) && Ok16(d.reason) && extra != []
    requires |Fixed(expiry, reference) + DiagBytes(d)| < 268_435_456
    ensures DecodePacket([code] + (Block(Fixed(expiry, reference) + DiagBytes(d)) + extra), 0xE0)
         == Err(DecodeError.InvalidLength)
  {
    hide PutDiag, PutFixed, ParseDisconnect, TakeProperties, VarBytes, DiagBytes, Fixed, IsDisconnectCode, OkProps,
         DiagSize, FixedSize;
    var content := Fixed(expiry, reference) + DiagBytes(d);
    FixedWritten(expiry, reference);
    DiagWritten(d);
    V5RoundTrip.DisconnectProperties(expiry, reference, d);
    TakeIs(|content|, content + extra);
    var props := Block(content) + extra;
    assert props == VarBytes(|content|) + (content + extra);
    assert (content + extra)[..|content|] == content && (content + extra)[|content|..] == extra;
    var src := [code] + props;
    assert src[1..] == props;
  }
}
