/**
 MQTT 5 packets with their limited sizes, encoders and decoders (src/v5/codec): acknowledgements,
 publish, subscribe, unsubscribe, disconnect and the pings. CONNECT, CONNACK and AUTH are not part of
 this model.
 */
module V5Codec {
  import opened Prelude
  import opened Wire
  import opened Types
  import opened V5Props

  // ---------------------------------------------------------------- packets

  predicate IsAckCode(b: byte) { b in [0, 16, 128, 131, 135, 144, 145, 151, 153] }
  predicate IsAck2Code(b: byte) { b in [0, 146] }
  predicate IsSubCode(b: byte) { b in [0, 1, 2, 128, 131, 135, 143, 145, 151, 158, 161, 162] }
  predicate IsUnsubCode(b: byte) { b in [0, 17, 128, 131, 135, 143, 145] }
  predicate IsDisconnectCode(b: byte)
  {
    b in [0, 4, 128, 129, 130, 131, 135, 137] || 139 <= b <= 144 || 147 <= b <= 162
  }

  /** The `prim_enum!` reason codes, by value. */
  type AckCode = b: byte | IsAckCode(b) witness 0
  type Ack2Code = b: byte | IsAck2Code(b) witness 0
  type SubCode = b: byte | IsSubCode(b) witness 0
  type UnsubCode = b: byte | IsUnsubCode(b) witness 0
  type DisconnectCode = b: byte | IsDisconnectCode(b) witness 0

  type RetainHandling = n: nat | n <= 2

  datatype SubscriptionOptions = SubscriptionOptions(qos: QoS, noLocal: bool, retainAsPublished: bool,
      retainHandling: RetainHandling)

  datatype PublishProps = PublishProps(
    topicAlias: Option<NonZeroU16>,
    correlationData: Option<Bytes>,
    messageExpiry: Option<NonZeroU32>,
    contentType: Option<ByteString>,
    isUtf8Payload: bool,
    responseTopic: Option<ByteString>,
    subscriptionIds: seq<NonZeroU32>,
    userProperties: seq<UserProperty>)

  datatype Packet =
    | PublishAck(packetId: NonZeroU16, ackCode: AckCode, diag: Diag)
    | PublishReceived(packetId: NonZeroU16, ackCode: AckCode, diag: Diag)
    | PublishRelease(packetId: NonZeroU16, ack2Code: Ack2Code, diag: Diag)
    | PublishComplete(packetId: NonZeroU16, ack2Code: Ack2Code, diag: Diag)
    | SubscribeAck(packetId: NonZeroU16, diag: Diag, subStatus: seq<SubCode>)
    | UnsubscribeAck(packetId: NonZeroU16, diag: Diag, unsubStatus: seq<UnsubCode>)
    | Disconnect(reasonCode: DisconnectCode, sessionExpiry: Option<U32Value>, serverReference: Option<ByteString>,
        diag: Diag)
    | Subscribe(packetId: NonZeroU16, id: Option<NonZeroU32>, userProperties: seq<UserProperty>,
                topicFilters: seq<(ByteString, SubscriptionOptions)>)
    | Unsubscribe(packetId: NonZeroU16, userProperties: seq<UserProperty>, filters: seq<ByteString>)
    | Publish(dup: bool, retain: bool, qos: QoS, pid: Option<NonZeroU16>, topic: ByteString, payload: Bytes,
        props: PublishProps)
    | PingRequest
    | PingResponse

  // property identifiers
  const UTF8_PAYLOAD: byte := 0x01
  const MSG_EXPIRY_INT: byte := 0x02
  const CONTENT_TYPE: byte := 0x03
  const RESP_TOPIC: byte := 0x08
  const CORR_DATA: byte := 0x09
  const SUB_ID: byte := 0x0B
  const SESS_EXPIRY_INT: byte := 0x11
  const SERVER_REF: byte := 0x1C
  const TOPIC_ALIAS: byte := 0x23

  // ---------------------------------------------------------------- sizes

  /** `reduce_limit`. */
  function ReduceLimit(limit: nat, reduction: nat): nat { if reduction > limit then 0 else limit - reduction }

  /** What is left of the limit for the properties of an acknowledgement or disconnect. */
  function DiagLimit(p: Packet, limit: U32Value): nat
  {
    match p
    case SubscribeAck(_, _, status) => WrapSub32(limit, 2 + |status|)
    case UnsubscribeAck(_, _, status) => ReduceLimit(limit, 2 + |status|)
    case Disconnect(_, expiry, reference, _) => ReduceLimit(limit, FixedSize(expiry, reference) + 1 + 4)
    case _ => WrapSub32(limit, 3 + 4)
  }

  function FixedSize(expiry: Option<U32Value>, reference: Option<ByteString>): nat
  {
    (if expiry.Some? then 5 else 0) + (if reference.Some? then 1 + BytesSize(reference.value) else 0)
  }

  predicate HasDiag(p: Packet)
  {
    p.PublishAck? || p.PublishReceived? || p.PublishRelease? || p.PublishComplete?
    || p.SubscribeAck? || p.UnsubscribeAck? || p.Disconnect?
  }

  /** The diagnostics that survive the limit. */
  function Kept(p: Packet, limit: U32Value): Diag
    requires HasDiag(p)
  {
    if p.Disconnect? then Cut(p.diag, DiagLimit(p, limit)) else AckCut(p.diag, DiagLimit(p, limit))
  }

  function WithDiag(p: Packet, d: Diag): Packet
    requires HasDiag(p)
  {
    match p
    case PublishAck(id, code, _) => PublishAck(id, code, d)
    case PublishReceived(id, code, _) => PublishReceived(id, code, d)
    case PublishRelease(id, code, _) => PublishRelease(id, code, d)
    case PublishComplete(id, code, _) => PublishComplete(id, code, d)
    case SubscribeAck(id, _, status) => SubscribeAck(id, d, status)
    case UnsubscribeAck(id, _, status) => UnsubscribeAck(id, d, status)
    case Disconnect(code, expiry, reference, _) => Disconnect(code, expiry, reference, d)
  }

  /** The packet as the peer will see it. */
  function Trimmed(p: Packet, limit: U32Value): Packet
  {
    if HasDiag(p) then WithDiag(p, Kept(p, limit)) else p
  }

  function SubIdSize(id: Option<NonZeroU32>): nat { if id.Some? then 1 + VarIntLen(id.value) else 0 }

  function SubIdsSize(ids: seq<NonZeroU32>): nat
  {
    if ids == [] then 0 else 1 + VarIntLen(ids[0]) + SubIdsSize(ids[1..])
  }

  function FiltersSize(fs: seq<(ByteString, SubscriptionOptions)>): nat
  {
    if fs == [] then 0 else BytesSize(fs[0].0) + 1 + FiltersSize(fs[1..])
  }

  function OptSize(s: Option<Bytes>): nat { if s.Some? then 1 + BytesSize(s.value) else 0 }

  function PublishPropLen(q: PublishProps): nat
  {
    (if q.topicAlias.Some? then 3 else 0) + OptSize(q.correlationData) + (if q.messageExpiry.Some? then 5 else 0)
    + OptSize(q.contentType) + (if q.isUtf8Payload then 2 else 0) + OptSize(q.responseTopic)
    + SubIdsSize(q.subscriptionIds) + PropsSize(q.userProperties)
  }

  /** `EncodeLtd::encoded_size`. */
  function EncodedSize(p: Packet, limit: U32Value): nat
  {
    match p
    case SubscribeAck(_, d, status) =>
      if |status| > U32 - 3 then USIZE - 1 else 2 + AckPropsSize(d, DiagLimit(p, limit)) + |status|
    case UnsubscribeAck(_, d, status) => 2 + |status| + AckPropsSize(d, DiagLimit(p, limit))
    case Disconnect(_, expiry, reference, _) =>
      var propLen := FixedSize(expiry, reference) + DiagSize(Kept(p, limit));
      1 + VarIntLen(propLen) + propLen
    case Subscribe(_, id, props, fs) =>
      var propLen := SubIdSize(id) + PropsSize(props);
      2 + VarIntLen(propLen) + propLen + FiltersSize(fs)
    case Unsubscribe(_, props, fs) => 2 + VarIntLen(PropsSize(props)) + PropsSize(props) + NamesSize(fs)
    case Publish(_, _, qos, _, topic, payload, q) =>
      BytesSize(topic) + (if qos.AtMostOnce? then 0 else 2) + (PublishPropLen(q) + VarIntLen(PublishPropLen(q)))
        + |payload|
    case PingRequest => 0
    case PingResponse => 0
    case _ => 3 + AckPropsSize(p.diag, DiagLimit(p, limit))
  }

  // ---------------------------------------------------------------- encoding

  function FirstByte(p: Packet): byte
  {
    match p
    case PublishAck(_, _, _) => PUBACK
    case PublishReceived(_, _, _) => PUBREC
    case PublishRelease(_, _, _) => PUBREL
    case PublishComplete(_, _, _) => PUBCOMP
    case SubscribeAck(_, _, _) => SUBACK
    case UnsubscribeAck(_, _, _) => UNSUBACK
    case Disconnect(_, _, _, _) => DISCONNECT
    case Subscribe(_, _, _, _) => SUBSCRIBE
    case Unsubscribe(_, _, _) => UNSUBSCRIBE
    case Publish(dup, retain, qos, _, _, _, _) => PublishByte(dup, qos, retain)
    case PingRequest => PINGREQ
    case PingResponse => PINGRESP
  }

  function PutAck(id: NonZeroU16, code: byte, d: Diag, size: nat): Put
  {
    Write(U16Bytes(id) + [code]).Then(PutAckProps(d, size - 3))
  }

  function PutStatusAck(id: NonZeroU16, d: Diag, status: Bytes, size: nat): Put
  {
    Write(U16Bytes(id)).Then(PutAckProps(d, size - 2 - |status|)).Then(Write(status))
  }

  function PutOptU32(id: byte, v: Option<nat>): Put
    requires v.Some? ==> v.value < U32
  {
    if v.Some? then Write([id] + U32Bytes(v.value)) else Write([])
  }

  function PutOptBytes(id: byte, v: Option<Bytes>): Put
  {
    if v.Some? then Write([id]).Then(PutBytes(v.value)) else Write([])
  }

  function PutFixed(expiry: Option<U32Value>, reference: Option<ByteString>): Put
  {
    PutOptU32(SESS_EXPIRY_INT, expiry).Then(PutOptBytes(SERVER_REF, reference))
  }

  /** A length prefix as `var_int_len_from_size` recovers it; its subtractions are unsigned. */
  function PutLength(n: int): Put { if n < 0 then Put([], Panicked) else PutVarInt(n) }

  function PutDisconnect(p: Packet, size: nat): Put
    requires p.Disconnect?
  {
    var head := Write([p.reasonCode])
      .Then(PutLength(if size < 1 then -1 else VarIntLenFromSize(size - 1)))
      .Then(PutFixed(p.sessionExpiry, p.serverReference));
    head.Then(PutOptProps(p.diag, size - |head.bytes|))
  }

  function OptionsByte(o: SubscriptionOptions): byte
  {
    QosByte(o.qos) + Flag(o.noLocal) * 4 + Flag(o.retainAsPublished) * 8 + o.retainHandling * 16
  }

  function PutFilters(fs: seq<(ByteString, SubscriptionOptions)>): Put
  {
    if fs == [] then Write([]) else PutBytes(fs[0].0).Then(Write([OptionsByte(fs[0].1)]).Then(PutFilters(fs[1..])))
  }

  function PutSubIds(ids: seq<NonZeroU32>): Put
  {
    if ids == [] then Write([]) else Write([SUB_ID]).Then(PutVarInt(ids[0])).Then(PutSubIds(ids[1..]))
  }

  function OptToSeq<T>(o: Option<T>): seq<T> { if o.Some? then [o.value] else [] }

  function PutSubscribe(p: Packet): Put
    requires p.Subscribe?
  {
    Write(U16Bytes(p.packetId))
    .Then(PutVarInt(SubIdSize(p.id) + PropsSize(p.userProperties)))
    .Then(PutSubIds(OptToSeq(p.id)).Then(PutProps(p.userProperties)))
    .Then(PutFilters(p.topicFilters))
  }

  function PutUnsubscribe(p: Packet): Put
    requires p.Unsubscribe?
  {
    Write(U16Bytes(p.packetId))
    .Then(PutVarInt(PropsSize(p.userProperties)))
    .Then(PutProps(p.userProperties))
    .Then(PutNames(p.filters))
  }

  function PutAlias(v: Option<NonZeroU16>): Put
  {
    if v.Some? then Write([TOPIC_ALIAS] + U16Bytes(v.value)) else Write([])
  }

  function PutUtf8(b: bool): Put { if b then Write([UTF8_PAYLOAD, 1]) else Write([]) }

  /** The properties of a publish, in the order the code writes them. */
  function PutPublishProps(q: PublishProps): Put
  {
    PutAlias(q.topicAlias)
    .Then(PutOptBytes(CORR_DATA, q.correlationData)
    .Then(PutOptU32(MSG_EXPIRY_INT, q.messageExpiry)
    .Then(PutOptBytes(CONTENT_TYPE, q.contentType)
    .Then(PutUtf8(q.isUtf8Payload)
    .Then(PutOptBytes(RESP_TOPIC, q.responseTopic)
    .Then(PutSubIds(q.subscriptionIds)
    .Then(PutProps(q.userProperties))))))))
  }

  function PutPublishId(p: Packet): Put
    requires p.Publish?
  {
    if p.qos.AtMostOnce? then
      if p.pid.Some? then Fail(EncodeError.MalformedPacket) else Write([])
    else if p.pid.None? then Fail(PacketIdRequired) else Write(U16Bytes(p.pid.value))
  }

  function PutPublish(p: Packet, size: nat): Put
    requires p.Publish?
  {
    var head := PutBytes(p.topic).Then(PutPublishId(p));
    var left := size - (|head.bytes| + |p.payload|);
    head
    .Then(PutLength(if left < 0 then -1 else VarIntLenFromSize(left)))
    .Then(PutPublishProps(p.props))
    .Then(Write(p.payload))
  }

  /** The body `EncodeLtd::encode` writes when told the total size. */
  function PutBody(p: Packet, size: nat): Put
  {
    match p
    case PublishAck(id, code, d) => PutAck(id, code, d, size)
    case PublishReceived(id, code, d) => PutAck(id, code, d, size)
    case PublishRelease(id, code, d) => PutAck(id, code, d, size)
    case PublishComplete(id, code, d) => PutAck(id, code, d, size)
    case SubscribeAck(id, d, status) => PutStatusAck(id, d, status, size)
    case UnsubscribeAck(id, d, status) => PutStatusAck(id, d, status, size)
    case Disconnect(_, _, _, _) => PutDisconnect(p, size)
    case Subscribe(_, _, _, _) => PutSubscribe(p)
    case Unsubscribe(_, _, _) => PutUnsubscribe(p)
    case Publish(_, _, _, _, _, _, _) => PutPublish(p, size)
    case PingRequest => Write([])
    case PingResponse => Write([])
  }

  function PutPacket(p: Packet, size: nat): Put
  {
    Write([FirstByte(p)]).Then(PutVarInt(size)).Then(PutBody(p, size))
  }

  /** `CodecFlags::NO_PROBLEM_INFO` and `max_out_size`. */
  datatype Settings = Settings(noProblemInfo: bool, maxOutSize: U32Value)

  /** Section 3.1.2.11.7 of MQTT 5.0: without problem information, diagnostics are not sent. */
  function Stripped(s: Settings, p: Packet): Packet
  {
    if !s.noProblemInfo then p
    else
      match p
      case Disconnect(_, _, _, _) => p
      case Subscribe(id, subId, _, fs) => Subscribe(id, subId, [], fs)
      case Unsubscribe(id, _, fs) => Unsubscribe(id, [], fs)
      case _ => if HasDiag(p) then WithDiag(p, NoDiag) else p
  }

  const MAX_PACKET_SIZE: U32Value := 0xF_FF_FF_FF

  function Limit(s: Settings): U32Value { if s.maxOutSize != 0 then s.maxOutSize else MAX_PACKET_SIZE }

  /** `Encoder::encode`. */
  function Encode(s: Settings, p: Packet): Put
  {
    var q := Stripped(s, p);
    var size := EncodedSize(q, Limit(s));
    if size > Limit(s) then Fail(OverMaxPacketSize) else PutPacket(q, size)
  }

  /** `set_max_outbound_size`. */
  function OutboundLimit(size: U32Value): U32Value { if size > 5 then size - 5 else size }

  // ---------------------------------------------------------------- decoding

  function DecodeAck(src: Bytes, valid: byte -> bool): (r: Result<(NonZeroU16, byte, Diag), DecodeError>)
    ensures r.Ok? ==> r.value.1 == 0 || valid(r.value.1)
  {
    var (id, rest) :- GetNonZeroU16(src);
    if rest == [] then Ok((id, 0, NoDiag))
    else if !valid(rest[0]) then Err(DecodeError.MalformedPacket)
    else if |rest| == 1 then Ok((id, rest[0], NoDiag))
    else
      var (d, left) :- GetAckProps(rest[1..]);
      if left != [] then Err(DecodeError.InvalidLength) else Ok((id, rest[0], d))
  }

  predicate AllValid(status: Bytes, valid: byte -> bool)
  {
    forall i :: 0 <= i < |status| ==> valid(status[i])
  }

  function DecodeStatusAck(src: Bytes, valid: byte -> bool): (r: Result<(NonZeroU16, Diag, Bytes), DecodeError>)
    ensures r.Ok? ==> AllValid(r.value.2, valid)
  {
    var (id, rest) :- GetNonZeroU16(src);
    var (d, status) :- GetAckProps(rest);
    if AllValid(status, valid) then Ok((id, d, status)) else Err(DecodeError.MalformedPacket)
  }

  /** The properties of a disconnect: two fixed ones besides the diagnostics. */
  datatype DisconnectProps = DisconnectProps(expiry: Option<U32Value>, reference: Option<ByteString>, diag: Diag)

  function ParseDisconnect(acc: DisconnectProps, src: Bytes): Result<DisconnectProps, DecodeError>
    decreases |src|
  {
    if src == [] then Ok(acc)
    else if src[0] == SESS_EXPIRY_INT then
      if acc.expiry.Some? then Err(DecodeError.MalformedPacket)
      else
        var (v, rest) :- GetU32(src[1..]);
        ParseDisconnect(acc.(expiry := Some(v)), rest)
    else if src[0] == REASON_STRING then
      if acc.diag.reason.Some? then Err(DecodeError.MalformedPacket)
      else
        var (v, rest) :- GetString(src[1..]);
        ParseDisconnect(acc.(diag := acc.diag.(reason := Some(v))), rest)
    else if src[0] == USER then
      var (key, rest) :- GetString(src[1..]);
      var (val, rest') :- GetString(rest);
      ParseDisconnect(acc.(diag := acc.diag.(props := acc.diag.props + [(key, val)])), rest')
    else if src[0] == SERVER_REF then
      if acc.reference.Some? then Err(DecodeError.MalformedPacket)
      else
        var (v, rest) :- GetString(src[1..]);
        ParseDisconnect(acc.(reference := Some(v)), rest)
    else Err(DecodeError.MalformedPacket)
  }

  /** The loop over the properties of a disconnect. */
  method DecodeDisconnectProps(src: Bytes) returns (r: Result<DisconnectProps, DecodeError>)
    ensures r == ParseDisconnect(DisconnectProps(None, None, NoDiag), src)
  {
    hide GetString, GetU32;
    var acc, cur: Bytes := DisconnectProps(None, None, NoDiag), src;
    while cur != []
      invariant ParseDisconnect(DisconnectProps(None, None, NoDiag), src) == ParseDisconnect(acc, cur)
      decreases |cur|
    {
      var id, body := cur[0], cur[1..];
      if id == SESS_EXPIRY_INT {
        var v := GetU32(body);
        if acc.expiry.Some? { return Err(DecodeError.MalformedPacket); }
        if v.Err? { return Err(v.error); }
        U32Progress(body);
        acc, cur := acc.(expiry := Some(v.value.0)), v.value.1;
      } else if id == REASON_STRING || id == SERVER_REF || id == USER {
        if (id == REASON_STRING && acc.diag.reason.Some?) || (id == SERVER_REF && acc.reference.Some?) {
          return Err(DecodeError.MalformedPacket);
        }
        var v := GetString(body);
        if v.Err? { return Err(v.error); }
        if id == REASON_STRING {
          acc, cur := acc.(diag := acc.diag.(reason := Some(v.value.0))), v.value.1;
        } else if id == SERVER_REF {
          acc, cur := acc.(reference := Some(v.value.0)), v.value.1;
        } else {
          var w := GetString(v.value.1);
          if w.Err? { return Err(w.error); }
          acc, cur := acc.(diag := acc.diag.(props := acc.diag.props + [(v.value.0, w.value.0)])), w.value.1;
        }
      } else {
        return Err(DecodeError.MalformedPacket);
      }
    }
    return Ok(acc);
  }

  lemma U32Progress(src: Bytes)
    ensures GetU32(src).Ok? ==> |GetU32(src).value.1| < |src|
  {
  }

  function DecodeDisconnect(src: Bytes): Result<Packet, DecodeError>
  {
    if src == [] then Ok(Disconnect(0, None, None, NoDiag))
    else if !IsDisconnectCode(src[0]) then Err(DecodeError.MalformedPacket)
    else if |src| == 1 then Ok(Disconnect(src[0], None, None, NoDiag))
    else
      var (props, left) :- TakeProperties(src[1..]);
      var q :- ParseDisconnect(DisconnectProps(None, None, NoDiag), props);
      if left != [] then Err(DecodeError.InvalidLength)
      else Ok(Disconnect(src[0], q.expiry, q.reference, q.diag))
  }

  /** Subscription id and user properties of a subscribe (`ids` off: those of an unsubscribe). */
  function ParseSubscribe(id: Option<NonZeroU32>, props: seq<UserProperty>, src: Bytes, ids: bool)
    : Result<(Option<NonZeroU32>, seq<UserProperty>), DecodeError>
    decreases |src|
  {
    if src == [] then Ok((id, props))
    else if ids && src[0] == SUB_ID then
      if id.Some? then Err(DecodeError.MalformedPacket)
      else
        var (v, rest) :- GetVarInt(src[1..]);
        VarIntConsumes(src[1..], 0, 0);
        if 0 < v < U32 then ParseSubscribe(Some(v), props, rest, ids) else Err(DecodeError.MalformedPacket)
    else if src[0] == USER then
      var (key, rest) :- GetString(src[1..]);
      var (val, rest') :- GetString(rest);
      ParseSubscribe(id, props + [(key, val)], rest', ids)
    else Err(DecodeError.MalformedPacket)
  }

  /** The loop over the properties of a subscribe. */
  method DecodeSubscribeProps(src: Bytes) returns (r: Result<(Option<NonZeroU32>, seq<UserProperty>), DecodeError>)
    ensures r == ParseSubscribe(None, [], src, true)
  {
    hide GetString, GetVarInt;
    var id: Option<NonZeroU32>, props: seq<UserProperty>, cur: Bytes := None, [], src;
    while cur != []
      invariant ParseSubscribe(None, [], src, true) == ParseSubscribe(id, props, cur, true)
      decreases |cur|
    {
      var prop, body := cur[0], cur[1..];
      if prop == SUB_ID {
        if id.Some? { return Err(DecodeError.MalformedPacket); }
        var v := GetVarInt(body);
        if v.Err? { return Err(v.error); }
        IdProgress(body);
        if !(0 < v.value.0 < U32) { return Err(DecodeError.MalformedPacket); }
        id, cur := Some(v.value.0), v.value.1;
      } else if prop == USER {
        var key := GetString(body);
        if key.Err? { return Err(key.error); }
        var val := GetString(key.value.1);
        if val.Err? { return Err(val.error); }
        props, cur := props + [(key.value.0, val.value.0)], val.value.1;
      } else {
        return Err(DecodeError.MalformedPacket);
      }
    }
    return Ok((id, props));
  }

  lemma IdProgress(src: Bytes)
    ensures GetVarInt(src).Ok? ==> |GetVarInt(src).value.1| < |src|
  {
    if GetVarInt(src).Ok? {
      VarIntConsumes(src, 0, 0);
    }
  }

  function GetOptions(b: byte): Result<SubscriptionOptions, DecodeError>
  {
    var qos :- QosFrom(b % 4);
    if b / 16 % 4 > 2 then Err(DecodeError.MalformedPacket)
    else Ok(SubscriptionOptions(qos, Bit(b, 4), Bit(b, 8), b / 16 % 4))
  }

  function GetFilters(acc: seq<(ByteString, SubscriptionOptions)>, src: Bytes)
    : Result<seq<(ByteString, SubscriptionOptions)>, DecodeError>
    decreases |src|
  {
    if src == [] then Ok(acc)
    else
      var (topic, rest) :- GetString(src);
      if rest == [] then Err(DecodeError.InvalidLength)
      else
        var options :- GetOptions(rest[0]);
        GetFilters(acc + [(topic, options)], rest[1..])
  }

  /** The loop over the topic filters of a subscribe. */
  method DecodeFilters(src: Bytes) returns (r: Result<seq<(ByteString, SubscriptionOptions)>, DecodeError>)
    ensures r == GetFilters([], src)
  {
    hide GetString, GetOptions;
    var fs: seq<(ByteString, SubscriptionOptions)>, cur: Bytes := [], src;
    while cur != []
      invariant GetFilters([], src) == GetFilters(fs, cur)
      decreases |cur|
    {
      var topic := GetString(cur);
      if topic.Err? { return Err(topic.error); }
      if topic.value.1 == [] { return Err(DecodeError.InvalidLength); }
      var options := GetOptions(topic.value.1[0]);
      if options.Err? { return Err(options.error); }
      fs, cur := fs + [(topic.value.0, options.value)], topic.value.1[1..];
    }
    return Ok(fs);
  }

  function DecodeSubscribe(src: Bytes): Result<Packet, DecodeError>
  {
    var (id, rest) :- GetNonZeroU16(src);
    var (props, rest) :- TakeProperties(rest);
    var (subId, userProperties) :- ParseSubscribe(None, [], props, true);
    var fs :- GetFilters([], rest);
    Ok(Subscribe(id, subId, userProperties, fs))
  }

  function DecodeUnsubscribe(src: Bytes): Result<Packet, DecodeError>
  {
    var (id, rest) :- GetNonZeroU16(src);
    var (props, rest) :- TakeProperties(rest);
    var (_, userProperties) :- ParseSubscribe(None, [], props, false);
    var fs :- GetNames([], rest);
    Ok(Unsubscribe(id, userProperties, fs))
  }

  /** The properties parsed so far; the UTF-8 flag may be given once, like the others. */
  datatype PublishAcc = PublishAcc(
    topicAlias: Option<NonZeroU16>,
    correlationData: Option<Bytes>,
    messageExpiry: Option<NonZeroU32>,
    contentType: Option<ByteString>,
    isUtf8Payload: Option<bool>,
    responseTopic: Option<ByteString>,
    subscriptionIds: seq<NonZeroU32>,
    userProperties: seq<UserProperty>)

  const NoProps: PublishAcc := PublishAcc(None, None, None, None, None, None, [], [])

  /** One property of a publish (`parse_publish_properties`, one round of the loop). */
  function PublishProperty(acc: PublishAcc, src: Bytes): (r: Decoded<PublishAcc>)
    requires src != []
    ensures r.Ok? ==> |r.value.1| < |src|
  {
    var id, body := src[0], src[1..];
    var twice := Err(DecodeError.MalformedPacket);
    if id == UTF8_PAYLOAD then
      if acc.isUtf8Payload.Some? then twice else
      var (v, rest) :- GetBool(body);
      Ok((acc.(isUtf8Payload := Some(v)), rest))
    else if id == MSG_EXPIRY_INT then
      if acc.messageExpiry.Some? then twice else
      var (v, rest) :- GetNonZeroU32(body);
      Ok((acc.(messageExpiry := Some(v)), rest))
    else if id == CONTENT_TYPE then
      if acc.contentType.Some? then twice else
      var (v, rest) :- GetString(body);
      Ok((acc.(contentType := Some(v)), rest))
    else if id == RESP_TOPIC then
      if acc.responseTopic.Some? then twice else
      var (v, rest) :- GetString(body);
      Ok((acc.(responseTopic := Some(v)), rest))
    else if id == CORR_DATA then
      if acc.correlationData.Some? then twice else
      var (v, rest) :- GetBytes(body);
      Ok((acc.(correlationData := Some(v)), rest))
    else if id == SUB_ID then
      var (v, rest) :- GetVarInt(body);
      VarIntConsumes(body, 0, 0);
      if 0 < v < U32 then Ok((acc.(subscriptionIds := acc.subscriptionIds + [v]), rest)) else twice
    else if id == TOPIC_ALIAS then
      if acc.topicAlias.Some? then twice else
      var (v, rest) :- GetNonZeroU16(body);
      Ok((acc.(topicAlias := Some(v)), rest))
    else if id == USER then
      var (key, rest) :- GetString(body);
      var (val, rest') :- GetString(rest);
      Ok((acc.(userProperties := acc.userProperties + [(key, val)]), rest'))
    else twice
  }

  function ParsePublish(acc: PublishAcc, src: Bytes): Result<PublishAcc, DecodeError>
    decreases |src|
  {
    if src == [] then Ok(acc)
    else
      var (acc', rest) :- PublishProperty(acc, src);
      ParsePublish(acc', rest)
  }

  /** The loop of `parse_publish_properties`. */
  method DecodePublishProps(src: Bytes) returns (r: Result<PublishAcc, DecodeError>)
    ensures r == ParsePublish(NoProps, src)
  {
    hide PublishProperty;
    var acc, cur: Bytes := NoProps, src;
    while cur != []
      invariant ParsePublish(NoProps, src) == ParsePublish(acc, cur)
      decreases |cur|
    {
      match PublishProperty(acc, cur) {
        case Err(e) => return Err(e);
        case Ok((acc', rest)) => acc, cur := acc', rest;
      }
    }
    return Ok(acc);
  }

  function Collected(a: PublishAcc): PublishProps
  {
    PublishProps(a.topicAlias, a.correlationData, a.messageExpiry, a.contentType,
                 a.isUtf8Payload.Some? && a.isUtf8Payload.value, a.responseTopic, a.subscriptionIds, a.userProperties)
  }

  function DecodePublish(src: Bytes, first: byte): Result<Packet, DecodeError>
  {
    var (topic, rest) :- GetString(src);
    var qos :- QosFrom(first / 2 % 4);
    var (pid, rest) :- GetPublishId(rest, qos);
    var (props, payload) :- TakeProperties(rest);
    var acc :- ParsePublish(NoProps, props);
    Ok(Publish(Bit(first, 8), Bit(first, 1), qos, pid, topic, payload, Collected(acc)))
  }

  function GetPublishId(src: Bytes, qos: QoS): Decoded<Option<NonZeroU16>>
  {
    if qos.AtMostOnce? then Ok((None, src))
    else
      var (id, rest) :- GetNonZeroU16(src);
      Ok((Some(id), rest))
  }

  /** `decode_packet`, for the packets of this model. */
  function DecodePacket(src: Bytes, first: byte): Result<Packet, DecodeError>
  {
    if PUBLISH_START <= first <= PUBLISH_END then DecodePublish(src, first)
    else if first == PUBACK then
      var (id, code, d) :- DecodeAck(src, IsAckCode);
      Ok(PublishAck(id, code, d))
    else if first == PUBREC then
      var (id, code, d) :- DecodeAck(src, IsAckCode);
      Ok(PublishReceived(id, code, d))
    else if first == PUBREL then
      var (id, code, d) :- DecodeAck(src, IsAck2Code);
      Ok(PublishRelease(id, code, d))
    else if first == PUBCOMP then
      var (id, code, d) :- DecodeAck(src, IsAck2Code);
      Ok(PublishComplete(id, code, d))
    else if first == SUBACK then
      var (id, d, status) :- DecodeStatusAck(src, IsSubCode);
      Ok(SubscribeAck(id, d, status))
    else if first == UNSUBACK then
      var (id, d, status) :- DecodeStatusAck(src, IsUnsubCode);
      Ok(UnsubscribeAck(id, d, status))
    else if first == DISCONNECT then DecodeDisconnect(src)
    else if first == SUBSCRIBE then DecodeSubscribe(src)
    else if first == UNSUBSCRIBE then DecodeUnsubscribe(src)
    else if first == PINGREQ then Ok(PingRequest)
    else if first == PINGRESP then Ok(PingResponse)
    else Err(UnsupportedPacketType)
  }
}
