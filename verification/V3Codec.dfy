/**
 The MQTT 3.1.1 packets and their encoding (src/v3/codec): sizes, encoder, decoder, and the round
 trip of every packet and of whole streams.
 */
module V3Codec {
  import opened Prelude
  import opened Wire
  import opened Types

  datatype LastWill = LastWill(qos: QoS, retain: bool, topic: ByteString, message: Bytes)

  datatype Connect = Connect(
    cleanSession: bool,
    keepAlive: U16Value,
    lastWill: Option<LastWill>,
    clientId: ByteString,
    username: Option<ByteString>,
    password: Option<Bytes>)

  datatype Publish = Publish(
    dup: bool,
    retain: bool,
    qos: QoS,
    topic: ByteString,
    packetId: Option<NonZeroU16>,
    payload: Bytes)

  /** `ConnectAckReason` by value. */
  type ConnectCode = n: nat | n <= 6

  datatype SubscribeCode = Success(qos: QoS) | Failure

  datatype Packet =
    | ConnectPacket(connect: Connect)
    | ConnectAck(code: ConnectCode, sessionPresent: bool)
    | PublishPacket(publish: Publish)
    | PublishAck(packetId: NonZeroU16)
    | PublishReceived(packetId: NonZeroU16)
    | PublishRelease(packetId: NonZeroU16)
    | PublishComplete(packetId: NonZeroU16)
    | Subscribe(packetId: NonZeroU16, topicFilters: seq<(ByteString, QoS)>)
    | SubscribeAck(packetId: NonZeroU16, status: seq<SubscribeCode>)
    | Unsubscribe(packetId: NonZeroU16, filters: seq<ByteString>)
    | UnsubscribeAck(packetId: NonZeroU16)
    | PingRequest
    | PingResponse
    | Disconnect

  // ---------------------------------------------------------------- sizes (encode.rs:9-67)

  function FiltersSize(fs: seq<(ByteString, QoS)>): nat
  {
    if fs == [] then 0 else 2 + |fs[0].0| + 1 + FiltersSize(fs[1..])
  }

  function OptSize(s: Option<Bytes>): nat { if s.Some? then 2 + |s.value| else 0 }

  function ConnectSize(c: Connect): nat
  {
    2 + 4 + 1 + 1 + 2
    + (2 + |c.clientId|)
    + (if c.lastWill.Some? then 2 + |c.lastWill.value.topic| + 2 + |c.lastWill.value.message| else 0)
    + OptSize(c.username) + OptSize(c.password)
  }

  /** `get_encoded_size`. */
  function ContentSize(p: Packet): nat
  {
    match p
    case ConnectPacket(c) => ConnectSize(c)
    case PublishPacket(m) => (if m.qos.AtMostOnce? then 2 else 4) + |m.topic| + |m.payload|
    case Subscribe(_, fs) => 2 + FiltersSize(fs)
    case SubscribeAck(_, status) => 2 + |status|
    case Unsubscribe(_, fs) => 2 + NamesSize(fs)
    case PingRequest => 0
    case PingResponse => 0
    case Disconnect => 0
    case _ => 2
  }

  // ---------------------------------------------------------------- encoding (encode.rs:69-223)

  function FirstByte(p: Packet): byte
  {
    match p
    case ConnectPacket(_) => CONNECT
    case ConnectAck(_, _) => CONNACK
    case PublishPacket(m) => PublishByte(m.dup, m.qos, m.retain)
    case PublishAck(_) => PUBACK
    case PublishReceived(_) => PUBREC
    case PublishRelease(_) => PUBREL
    case PublishComplete(_) => PUBCOMP
    case Subscribe(_, _) => SUBSCRIBE
    case SubscribeAck(_, _) => SUBACK
    case Unsubscribe(_, _) => UNSUBSCRIBE
    case UnsubscribeAck(_) => UNSUBACK
    case PingRequest => PINGREQ
    case PingResponse => PINGRESP
    case Disconnect => DISCONNECT
  }

  function PutFilters(fs: seq<(ByteString, QoS)>): Put
  {
    if fs == [] then Write([]) else PutBytes(fs[0].0).Then(Write([QosByte(fs[0].1)])).Then(PutFilters(fs[1..]))
  }

  function StatusBytes(status: seq<SubscribeCode>): Bytes
  {
    seq(|status|, i requires 0 <= i < |status| => if status[i].Success? then QosByte(status[i].qos) else 0x80)
  }

  function PutOpt(s: Option<Bytes>): Put { if s.Some? then PutBytes(s.value) else Write([]) }

  /** `ConnectFlags`: user name, password, will retain, will QoS, will, clean start. */
  function ConnectFlags(c: Connect): byte
  {
    Flag(c.username.Some?) * 128 + Flag(c.password.Some?) * 64
    + (if c.lastWill.Some? then Flag(c.lastWill.value.retain) * 32 + QosByte(c.lastWill.value.qos) * 8 + 4 else 0)
    + Flag(c.cleanSession) * 2
  }

  const MQTT: Bytes := [77, 81, 84, 84]
  const MQTT_LEVEL_3: byte := 4

  function PutWill(w: Option<LastWill>): Put
  {
    if w.None? then Write([]) else PutBytes(w.value.topic).Then(PutBytes(w.value.message))
  }

  function PutConnect(c: Connect): Put
  {
    Write([0, 4] + MQTT + [MQTT_LEVEL_3, ConnectFlags(c)] + U16Bytes(c.keepAlive))
    .Then(PutBytes(c.clientId).Then(PutWill(c.lastWill).Then(PutOpt(c.username).Then(PutOpt(c.password)))))
  }

  function PutPublish(m: Publish): Put
  {
    PutBytes(m.topic)
    .Then(
      if m.qos.AtMostOnce? then
        if m.packetId.Some? then Fail(EncodeError.MalformedPacket) else Write([])
      else if m.packetId.None? then Fail(PacketIdRequired) else Write(U16Bytes(m.packetId.value)))
    .Then(Write(m.payload))
  }

  function PutBody(p: Packet): Put
  {
    match p
    case ConnectPacket(c) => PutConnect(c)
    case ConnectAck(code, present) => Write([Flag(present), code])
    case PublishPacket(m) => PutPublish(m)
    case PublishAck(id) => Write(U16Bytes(id))
    case PublishReceived(id) => Write(U16Bytes(id))
    case PublishRelease(id) => Write(U16Bytes(id))
    case PublishComplete(id) => Write(U16Bytes(id))
    case Subscribe(id, fs) => Write(U16Bytes(id)).Then(PutFilters(fs))
    case SubscribeAck(id, status) => Write(U16Bytes(id) + StatusBytes(status))
    case Unsubscribe(id, fs) => Write(U16Bytes(id)).Then(PutNames(fs))
    case UnsubscribeAck(id) => Write(U16Bytes(id))
    case _ => Write([])
  }

  /** The announced length is the content size cast to `u32`. */
  function Announced(p: Packet): nat { ContentSize(p) % U32 }

  /** `Encoder::encode`: an id-less QoS 1 or 2 publish is refused before anything is written. */
  function Encode(p: Packet): Put
  {
    if p.PublishPacket? && !p.publish.qos.AtMostOnce? && p.publish.packetId.None? then Fail(PacketIdRequired)
    else Write([FirstByte(p)]).Then(PutVarInt(Announced(p))).Then(PutBody(p))
  }

  // ---------------------------------------------------------------- decoding (decode.rs:12-164)

  function DecodeAck(src: Bytes, f: NonZeroU16 -> Packet): Result<Packet, DecodeError>
  {
    var (id, rest) :- GetNonZeroU16(src);
    if rest != [] then Err(DecodeError.InvalidLength) else Ok(f(id))
  }

  function GetWill(src: Bytes, flags: byte): Decoded<Option<LastWill>>
  {
    if !Bit(flags, 4) then Ok((None, src))
    else
      var (topic, rest) :- GetString(src);
      var (message, rest') :- GetBytes(rest);
      var qos :- QosFrom(flags / 8 % 4);
      Ok((Some(LastWill(qos, Bit(flags, 32), topic, message)), rest'))
  }

  function GetOptString(src: Bytes, present: bool): Decoded<Option<ByteString>>
  {
    if !present then Ok((None, src))
    else
      var (s, rest) :- GetString(src);
      Ok((Some(s), rest))
  }

  function GetOptBytes(src: Bytes, present: bool): Decoded<Option<Bytes>>
  {
    if !present then Ok((None, src))
    else
      var (s, rest) :- GetBytes(src);
      Ok((Some(s), rest))
  }

  function DecodeConnect(src: Bytes): Result<Packet, DecodeError>
  {
    if |src| < 10 then Err(DecodeError.InvalidLength)
    else if src[..6] != [0, 4] + MQTT then Err(InvalidProtocol)
    else if src[6] != MQTT_LEVEL_3 then Err(UnsupportedProtocolLevel)
    else if Bit(src[7], 1) then Err(ConnectReservedFlagSet)
    else
      var flags := src[7];
      var (keepAlive, rest) :- GetU16(src[8..]);
      var (clientId, rest) :- GetString(rest);
      if clientId == [] && !Bit(flags, 2) then Err(InvalidClientId)
      else
        var (will, rest) :- GetWill(rest, flags);
        var (username, rest) :- GetOptString(rest, Bit(flags, 128));
        var (password, _) :- GetOptBytes(rest, Bit(flags, 64));
        Ok(ConnectPacket(Connect(Bit(flags, 2), keepAlive, will, clientId, username, password)))
  }

  function DecodeConnectAck(src: Bytes): Result<Packet, DecodeError>
  {
    if |src| < 2 then Err(DecodeError.InvalidLength)
    else if src[0] > 1 then Err(ConnAckReservedFlagSet)
    else if src[1] > 6 then Err(DecodeError.MalformedPacket)
    else Ok(ConnectAck(src[1], src[0] == 1))
  }

  function DecodePublish(src: Bytes, first: byte): Result<Packet, DecodeError>
  {
    var (topic, rest) :- GetString(src);
    var qos :- QosFrom(first / 2 % 4);
    if qos.AtMostOnce? then Ok(PublishPacket(Publish(Bit(first, 8), Bit(first, 1), qos, topic, None, rest)))
    else
      var (id, payload) :- GetNonZeroU16(rest);
      Ok(PublishPacket(Publish(Bit(first, 8), Bit(first, 1), qos, topic, Some(id), payload)))
  }

  /** The filters still in `src`, after those in `acc`. */
  function GetFilters(acc: seq<(ByteString, QoS)>, src: Bytes): Result<seq<(ByteString, QoS)>, DecodeError>
    decreases |src|
  {
    if src == [] then Ok(acc)
    else
      var (topic, rest) :- GetString(src);
      if rest == [] then Err(DecodeError.InvalidLength)
      else
        var qos :- QosFrom(rest[0] % 4);
        GetFilters(acc + [(topic, qos)], rest[1..])
  }

  function GetStatus(acc: seq<SubscribeCode>, src: Bytes): Result<seq<SubscribeCode>, DecodeError>
    decreases |src|
  {
    if src == [] then Ok(acc)
    else if src[0] == 0x80 then GetStatus(acc + [Failure], src[1..])
    else
      var qos :- QosFrom(src[0]);
      GetStatus(acc + [Success(qos)], src[1..])
  }

  /** The loop of `decode_subscribe_packet`. */
  method DecodeFilters(src: Bytes) returns (r: Result<seq<(ByteString, QoS)>, DecodeError>)
    ensures r == GetFilters([], src)
  {
    var filters: seq<(ByteString, QoS)>, cur: Bytes := [], src;
    while cur != []
      invariant GetFilters([], src) == GetFilters(filters, cur)
      decreases |cur|
    {
      var topic := GetString(cur);
      if topic.Err? { return Err(topic.error); }
      cur := topic.value.1;
      if cur == [] { return Err(DecodeError.InvalidLength); }
      var qos := QosFrom(cur[0] % 4);
      if qos.Err? { return Err(qos.error); }
      cur := cur[1..];
      filters := filters + [(topic.value.0, qos.value)];
    }
    return Ok(filters);
  }

  /** The loop of `decode_unsubscribe_packet`. */
  method DecodeNames(src: Bytes) returns (r: Result<seq<ByteString>, DecodeError>)
    ensures r == GetNames([], src)
  {
    var filters: seq<ByteString>, cur: Bytes := [], src;
    while cur != []
      invariant GetNames([], src) == GetNames(filters, cur)
      decreases |cur|
    {
      var topic := GetString(cur);
      if topic.Err? { return Err(topic.error); }
      cur := topic.value.1;
      filters := filters + [topic.value.0];
    }
    return Ok(filters);
  }

  /** `decode_packet`. */
  function DecodePacket(src: Bytes, first: byte): Result<Packet, DecodeError>
  {
    if first == CONNECT then DecodeConnect(src)
    else if first == CONNACK then DecodeConnectAck(src)
    else if PUBLISH_START <= first <= PUBLISH_END then DecodePublish(src, first)
    else if first == PUBACK then DecodeAck(src, (id: NonZeroU16) => PublishAck(id))
    else if first == PUBREC then DecodeAck(src, (id: NonZeroU16) => PublishReceived(id))
    else if first == PUBREL then DecodeAck(src, (id: NonZeroU16) => PublishRelease(id))
    else if first == PUBCOMP then DecodeAck(src, (id: NonZeroU16) => PublishComplete(id))
    else if first == SUBSCRIBE then
      var (id, rest) :- GetNonZeroU16(src);
      var fs :- GetFilters([], rest);
      Ok(Subscribe(id, fs))
    else if first == SUBACK then
      var (id, rest) :- GetNonZeroU16(src);
      var status :- GetStatus([], rest);
      Ok(SubscribeAck(id, status))
    else if first == UNSUBSCRIBE then
      var (id, rest) :- GetNonZeroU16(src);
      var fs :- GetNames([], rest);
      Ok(Unsubscribe(id, fs))
    else if first == UNSUBACK then DecodeAck(src, (id: NonZeroU16) => UnsubscribeAck(id))
    else if first == PINGREQ then Ok(PingRequest)
    else if first == PINGRESP then Ok(PingResponse)
    else if first == DISCONNECT then Ok(Disconnect)
    else Err(UnsupportedPacketType)
  }
}
