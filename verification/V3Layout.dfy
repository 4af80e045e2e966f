/**
 MQTT 3.1.1 packets byte by byte (sections 2.2 and 3 of MQTT 3.1.1): what the encoder writes, and exactly
 which bytes the decoder reads as which packet.
 */
module V3Layout {
  import opened Prelude
  import opened Wire
  import opened Types
  import opened V3Codec
  import opened Layout
  import V3RoundTrip

  function Qos(q: QoS): byte
  {
    match q
    case AtMostOnce => 0
    case AtLeastOnce => 1
    case ExactlyOnce => 2
  }

  function One(b: bool, weight: byte): byte { if b then weight else 0 }

  function First(p: Packet): byte
  {
    match p
    case ConnectPacket(_) => 0x10
    case ConnectAck(_, _) => 0x20
    case PublishPacket(m) => 0x30 + One(m.dup, 8) + Qos(m.qos) * 2 + One(m.retain, 1)
    case PublishAck(_) => 0x40
    case PublishReceived(_) => 0x50
    case PublishRelease(_) => 0x62
    case PublishComplete(_) => 0x70
    case Subscribe(_, _) => 0x82
    case SubscribeAck(_, _) => 0x90
    case Unsubscribe(_, _) => 0xA2
    case UnsubscribeAck(_) => 0xB0
    case PingRequest => 0xC0
    case PingResponse => 0xD0
    case Disconnect => 0xE0
  }

  // ---------------------------------------------------------------- bodies

  /** Every string fits its length, and a packet id is there exactly for QoS 1 and 2. */
  predicate Fits(p: Packet)
  {
    match p
    case ConnectPacket(c) =>
      && |c.clientId| < 65_536 && (c.username.Some? ==> |c.username.value| < 65_536)
      && (c.password.Some? ==> |c.password.value| < 65_536)
      && (c.lastWill.Some? ==> |c.lastWill.value.topic| < 65_536 && |c.lastWill.value.message| < 65_536)
    case PublishPacket(m) => |m.topic| < 65_536 && (m.packetId.None? <==> m.qos.AtMostOnce?)
    case Subscribe(_, fs) => forall i :: 0 <= i < |fs| ==> |fs[i].0| < 65_536
    case Unsubscribe(_, fs) => forall i :: 0 <= i < |fs| ==> |fs[i]| < 65_536
    case _ => true
  }

  function Will(w: Option<LastWill>): Bytes
    requires w.Some? ==> |w.value.topic| < 65_536 && |w.value.message| < 65_536
  {
    if w.Some? then Str(w.value.topic) + Str(w.value.message) else []
  }

  function Flags(c: Connect): byte
  {
    One(c.username.Some?, 128) + One(c.password.Some?, 64)
    + (if c.lastWill.Some? then One(c.lastWill.value.retain, 32) + Qos(c.lastWill.value.qos) * 8 + 4 else 0)
    + One(c.cleanSession, 2)
  }

  function Filters(fs: seq<(ByteString, QoS)>): Bytes
    requires forall i :: 0 <= i < |fs| ==> |fs[i].0| < 65_536
  {
    if fs == [] then [] else Str(fs[0].0) + [Qos(fs[0].1)] + Filters(fs[1..])
  }

  function Names(fs: seq<ByteString>): Bytes
    requires forall i :: 0 <= i < |fs| ==> |fs[i]| < 65_536
  {
    if fs == [] then [] else Str(fs[0]) + Names(fs[1..])
  }

  function Codes(status: seq<SubscribeCode>): Bytes
  {
    if status == [] then []
    else [if status[0].Success? then Qos(status[0].qos) else 0x80] + Codes(status[1..])
  }

  /** Protocol name and level, flags, keep alive, client id, will, user name and password. */
  function ConnectBody(c: Connect): Bytes
    requires Fits(ConnectPacket(c))
  {
    [0, 4, 0x4D, 0x51, 0x54, 0x54, 4, Flags(c)] + Big16(c.keepAlive) + Str(c.clientId) + Will(c.lastWill)
    + OptStr(c.username) + OptStr(c.password)
  }

  function Body(p: Packet): Bytes
    requires Fits(p)
  {
    match p
    case ConnectPacket(c) => ConnectBody(c)
    case ConnectAck(code, present) => [One(present, 1), code]
    case PublishPacket(m) => Str(m.topic) + (if m.packetId.Some? then Big16(m.packetId.value) else []) + m.payload
    case Subscribe(id, fs) => Big16(id) + Filters(fs)
    case SubscribeAck(id, status) => Big16(id) + Codes(status)
    case Unsubscribe(id, fs) => Big16(id) + Names(fs)
    case PingRequest => []
    case PingResponse => []
    case Disconnect => []
    case _ => Big16(p.packetId)
  }

  // ---------------------------------------------------------------- writing

  lemma FirstIs(p: Packet)
    ensures FirstByte(p) == First(p)
  {
  }

  lemma {:induction false} FiltersWritten(fs: seq<(ByteString, QoS)>)
    requires forall i :: 0 <= i < |fs| ==> |fs[i].0| < 65_536
    ensures PutFilters(fs) == Put(Filters(fs), Done)
  {
    hide PutBytes;
    if fs != [] {
      StrLayout(fs[0].0);
      FiltersWritten(fs[1..]);
    }
  }

  lemma {:induction false} NamesWritten(fs: seq<ByteString>)
    requires forall i :: 0 <= i < |fs| ==> |fs[i]| < 65_536
    ensures PutNames(fs) == Put(Names(fs), Done)
  {
    hide PutBytes;
    if fs != [] {
      StrLayout(fs[0]);
      NamesWritten(fs[1..]);
    }
  }

  lemma {:induction false} CodesWritten(status: seq<SubscribeCode>)
    ensures StatusBytes(status) == Codes(status)
  {
    if status != [] {
      CodesWritten(status[1..]);
      assert StatusBytes(status) == [StatusBytes(status)[0]] + StatusBytes(status[1..]);
    }
  }

  lemma OptWritten(s: Option<Bytes>)
    requires s.Some? ==> |s.value| < 65_536
    ensures PutOpt(s) == Put(OptStr(s), Done)
  {
    hide PutBytes;
    if s.Some? { StrLayout(s.value); }
  }

  lemma WillWritten(w: Option<LastWill>)
    requires w.Some? ==> |w.value.topic| < 65_536 && |w.value.message| < 65_536
    ensures PutWill(w) == Put(Will(w), Done)
  {
    hide PutBytes;
    if w.Some? {
      StrLayout(w.value.topic);
      StrLayout(w.value.message);
    }
  }

  lemma ConnectWritten(c: Connect)
    requires Fits(ConnectPacket(c))
    ensures PutConnect(c) == Put(Body(ConnectPacket(c)), Done)
  {
    hide PutBytes, PutOpt, PutWill, U16Bytes, Str, OptStr, Will;
    StrLayout(c.clientId);
    WillWritten(c.lastWill);
    OptWritten(c.username);
    OptWritten(c.password);
    U16Layout(c.keepAlive);
    FlagsAre(c);
    var a, b, d, e, f := Big16(c.keepAlive), Str(c.clientId), Will(c.lastWill), OptStr(c.username), OptStr(c.password);
    var head := [0, 4, 0x4D, 0x51, 0x54, 0x54, 4, Flags(c)];
    assert head + a + (b + (d + (e + f))) == head + a + b + d + e + f;
  }

  lemma FlagsAre(c: Connect)
    ensures ConnectFlags(c) == Flags(c) && [0, 4] + MQTT + [MQTT_LEVEL_3, Flags(c)]
         == [0, 4, 0x4D, 0x51, 0x54, 0x54, 4, Flags(c)]
  {
  }

  lemma PublishWritten(m: Publish)
    requires Fits(PublishPacket(m))
    ensures PutPublish(m) == Put(Body(PublishPacket(m)), Done)
  {
    hide PutBytes, U16Bytes, Str;
    StrLayout(m.topic);
    if m.packetId.Some? { U16Layout(m.packetId.value); }
  }

  lemma BodyWritten(p: Packet)
    requires Fits(p)
    ensures PutBody(p) == Put(Body(p), Done)
  {
    hide U16Bytes, PutConnect, PutPublish, PutFilters, PutNames, StatusBytes, Filters, Names, Codes, Flags, Str,
         Will, OptStr;
    match p {
      case ConnectPacket(c) => ConnectWritten(c);
      case ConnectAck(_, _) =>
      case PublishPacket(m) => PublishWritten(m);
      case Subscribe(id, fs) => FiltersWritten(fs); U16Layout(id);
      case SubscribeAck(id, status) => CodesWritten(status); U16Layout(id);
      case Unsubscribe(id, fs) => NamesWritten(fs); U16Layout(id);
      case PingRequest =>
      case PingResponse =>
      case Disconnect =>
      case _ => U16Layout(p.packetId);
    }
  }

  /** What a successful encode puts on the wire, byte for byte. */
  lemma EncodeLayout(p: Packet)
    requires Encode(p).outcome.Done?
    ensures Fits(p) && Encode(p).bytes == [First(p)] + VarBytes(|Body(p)| % 4_294_967_296) + Body(p)
  {
    hide PutVarInt, PutBody, FirstByte, ContentSize, Encode, Body, First, VarBytes;
    V3RoundTrip.EncodeSucceedsExactly(p);
    WritableFits(p);
    V3RoundTrip.Written(p);
    BodyWritten(p);
    V3RoundTrip.BodyRoundTrip(p);
    VarLayout(Announced(p));
    FirstIs(p);
  }

  lemma WritableFits(p: Packet)
    requires V3RoundTrip.Writable(p)
    ensures Fits(p)
  {
  }
}
