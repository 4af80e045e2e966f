/** Round trips of the MQTT 3.1.1 codec, packet by packet and for whole streams. */
module V3RoundTrip {
  import opened Prelude
  import opened Wire
  import opened Types
  import opened V3Codec
  import Frame

  // ---------------------------------------------------------------- lists

  lemma {:induction false} FiltersRoundTrip(acc: seq<(ByteString, QoS)>, fs: seq<(ByteString, QoS)>)
    requires PutFilters(fs).outcome.Done?
    ensures |PutFilters(fs).bytes| == FiltersSize(fs)
    ensures GetFilters(acc, PutFilters(fs).bytes) == Ok(acc + fs)
    decreases |fs|
  {
    hide GetString, PutBytes;
    if fs == [] {
      assert acc + fs == acc;
    } else {
      var (topic, qos) := fs[0];
      var tail := PutFilters(fs[1..]).bytes;
      StringRoundTrip(topic, [QosByte(qos)] + tail);
      assert PutFilters(fs).bytes == PutBytes(topic).bytes + ([QosByte(qos)] + tail);
      assert ([QosByte(qos)] + tail)[1..] == tail;
      FiltersRoundTrip(acc + [fs[0]], fs[1..]);
      assert acc + [fs[0]] + fs[1..] == acc + fs;
    }
  }

  lemma {:induction false} StatusRoundTrip(acc: seq<SubscribeCode>, status: seq<SubscribeCode>)
    ensures GetStatus(acc, StatusBytes(status)) == Ok(acc + status)
    decreases |status|
  {
    if status == [] {
      assert acc + status == acc;
    } else {
      assert StatusBytes(status)[1..] == StatusBytes(status[1..]);
      StatusRoundTrip(acc + [status[0]], status[1..]);
      assert acc + [status[0]] + status[1..] == acc + status;
    }
  }

  // ---------------------------------------------------------------- CONNECT

  /** A byte put together from its flag fields shows those fields again. */
  lemma Fields(f: nat, u: nat, p: nat, r: nat, q: nat, w: nat, c: nat)
    requires u <= 1 && p <= 1 && r <= 1 && q <= 3 && w <= 1 && c <= 1
    requires f == u * 128 + p * 64 + r * 32 + q * 8 + w * 4 + c * 2
    ensures f / 1 % 2 == 0 && f / 2 % 2 == c && f / 4 % 2 == w && f / 8 % 4 == q
    ensures f / 32 % 2 == r && f / 64 % 2 == p && f / 128 % 2 == u
  {
    assert f / 2 == u * 64 + p * 32 + r * 16 + q * 4 + w * 2 + c;
    assert f / 4 == u * 32 + p * 16 + r * 8 + q * 2 + w;
    assert f / 8 == u * 16 + p * 8 + r * 4 + q;
    assert f / 32 == u * 4 + p * 2 + r;
    assert f / 64 == u * 2 + p;
    assert f / 128 == u;
  }

  lemma FlagBits(c: Connect)
    ensures var f := ConnectFlags(c);
      && !Bit(f, 1) && Bit(f, 2) == c.cleanSession && Bit(f, 4) == c.lastWill.Some?
      && Bit(f, 64) == c.password.Some? && Bit(f, 128) == c.username.Some?
      && (c.lastWill.Some? ==> Bit(f, 32) == c.lastWill.value.retain && QosFrom(f / 8 % 4) == Ok(c.lastWill.value.qos))
  {
    var will := c.lastWill.Some?;
    Fields(ConnectFlags(c), Flag(c.username.Some?), Flag(c.password.Some?),
           if will then Flag(c.lastWill.value.retain) else 0,
           if will then QosByte(c.lastWill.value.qos) else 0,
           Flag(will), Flag(c.cleanSession));
  }

  lemma OptRoundTrip(s: Option<Bytes>, rest: Bytes)
    requires PutOpt(s).outcome.Done?
    ensures |PutOpt(s).bytes| == OptSize(s)
    ensures GetOptBytes(PutOpt(s).bytes + rest, s.Some?) == Ok((s, rest))
  {
    hide GetBytes, PutBytes;
    if s.Some? {
      BytesRoundTrip(s.value, rest);
    } else {
      assert [] + rest == rest;
    }
  }

  lemma OptStringRoundTrip(s: Option<ByteString>, rest: Bytes)
    requires PutOpt(s).outcome.Done?
    ensures |PutOpt(s).bytes| == OptSize(s)
    ensures GetOptString(PutOpt(s).bytes + rest, s.Some?) == Ok((s, rest))
  {
    hide GetString, PutBytes;
    if s.Some? {
      StringRoundTrip(s.value, rest);
    } else {
      assert [] + rest == rest;
    }
  }

  lemma WillRoundTrip(w: Option<LastWill>, flags: byte, rest: Bytes)
    requires PutWill(w).outcome.Done?
    requires Bit(flags, 4) == w.Some?
    requires w.Some? ==> Bit(flags, 32) == w.value.retain && QosFrom(flags / 8 % 4) == Ok(w.value.qos)
    ensures |PutWill(w).bytes| == if w.Some? then 2 + |w.value.topic| + 2 + |w.value.message| else 0
    ensures GetWill(PutWill(w).bytes + rest, flags) == Ok((w, rest))
  {
    hide GetString, GetBytes, PutBytes, Bit, QosFrom;
    if w.Some? {
      var topic, message := w.value.topic, w.value.message;
      StringRoundTrip(topic, PutBytes(message).bytes + rest);
      BytesRoundTrip(message, rest);
      assert PutWill(w).bytes + rest == PutBytes(topic).bytes + (PutBytes(message).bytes + rest);
    } else {
      assert [] + rest == rest;
    }
  }

  /** The one CONNECT that does not survive: an empty client id without a clean session. */
  predicate Nameless(p: Packet)
  {
    p.ConnectPacket? && p.connect.clientId == [] && !p.connect.cleanSession
  }

  lemma ConnectRoundTrip(c: Connect)
    requires PutConnect(c).outcome.Done?
    ensures |PutConnect(c).bytes| == ConnectSize(c)
    ensures DecodeConnect(PutConnect(c).bytes)
         == if Nameless(ConnectPacket(c)) then Err(InvalidClientId) else Ok(ConnectPacket(c))
  {
    hide GetString, PutBytes, PutOpt, PutWill, GetWill, GetOptString, GetOptBytes, U16Bytes, GetU16, ConnectFlags,
         Bit, QosFrom;
    FlagBits(c);
    var flags := ConnectFlags(c);
    var head := [0, 4] + MQTT + [MQTT_LEVEL_3, flags];
    var pass := PutOpt(c.password).bytes;
    var user := PutOpt(c.username).bytes;
    var will := PutWill(c.lastWill).bytes;
    var id := PutBytes(c.clientId).bytes;
    OptRoundTrip(c.password, []);
    assert pass + [] == pass;
    OptStringRoundTrip(c.username, pass);
    WillRoundTrip(c.lastWill, flags, user + pass);
    StringRoundTrip(c.clientId, will + (user + pass));
    U16RoundTrip(c.keepAlive, id + (will + (user + pass)));
    var tail := U16Bytes(c.keepAlive) + (id + (will + (user + pass)));
    var src := PutConnect(c).bytes;
    assert src == head + tail;
    assert src[..6] == [0, 4] + MQTT && src[6] == MQTT_LEVEL_3 && src[7] == flags && src[8..] == tail;
  }

  // ---------------------------------------------------------------- every packet

  lemma PublishRoundTrip(m: Publish)
    requires PutPublish(m).outcome.Done?
    ensures |PutPublish(m).bytes| == ContentSize(PublishPacket(m))
    ensures DecodePublish(PutPublish(m).bytes, PublishByte(m.dup, m.qos, m.retain)) == Ok(PublishPacket(m))
  {
    hide GetString, PutBytes, U16Bytes, GetU16, PublishByte, Bit, QosFrom;
    PublishByteBits(m.dup, m.qos, m.retain);
    var id := if m.packetId.Some? then U16Bytes(m.packetId.value) else [];
    StringRoundTrip(m.topic, id + m.payload);
    assert PutPublish(m).bytes == PutBytes(m.topic).bytes + (id + m.payload);
    if m.packetId.Some? {
      U16RoundTrip(m.packetId.value, m.payload);
    } else {
      assert id + m.payload == m.payload;
    }
  }

  /** The body takes exactly the announced size, and decoding it gives the packet back. */
  lemma BodyRoundTrip(p: Packet)
    requires PutBody(p).outcome.Done?
    ensures |PutBody(p).bytes| == ContentSize(p)
    ensures DecodePacket(PutBody(p).bytes, FirstByte(p)) == if Nameless(p) then Err(InvalidClientId) else Ok(p)
  {
    hide U16Bytes, GetU16, DecodeConnect, DecodePublish, PutConnect, PutPublish, PublishByte, PutFilters,
         GetFilters, PutNames, GetNames, GetStatus;
    match p {
      case ConnectPacket(c) => ConnectRoundTrip(c);
      case ConnectAck(_, _) =>
      case PublishPacket(m) => PublishRoundTrip(m); PublishByteBits(m.dup, m.qos, m.retain);
      case Subscribe(id, fs) =>
        FiltersRoundTrip([], fs);
        IdRoundTrip(id, PutFilters(fs).bytes);
        assert [] + fs == fs;
      case SubscribeAck(id, status) =>
        StatusRoundTrip([], status);
        IdRoundTrip(id, StatusBytes(status));
        assert [] + status == status;
      case Unsubscribe(id, fs) =>
        NamesRoundTrip([], fs);
        IdRoundTrip(id, PutNames(fs).bytes);
        assert [] + fs == fs;
      case PingRequest =>
      case PingResponse =>
      case Disconnect =>
      case _ =>
        IdRoundTrip(p.packetId, []);
        assert U16Bytes(p.packetId) + [] == U16Bytes(p.packetId);
    }
  }

  lemma Written(p: Packet)
    requires Encode(p).outcome.Done?
    ensures PutVarInt(Announced(p)).outcome.Done? && PutBody(p).outcome.Done?
    ensures Encode(p).bytes == [FirstByte(p)] + (PutVarInt(Announced(p)).bytes + PutBody(p).bytes)
  {
    hide PutVarInt, PutBody, FirstByte, Announced;
  }

  lemma AnnouncedIs(p: Packet)
    ensures Announced(p) <= ContentSize(p)
    ensures Announced(p) == ContentSize(p) <==> ContentSize(p) < U32
  {
    hide ContentSize;
  }

  /**
   The frame announces exactly the bytes that follow, unless the content has 2^32 bytes or more: its
   size is then cut to 32 bits and the frame is longer than it says.
   */
  lemma FrameHonest(p: Packet)
    requires Encode(p).outcome.Done?
    ensures |Encode(p).bytes| == 1 + VarIntLen(Announced(p)) + ContentSize(p)
    ensures |Encode(p).bytes| == 1 + VarIntLen(Announced(p)) + Announced(p) <==> ContentSize(p) < U32
  {
    hide *;
    Written(p);
    AnnouncedIs(p);
    VarIntPanics(Announced(p));
    VarIntRoundTrip(Announced(p), []);
    BodyRoundTrip(p);
  }

  /**
   One encoded packet at the front of the buffer: the frame decoder gives it back with its size and
   leaves the rest, unless it exceeds the inbound limit or is the CONNECT the decoder refuses.
   */
  lemma PacketRoundTrip(p: Packet, max: nat, rest: Bytes)
    requires Encode(p).outcome.Done? && ContentSize(p) < U32
    ensures ContentSize(p) <= MaxVarInt
    ensures |Encode(p).bytes| == 1 + VarIntLen(ContentSize(p)) + ContentSize(p)
    ensures Frame.DecodeCall(DecodePacket, max, Frame.FrameHeader, Encode(p).bytes + rest) ==
      if max != 0 && max < ContentSize(p) then Frame.Error(MaxSizeExceeded)
      else if Nameless(p) then Frame.Error(InvalidClientId)
      else Frame.Item(p, ContentSize(p), Frame.FrameHeader, rest)
  {
    hide PutVarInt, GetVarInt, PutBody, ContentSize, DecodePacket, FirstByte, Announced, Encode, VarIntLen;
    var n, body := ContentSize(p), PutBody(p).bytes;
    Written(p);
    AnnouncedIs(p);
    VarIntPanics(n);
    BodyRoundTrip(p);
    VarIntRoundTrip(n, body + rest);
    var src := Encode(p).bytes + rest;
    assert src == [FirstByte(p)] + (PutVarInt(n).bytes + (body + rest));
    assert src[0] == FirstByte(p) && src[1..] == PutVarInt(n).bytes + (body + rest);
    assert (body + rest)[..n] == body && (body + rest)[n..] == rest;
  }

  // ---------------------------------------------------------------- when encoding succeeds

  /** Packets whose every field has a wire representation; only QoS 1 and 2 carry a packet id. */
  predicate Writable(p: Packet)
  {
    match p
    case ConnectPacket(c) =>
      && Short(c.clientId) && ShortOpt(c.username) && ShortOpt(c.password)
      && (c.lastWill.Some? ==> Short(c.lastWill.value.topic) && Short(c.lastWill.value.message))
    case PublishPacket(m) => Short(m.topic) && (m.packetId.None? <==> m.qos.AtMostOnce?)
    case Subscribe(_, fs) => forall i :: 0 <= i < |fs| ==> Short(fs[i].0)
    case Unsubscribe(_, fs) => forall i :: 0 <= i < |fs| ==> Short(fs[i])
    case _ => true
  }

  lemma {:induction false} FiltersDone(fs: seq<(ByteString, QoS)>)
    ensures PutFilters(fs).outcome.Done? <==> forall i :: 0 <= i < |fs| ==> Short(fs[i].0)
  {
    if fs != [] {
      FiltersDone(fs[1..]);
      assert fs == [fs[0]] + fs[1..];
    }
  }

  lemma ConnectDone(c: Connect)
    ensures PutConnect(c).outcome.Done? <==> Writable(ConnectPacket(c))
  {
    hide U16Bytes, ConnectFlags;
  }

  lemma BodyDone(p: Packet)
    ensures PutBody(p).outcome.Done? <==> Writable(p)
  {
    hide U16Bytes, PutConnect, PutFilters, PutNames, Short, StatusBytes;
    match p {
      case ConnectPacket(c) => ConnectDone(c);
      case Subscribe(_, fs) => FiltersDone(fs);
      case Unsubscribe(_, fs) => NamesDone(fs);
      case PublishPacket(m) => TopicDone(m.topic);
      case _ =>
    }
  }

  lemma TopicDone(s: Bytes)
    ensures PutBytes(s).outcome.Done? <==> Short(s)
  {
  }

  /** `encode` succeeds exactly when the announced length and every field can be written. */
  lemma EncodeSucceedsExactly(p: Packet)
    ensures Encode(p).outcome.Done? <==> Announced(p) <= MaxVarInt && Writable(p)
  {
    hide PutVarInt, PutBody, FirstByte, Announced, Short;
    VarIntPanics(Announced(p));
    BodyDone(p);
  }

  // ---------------------------------------------------------------- where it fails

  /** A QoS 0 publish with a payload of 2^32 bytes: its frame announces two bytes. */
  lemma OversizedFrame()
    ensures var p := PublishPacket(Publish(false, false, AtMostOnce, [], None, seq(U32, _ => 0)));
      && Encode(p).outcome.Done? && Announced(p) == 2
      && |Encode(p).bytes| > 1 + VarIntLen(Announced(p)) + Announced(p)
  {
    hide Encode;
    var p := PublishPacket(Publish(false, false, AtMostOnce, [], None, seq(U32, _ => 0)));
    assert ContentSize(p) == U32 + 2;
    EncodeSucceedsExactly(p);
    FrameHonest(p);
  }

  /** A CONNECT without a client id and without a clean session is encoded, and refused by the decoder. */
  lemma NamelessConnectRefused()
    ensures var p := ConnectPacket(Connect(false, 0, None, [], None, None));
      && Encode(p).outcome.Done? && DecodePacket(PutBody(p).bytes, FirstByte(p)) == Err(InvalidClientId)
  {
    hide Encode, DecodePacket, PutBody;
    var p := ConnectPacket(Connect(false, 0, None, [], None, None));
    assert ContentSize(p) == 12;
    EncodeSucceedsExactly(p);
    Written(p);
    BodyRoundTrip(p);
  }

  // ---------------------------------------------------------------- streams

  function EncodeAll(ps: seq<Packet>): Bytes { if ps == [] then [] else Encode(ps[0]).bytes + EncodeAll(ps[1..]) }

  function Sized(ps: seq<Packet>): seq<(Packet, nat)>
  {
    if ps == [] then [] else [(ps[0], ContentSize(ps[0]))] + Sized(ps[1..])
  }

  /** A packet the codec accepts and its peer's limit allows. */
  predicate Travels(p: Packet, max: nat)
  {
    Encode(p).outcome.Done? && ContentSize(p) < U32 && !Nameless(p) && (max == 0 || ContentSize(p) <= max)
  }

  lemma {:induction false} StreamDrains(ps: seq<Packet>, max: nat)
    requires forall i :: 0 <= i < |ps| ==> Travels(ps[i], max)
    ensures Frame.Drain(DecodePacket, max, Frame.FrameHeader, EncodeAll(ps))
      == Frame.Waiting(Sized(ps), Frame.FrameHeader, [])
    decreases |ps|
  {
    hide Encode, ContentSize, DecodePacket, Nameless;
    if ps != [] {
      assert Travels(ps[0], max);
      PacketRoundTrip(ps[0], max, EncodeAll(ps[1..]));
      Frame.DrainCons(DecodePacket, max, ps[0], ContentSize(ps[0]), Encode(ps[0]).bytes, EncodeAll(ps[1..]));
      StreamDrains(ps[1..], max);
    }
  }

  /**
   Any list of packets, encoded one after the other and cut into chunks at any points, is decoded to
   exactly those packets with their sizes, and nothing is left over.
   */
  lemma StreamRoundTrip(ps: seq<Packet>, max: nat, chunks: seq<Bytes>)
    requires forall i :: 0 <= i < |ps| ==> Travels(ps[i], max)
    requires Frame.Concat(chunks) == EncodeAll(ps)
    ensures Frame.Feed(DecodePacket, max, Frame.FrameHeader, [], chunks)
      == Frame.Waiting(Sized(ps), Frame.FrameHeader, [])
  {
    hide DecodePacket, Travels;
    StreamDrains(ps, max);
    Frame.ChunkingIrrelevant(DecodePacket, max, Frame.FrameHeader, [], chunks);
    assert [] + Frame.Concat(chunks) == EncodeAll(ps);
  }
}
