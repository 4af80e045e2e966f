/** Exactly which bytes the MQTT 3.1.1 decoder reads as which packet. */
module V3Accepts {
  import opened Prelude
  import opened Wire
  import opened Types
  import opened V3Codec
  import opened Layout
  import opened V3Layout

  // ---------------------------------------------------------------- lists

  /** Topic filters, each followed by a byte whose two low bits are the QoS. */
  predicate ReadsFilters(src: Bytes, fs: seq<(ByteString, QoS)>)
  {
    if fs == [] then src == []
    else
      var n := |fs[0].0|;
      && n < 65_536 && n + 3 <= |src| && src[..n + 2] == Str(fs[0].0) && src[n + 2] % 4 == Qos(fs[0].1)
      && ReadsFilters(src[n + 3..], fs[1..])
  }

  predicate ReadsNames(src: Bytes, fs: seq<ByteString>)
  {
    if fs == [] then src == []
    else
      var n := |fs[0]|;
      n < 65_536 && n + 2 <= |src| && src[..n + 2] == Str(fs[0]) && ReadsNames(src[n + 2..], fs[1..])
  }

  /** One return code a byte: a QoS, or 0x80 for a failure. */
  predicate ReadsCodes(src: Bytes, status: seq<SubscribeCode>)
  {
    && |src| == |status|
    && forall i :: 0 <= i < |src| ==> src[i] == if status[i].Success? then Qos(status[i].qos) else 0x80
  }

  lemma QosIs(b: byte, q: QoS)
    ensures QosFrom(b) == Ok(q) <==> b == Qos(q)
  {
  }

  lemma StringAt(src: Bytes, s: ByteString, rest: Bytes)
    ensures GetString(src) == Ok((s, rest)) <==>
      |s| < 65_536 && |s| + 2 <= |src| && src[..|s| + 2] == Str(s) && src[|s| + 2..] == rest
  {
    hide GetString;
    GetStringIs(src, s, rest);
    if |s| + 2 <= |src| { assert src == src[..|s| + 2] + src[|s| + 2..]; }
  }

  lemma {:induction false} FiltersAccepted(acc: seq<(ByteString, QoS)>, src: Bytes)
    requires GetFilters(acc, src).Ok?
    ensures var r := GetFilters(acc, src).value; acc <= r && ReadsFilters(src, r[|acc|..])
    decreases |src|
  {
    hide GetString, QosFrom;
    if src != [] {
      var (topic, rest) := GetString(src).value;
      StringAt(src, topic, rest);
      var qos := QosFrom(rest[0] % 4).value;
      QosIs(rest[0] % 4, qos);
      var acc' := acc + [(topic, qos)];
      FiltersAccepted(acc', rest[1..]);
      var r := GetFilters(acc, src).value;
      assert r[|acc|..] == [(topic, qos)] + r[|acc'|..];
      assert src[|topic| + 3..] == rest[1..];
    }
  }

  lemma {:induction false} FiltersRead(acc: seq<(ByteString, QoS)>, src: Bytes, fs: seq<(ByteString, QoS)>)
    requires ReadsFilters(src, fs)
    ensures GetFilters(acc, src) == Ok(acc + fs)
    decreases |fs|
  {
    hide GetString, QosFrom;
    if fs == [] {
      assert acc + fs == acc;
    } else {
      var (topic, qos) := fs[0];
      var rest := src[|topic| + 2..];
      StringAt(src, topic, rest);
      QosIs(rest[0] % 4, qos);
      assert rest[1..] == src[|topic| + 3..];
      FiltersRead(acc + [fs[0]], rest[1..], fs[1..]);
      assert acc + [fs[0]] + fs[1..] == acc + fs;
    }
  }

  lemma {:induction false} NamesAccepted(acc: seq<ByteString>, src: Bytes)
    requires GetNames(acc, src).Ok?
    ensures var r := GetNames(acc, src).value; acc <= r && ReadsNames(src, r[|acc|..])
    decreases |src|
  {
    hide GetString;
    if src != [] {
      var (topic, rest) := GetString(src).value;
      StringAt(src, topic, rest);
      var acc' := acc + [topic];
      NamesAccepted(acc', rest);
      var r := GetNames(acc, src).value;
      assert r[|acc|..] == [topic] + r[|acc'|..];
    }
  }

  lemma {:induction false} NamesRead(acc: seq<ByteString>, src: Bytes, fs: seq<ByteString>)
    requires ReadsNames(src, fs)
    ensures GetNames(acc, src) == Ok(acc + fs)
    decreases |fs|
  {
    hide GetString;
    if fs == [] {
      assert acc + fs == acc;
    } else {
      StringAt(src, fs[0], src[|fs[0]| + 2..]);
      NamesRead(acc + [fs[0]], src[|fs[0]| + 2..], fs[1..]);
      assert acc + [fs[0]] + fs[1..] == acc + fs;
    }
  }

  lemma {:induction false} CodesAccepted(acc: seq<SubscribeCode>, src: Bytes)
    requires GetStatus(acc, src).Ok?
    ensures var r := GetStatus(acc, src).value; acc <= r && ReadsCodes(src, r[|acc|..])
    decreases |src|
  {
    hide QosFrom;
    if src != [] {
      var code := if src[0] == 0x80 then Failure else Success(QosFrom(src[0]).value);
      if code.Success? { QosIs(src[0], code.qos); }
      var acc' := acc + [code];
      CodesAccepted(acc', src[1..]);
      var r := GetStatus(acc, src).value;
      assert r[|acc|..] == [code] + r[|acc'|..];
    }
  }

  lemma {:induction false} CodesRead(acc: seq<SubscribeCode>, src: Bytes, status: seq<SubscribeCode>)
    requires ReadsCodes(src, status)
    ensures GetStatus(acc, src) == Ok(acc + status)
    decreases |src|
  {
    hide QosFrom;
    if src == [] {
      assert acc + status == acc;
    } else {
      if status[0].Success? { QosIs(src[0], status[0].qos); }
      CodesRead(acc + [status[0]], src[1..], status[1..]);
      assert acc + [status[0]] + status[1..] == acc + status;
    }
  }

  // ---------------------------------------------------------------- packets

  /** A packet id that is not zero, then `rest`. */
  predicate ReadsId(src: Bytes, id: NonZeroU16, rest: Bytes) { src == Big16(id) + rest }

  lemma IdIs(src: Bytes, id: NonZeroU16, rest: Bytes)
    ensures GetNonZeroU16(src) == Ok((id, rest)) <==> ReadsId(src, id, rest)
  {
    GetU16Is(src, id, rest);
  }

  /** A connect: everything the flags announce is there, in order; what follows is not looked at. */
  ghost predicate ReadsConnect(src: Bytes, c: Connect)
  {
    && |src| >= 10 && src[..7] == [0, 4, 0x4D, 0x51, 0x54, 0x54, 4]
    && (src[7] % 2 == 0 && (src[7] / 2 % 2 == 1 <==> c.cleanSession) && (src[7] / 4 % 2 == 1 <==> c.lastWill.Some?))
    && (src[7] / 64 % 2 == 1 <==> c.password.Some?) && (src[7] / 128 % 2 == 1 <==> c.username.Some?)
    && (c.lastWill.Some? ==>
          src[7] / 8 % 4 == Qos(c.lastWill.value.qos) && (src[7] / 32 % 2 == 1 <==> c.lastWill.value.retain))
    && (c.clientId != [] || c.cleanSession) && Fits(ConnectPacket(c))
    && exists tail: Bytes :: src[8..] ==
         Big16(c.keepAlive) + (Str(c.clientId) + (Will(c.lastWill)
           + (OptStr(c.username) + (OptStr(c.password) + tail))))
  }

  ghost predicate Reads(src: Bytes, first: byte, p: Packet)
  {
    match p
    case ConnectPacket(c) => first == 0x10 && ReadsConnect(src, c)
    case ConnectAck(code, present) => first == 0x20 && |src| >= 2 && src[0] == One(present, 1) && src[1] == code
    case PublishPacket(m) => first == First(p) && Fits(p) && src == Body(p)
    case PublishAck(id) => first == 0x40 && src == Big16(id)
    case PublishReceived(id) => first == 0x50 && src == Big16(id)
    case PublishRelease(id) => first == 0x62 && src == Big16(id)
    case PublishComplete(id) => first == 0x70 && src == Big16(id)
    case Subscribe(id, fs) => first == 0x82 && |src| >= 2 && src[..2] == Big16(id) && ReadsFilters(src[2..], fs)
    case SubscribeAck(id, status) =>
      first == 0x90 && |src| >= 2 && src[..2] == Big16(id) && ReadsCodes(src[2..], status)
    case Unsubscribe(id, fs) => first == 0xA2 && |src| >= 2 && src[..2] == Big16(id) && ReadsNames(src[2..], fs)
    case UnsubscribeAck(id) => first == 0xB0 && src == Big16(id)
    case PingRequest => first == 0xC0
    case PingResponse => first == 0xD0
    case Disconnect => first == 0xE0
  }

  lemma IdAt(src: Bytes, id: NonZeroU16, rest: Bytes)
    ensures GetNonZeroU16(src) == Ok((id, rest)) <==> |src| >= 2 && src[..2] == Big16(id) && src[2..] == rest
  {
    hide GetNonZeroU16;
    IdIs(src, id, rest);
    if |src| >= 2 { assert src == src[..2] + src[2..]; }
  }

  lemma AckIs(src: Bytes, id: NonZeroU16)
    ensures GetNonZeroU16(src) == Ok((id, [])) <==> src == Big16(id)
  {
    hide GetNonZeroU16;
    IdIs(src, id, []);
    assert Big16(id) + [] == Big16(id);
  }

  lemma SubscribeIs(src: Bytes, p: Packet)
    requires p.Subscribe?
    ensures DecodePacket(src, 0x82) == Ok(p) <==> Reads(src, 0x82, p)
  {
    hide GetNonZeroU16, GetFilters, ReadsFilters;
    if GetNonZeroU16(src).Ok? {
      var (id, rest) := GetNonZeroU16(src).value;
      IdAt(src, id, rest);
      if GetFilters([], rest).Ok? { FiltersAccepted([], rest); }
    }
    if Reads(src, 0x82, p) {
      IdAt(src, p.packetId, src[2..]);
      FiltersRead([], src[2..], p.topicFilters);
      assert [] + p.topicFilters == p.topicFilters;
    }
  }

  lemma SubscribeAckIs(src: Bytes, p: Packet)
    requires p.SubscribeAck?
    ensures DecodePacket(src, 0x90) == Ok(p) <==> Reads(src, 0x90, p)
  {
    hide GetNonZeroU16, GetStatus, ReadsCodes;
    if GetNonZeroU16(src).Ok? {
      var (id, rest) := GetNonZeroU16(src).value;
      IdAt(src, id, rest);
      if GetStatus([], rest).Ok? { CodesAccepted([], rest); }
    }
    if Reads(src, 0x90, p) {
      IdAt(src, p.packetId, src[2..]);
      CodesRead([], src[2..], p.status);
      assert [] + p.status == p.status;
    }
  }

  lemma UnsubscribeIs(src: Bytes, p: Packet)
    requires p.Unsubscribe?
    ensures DecodePacket(src, 0xA2) == Ok(p) <==> Reads(src, 0xA2, p)
  {
    hide GetNonZeroU16, GetNames, ReadsNames;
    if GetNonZeroU16(src).Ok? {
      var (id, rest) := GetNonZeroU16(src).value;
      IdAt(src, id, rest);
      if GetNames([], rest).Ok? { NamesAccepted([], rest); }
    }
    if Reads(src, 0xA2, p) {
      IdAt(src, p.packetId, src[2..]);
      NamesRead([], src[2..], p.filters);
      assert [] + p.filters == p.filters;
    }
  }

  lemma FirstBits(first: byte, m: Publish)
    requires 0x30 <= first <= 0x3F
    ensures Bit(first, 8) == m.dup && Bit(first, 1) == m.retain && QosFrom(first / 2 % 4) == Ok(m.qos)
      <==> first == First(PublishPacket(m))
  {
  }

  lemma PublishAccepted(src: Bytes, first: byte, p: Packet)
    requires p.PublishPacket? && DecodePublish(src, first) == Ok(p)
    ensures Fits(p) && src == Body(p)
    ensures Bit(first, 8) == p.publish.dup && Bit(first, 1) == p.publish.retain
    ensures QosFrom(first / 2 % 4) == Ok(p.publish.qos)
  {
    hide GetString, GetNonZeroU16, Bit, QosFrom, Str;
    var (topic, rest) := GetString(src).value;
    GetStringIs(src, topic, rest);
    var m := p.publish;
    if m.qos.AtMostOnce? {
      assert Body(p) == Str(topic) + [] + rest;
      assert Str(topic) + [] == Str(topic);
    } else {
      var (id, payload) := GetNonZeroU16(rest).value;
      IdIs(rest, id, payload);
      assert Body(p) == Str(topic) + Big16(id) + payload;
    }
  }

  lemma PublishRead(src: Bytes, first: byte, p: Packet)
    requires p.PublishPacket? && Fits(p) && src == Body(p)
    requires Bit(first, 8) == p.publish.dup && Bit(first, 1) == p.publish.retain
    requires QosFrom(first / 2 % 4) == Ok(p.publish.qos)
    ensures DecodePublish(src, first) == Ok(p)
  {
    hide GetString, GetNonZeroU16, Bit, QosFrom, Str;
    var m := p.publish;
    var id := if m.packetId.Some? then Big16(m.packetId.value) else [];
    assert src == Str(m.topic) + (id + m.payload);
    GetStringIs(src, m.topic, id + m.payload);
    if m.packetId.Some? {
      IdIs(id + m.payload, m.packetId.value, m.payload);
    } else {
      assert id + m.payload == m.payload;
    }
  }

  lemma PublishIs(src: Bytes, first: byte, p: Packet)
    requires p.PublishPacket? && 0x30 <= first <= 0x3F
    ensures DecodePublish(src, first) == Ok(p) <==> Reads(src, first, p)
  {
    hide DecodePublish, Fits, Body, First, Bit, QosFrom;
    FirstBits(first, p.publish);
    if DecodePublish(src, first) == Ok(p) { PublishAccepted(src, first, p); }
    if Reads(src, first, p) { PublishRead(src, first, p); }
  }

  lemma FirstRange(m: Publish)
    ensures 0x30 <= First(PublishPacket(m)) <= 0x3F
  {
  }

  // ---------------------------------------------------------------- CONNECT

  lemma OptIs(src: Bytes, present: bool, s: Option<Bytes>, rest: Bytes)
    ensures GetOptBytes(src, present) == Ok((s, rest)) <==>
      (present <==> s.Some?) && (s.Some? ==> |s.value| < 65_536 && src == Str(s.value) + rest)
        && (s.None? ==> src == rest)
  {
    hide GetBytes, Str;
    if s.Some? { GetBytesIs(src, s.value, rest); }
    if GetBytes(src).Ok? {
      var (t, left) := GetBytes(src).value;
      GetBytesIs(src, t, left);
    }
  }

  lemma OptStringIs(src: Bytes, present: bool, s: Option<ByteString>, rest: Bytes)
    ensures GetOptString(src, present) == Ok((s, rest)) <==>
      (present <==> s.Some?) && (s.Some? ==> |s.value| < 65_536 && src == Str(s.value) + rest)
        && (s.None? ==> src == rest)
  {
    hide GetString, Str;
    if s.Some? { GetStringIs(src, s.value, rest); }
    if GetString(src).Ok? {
      var (t, left) := GetString(src).value;
      GetStringIs(src, t, left);
    }
  }

  lemma WillIs(src: Bytes, flags: byte, w: Option<LastWill>, rest: Bytes)
    ensures GetWill(src, flags) == Ok((w, rest)) <==>
      && (Bit(flags, 4) <==> w.Some?)
      && (w.None? ==> src == rest)
      && (w.Some? ==>
            && |w.value.topic| < 65_536 && |w.value.message| < 65_536
            && src == Str(w.value.topic) + (Str(w.value.message) + rest)
            && Bit(flags, 32) == w.value.retain && QosFrom(flags / 8 % 4) == Ok(w.value.qos))
  {
    hide GetString, GetBytes, Str, Bit, QosFrom;
    if w.Some? && |w.value.message| < 65_536 {
      GetStringIs(src, w.value.topic, Str(w.value.message) + rest);
      GetBytesIs(Str(w.value.message) + rest, w.value.message, rest);
    }
    if GetString(src).Ok? {
      var (topic, rest1) := GetString(src).value;
      GetStringIs(src, topic, rest1);
      if GetBytes(rest1).Ok? {
        var (message, rest2) := GetBytes(rest1).value;
        GetBytesIs(rest1, message, rest2);
      }
    }
  }

  /** The eight bytes in front of a connect, apart from the flags that announce optional fields. */
  predicate Opening(src: Bytes)
  {
    |src| >= 10 && src[..7] == [0, 4, 0x4D, 0x51, 0x54, 0x54, 4] && src[7] % 2 == 0
  }

  lemma OpeningIs(src: Bytes)
    ensures Opening(src) <==>
      |src| >= 10 && src[..6] == [0, 4] + MQTT && src[6] == MQTT_LEVEL_3 && !Bit(src[7], 1)
  {
    if |src| >= 10 {
      assert src[..7] == src[..6] + [src[6]];
      assert [0, 4] + MQTT == [0, 4, 0x4D, 0x51, 0x54, 0x54];
    }
  }

  /** The flags announce exactly the optional fields of `c`. */
  predicate FlagsMatch(flags: byte, c: Connect)
  {
    && (Bit(flags, 2) <==> c.cleanSession) && (Bit(flags, 4) <==> c.lastWill.Some?)
    && (Bit(flags, 64) <==> c.password.Some?) && (Bit(flags, 128) <==> c.username.Some?)
    && (c.lastWill.Some? ==>
          Bit(flags, 32) == c.lastWill.value.retain && QosFrom(flags / 8 % 4) == Ok(c.lastWill.value.qos))
  }

  /** The fields of a connect, then `tail`. */
  function Fields(c: Connect, tail: Bytes): Bytes
    requires Fits(ConnectPacket(c))
  {
    Big16(c.keepAlive) + (Str(c.clientId) + (Will(c.lastWill) + (OptStr(c.username) + (OptStr(c.password) + tail))))
  }

  lemma ReadsConnectIs(src: Bytes, c: Connect)
    ensures ReadsConnect(src, c) <==>
      && Opening(src) && FlagsMatch(src[7], c) && (c.clientId != [] || c.cleanSession) && Fits(ConnectPacket(c))
      && exists tail :: src[8..] == Fields(c, tail)
  {
    hide Big16, Str, Will, OptStr, QosFrom;
    if |src| >= 10 && c.lastWill.Some? { QosIs(src[7] / 8 % 4, c.lastWill.value.qos); }
    if ReadsConnect(src, c) {
      var tail: Bytes :| src[8..] == Big16(c.keepAlive)
        + (Str(c.clientId) + (Will(c.lastWill) + (OptStr(c.username) + (OptStr(c.password) + tail))));
      assert src[8..] == Fields(c, tail);
    }
  }

  lemma ConnectAccepted(src: Bytes, c: Connect)
    requires DecodeConnect(src) == Ok(ConnectPacket(c))
    ensures ReadsConnect(src, c)
  {
    hide GetU16, GetString, GetWill, GetOptString, GetOptBytes, Big16, Str, Bit, QosFrom, ReadsConnect;
    OpeningIs(src);
    var flags := src[7];
    var (keepAlive, r1) := GetU16(src[8..]).value;
    GetU16Is(src[8..], keepAlive, r1);
    var (clientId, r2) := GetString(r1).value;
    GetStringIs(r1, clientId, r2);
    var (will, r3) := GetWill(r2, flags).value;
    WillIs(r2, flags, will, r3);
    var (username, r4) := GetOptString(r3, Bit(flags, 128)).value;
    OptStringIs(r3, Bit(flags, 128), username, r4);
    var (password, r5) := GetOptBytes(r4, Bit(flags, 64)).value;
    OptIs(r4, Bit(flags, 64), password, r5);
    assert r4 == OptStr(password) + r5 by { assert [] + r5 == r5; }
    assert r3 == OptStr(username) + r4 by { assert [] + r4 == r4; }
    assert r2 == Will(will) + r3 by {
      assert [] + r3 == r3;
      if will.Some? {
        var t, m := Str(will.value.topic), Str(will.value.message);
        assert t + (m + r3) == (t + m) + r3;
      }
    }
    assert src[8..] == Fields(c, r5);
    ReadsConnectIs(src, c);
  }

  lemma ConnectRead(src: Bytes, c: Connect)
    requires ReadsConnect(src, c)
    ensures DecodeConnect(src) == Ok(ConnectPacket(c))
  {
    hide GetU16, GetString, GetWill, GetOptString, GetOptBytes, Big16, Str, Bit, QosFrom, ReadsConnect;
    ReadsConnectIs(src, c);
    OpeningIs(src);
    var tail :| src[8..] == Fields(c, tail);
    var flags := src[7];
    var r4 := OptStr(c.password) + tail;
    var r3 := OptStr(c.username) + r4;
    var r2 := Will(c.lastWill) + r3;
    assert c.password.None? ==> r4 == tail by { assert [] + tail == tail; }
    assert c.username.None? ==> r3 == r4 by { assert [] + r4 == r4; }
    assert c.lastWill.None? ==> r2 == r3 by { assert [] + r3 == r3; }
    GetU16Is(src[8..], c.keepAlive, Str(c.clientId) + r2);
    GetStringIs(Str(c.clientId) + r2, c.clientId, r2);
    if c.lastWill.Some? {
      var t, m := Str(c.lastWill.value.topic), Str(c.lastWill.value.message);
      assert t + (m + r3) == (t + m) + r3;
    }
    WillIs(r2, flags, c.lastWill, r3);
    OptStringIs(r3, Bit(flags, 128), c.username, r4);
    OptIs(r4, Bit(flags, 64), c.password, tail);
  }

  // ---------------------------------------------------------------- every packet

  lemma AcksAre(src: Bytes, first: byte, p: Packet)
    requires p.PublishAck? || p.PublishReceived? || p.PublishRelease? || p.PublishComplete? || p.UnsubscribeAck?
    ensures DecodePacket(src, first) == Ok(p) <==> Reads(src, first, p)
  {
    hide DecodeConnect, DecodePublish, GetFilters, GetNames, GetStatus, GetNonZeroU16;
    ConnectKind(src);
    if 0x30 <= first <= 0x3F { PublishKind(src, first); }
    if GetNonZeroU16(src).Ok? {
      var (id, rest) := GetNonZeroU16(src).value;
      if rest == [] { AckIs(src, id); }
    }
    AckIs(src, p.packetId);
  }

  lemma OthersAre(src: Bytes, first: byte, p: Packet)
    requires p.ConnectPacket? || p.ConnectAck? || p.PublishPacket? || p.PingRequest? || p.PingResponse? || p.Disconnect?
    ensures DecodePacket(src, first) == Ok(p) <==> Reads(src, first, p)
  {
    hide DecodeConnect, DecodePublish, GetFilters, GetNames, GetStatus, GetNonZeroU16, ReadsConnect, First, Body, Fits;
    if p.ConnectPacket? {
      if first == 0x10 && DecodeConnect(src) == Ok(p) { ConnectAccepted(src, p.connect); }
      if ReadsConnect(src, p.connect) { ConnectRead(src, p.connect); }
      if 0x30 <= first <= 0x3F { PublishKind(src, first); }
    } else if p.PublishPacket? {
      FirstRange(p.publish);
      if 0x30 <= first <= 0x3F { PublishIs(src, first, p); }
      ConnectKind(src);
    } else {
      ConnectKind(src);
      if 0x30 <= first <= 0x3F { PublishKind(src, first); }
    }
  }

  lemma ConnectKind(src: Bytes)
    ensures DecodeConnect(src).Ok? ==> DecodeConnect(src).value.ConnectPacket?
  {
  }

  lemma PublishKind(src: Bytes, first: byte)
    ensures DecodePublish(src, first).Ok? ==> DecodePublish(src, first).value.PublishPacket?
  {
  }

  lemma ListsAre(src: Bytes, first: byte, p: Packet)
    requires p.Subscribe? || p.SubscribeAck? || p.Unsubscribe?
    ensures DecodePacket(src, first) == Ok(p) <==> Reads(src, first, p)
  {
    hide DecodeConnect, DecodePublish, GetFilters, GetNames, GetStatus, GetNonZeroU16, ReadsFilters, ReadsNames,
         ReadsCodes;
    ConnectKind(src);
    if 0x30 <= first <= 0x3F { PublishKind(src, first); }
    if p.Subscribe? && first == 0x82 { SubscribeIs(src, p); }
    if p.SubscribeAck? && first == 0x90 { SubscribeAckIs(src, p); }
    if p.Unsubscribe? && first == 0xA2 { UnsubscribeIs(src, p); }
  }

  /** The decoder yields a packet exactly when the first byte and the body read as that packet. */
  lemma DecodesExactly(src: Bytes, first: byte, p: Packet)
    ensures DecodePacket(src, first) == Ok(p) <==> Reads(src, first, p)
  {
    hide *;
    if p.Subscribe? || p.SubscribeAck? || p.Unsubscribe? {
      ListsAre(src, first, p);
    } else if p.PublishAck? || p.PublishReceived? || p.PublishRelease? || p.PublishComplete? || p.UnsubscribeAck? {
      AcksAre(src, first, p);
    } else {
      OthersAre(src, first, p);
    }
  }
}
