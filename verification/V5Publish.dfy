/** Round trip of the MQTT 5 PUBLISH and of its property block (src/v5/codec/packet/publish.rs). */
module V5Publish {
  import opened Prelude
  import opened Wire
  import opened Types
  import opened V5Props
  import opened V5Codec
  import V5RoundTrip

  // ---------------------------------------------------------------- one property at a time

  lemma Step(acc: PublishAcc, src: Bytes, acc': PublishAcc, rest: Bytes)
    requires src != [] && PublishProperty(acc, src) == Ok((acc', rest))
    ensures ParsePublish(acc, src) == ParsePublish(acc', rest)
  {
    hide PublishProperty;
  }

  lemma AliasStep(acc: PublishAcc, v: Option<NonZeroU16>, rest: Bytes)
    requires acc.topicAlias.None?
    ensures |PutAlias(v).bytes| == if v.Some? then 3 else 0
    ensures ParsePublish(acc, PutAlias(v).bytes + rest) == ParsePublish(acc.(topicAlias := v), rest)
  {
    hide ParsePublish, U16Bytes, GetNonZeroU16, GetString, GetBytes, GetVarInt, GetNonZeroU32, GetBool;
    var src := PutAlias(v).bytes + rest;
    if v.Some? {
      IdRoundTrip(v.value, rest);
      assert src[1..] == U16Bytes(v.value) + rest;
      Step(acc, src, acc.(topicAlias := v), rest);
    } else {
      assert src == rest && acc.(topicAlias := v) == acc;
    }
  }

  lemma CorrelationStep(acc: PublishAcc, v: Option<Bytes>, rest: Bytes)
    requires acc.correlationData.None? && PutOptBytes(CORR_DATA, v).outcome.Done?
    ensures |PutOptBytes(CORR_DATA, v).bytes| == OptSize(v)
    ensures ParsePublish(acc, PutOptBytes(CORR_DATA, v).bytes + rest) == ParsePublish(acc.(correlationData := v), rest)
  {
    hide ParsePublish, PutOptBytes, GetNonZeroU16, GetString, GetBytes, GetVarInt, GetNonZeroU32, GetBool;
    V5RoundTrip.Absent(CORR_DATA);
    var src := PutOptBytes(CORR_DATA, v).bytes + rest;
    if v.Some? {
      V5RoundTrip.BytesPropRoundTrip(CORR_DATA, v.value, rest);
      Step(acc, src, acc.(correlationData := v), rest);
    } else {
      assert src == rest && acc.(correlationData := v) == acc;
    }
  }

  lemma ExpiryStep(acc: PublishAcc, v: Option<NonZeroU32>, rest: Bytes)
    requires acc.messageExpiry.None?
    ensures |PutOptU32(MSG_EXPIRY_INT, v).bytes| == if v.Some? then 5 else 0
    ensures ParsePublish(acc, PutOptU32(MSG_EXPIRY_INT, v).bytes + rest) == ParsePublish(acc.(messageExpiry := v), rest)
  {
    hide ParsePublish, PutOptU32, GetNonZeroU16, GetString, GetBytes, GetVarInt, GetU32, GetBool;
    V5RoundTrip.Absent(MSG_EXPIRY_INT);
    var src := PutOptU32(MSG_EXPIRY_INT, v).bytes + rest;
    if v.Some? {
      V5RoundTrip.U32PropRoundTrip(MSG_EXPIRY_INT, v.value, rest);
      Step(acc, src, acc.(messageExpiry := v), rest);
    } else {
      assert src == rest && acc.(messageExpiry := v) == acc;
    }
  }

  lemma ContentTypeStep(acc: PublishAcc, v: Option<ByteString>, rest: Bytes)
    requires acc.contentType.None? && PutOptBytes(CONTENT_TYPE, v).outcome.Done?
    ensures |PutOptBytes(CONTENT_TYPE, v).bytes| == OptSize(v)
    ensures ParsePublish(acc, PutOptBytes(CONTENT_TYPE, v).bytes + rest) == ParsePublish(acc.(contentType := v), rest)
  {
    hide ParsePublish, PutOptBytes, GetNonZeroU16, GetString, GetBytes, GetVarInt, GetNonZeroU32, GetBool;
    V5RoundTrip.Absent(CONTENT_TYPE);
    var src := PutOptBytes(CONTENT_TYPE, v).bytes + rest;
    if v.Some? {
      V5RoundTrip.StringPropRoundTrip(CONTENT_TYPE, v.value, rest);
      Step(acc, src, acc.(contentType := v), rest);
    } else {
      assert src == rest && acc.(contentType := v) == acc;
    }
  }

  lemma ResponseTopicStep(acc: PublishAcc, v: Option<ByteString>, rest: Bytes)
    requires acc.responseTopic.None? && PutOptBytes(RESP_TOPIC, v).outcome.Done?
    ensures |PutOptBytes(RESP_TOPIC, v).bytes| == OptSize(v)
    ensures ParsePublish(acc, PutOptBytes(RESP_TOPIC, v).bytes + rest) == ParsePublish(acc.(responseTopic := v), rest)
  {
    hide ParsePublish, PutOptBytes, GetNonZeroU16, GetString, GetBytes, GetVarInt, GetNonZeroU32, GetBool;
    V5RoundTrip.Absent(RESP_TOPIC);
    var src := PutOptBytes(RESP_TOPIC, v).bytes + rest;
    if v.Some? {
      V5RoundTrip.StringPropRoundTrip(RESP_TOPIC, v.value, rest);
      Step(acc, src, acc.(responseTopic := v), rest);
    } else {
      assert src == rest && acc.(responseTopic := v) == acc;
    }
  }

  lemma Utf8Step(acc: PublishAcc, b: bool, rest: Bytes)
    requires acc.isUtf8Payload.None?
    ensures ParsePublish(acc, PutUtf8(b).bytes + rest)
      == ParsePublish(acc.(isUtf8Payload := if b then Some(true) else None), rest)
  {
    hide ParsePublish, GetNonZeroU16, GetString, GetBytes, GetVarInt, GetNonZeroU32;
    var src := PutUtf8(b).bytes + rest;
    if b {
      assert src[1..] == [1] + rest && ([1] + rest)[1..] == rest;
      Step(acc, src, acc.(isUtf8Payload := Some(true)), rest);
    } else {
      assert src == rest && acc.(isUtf8Payload := None) == acc;
    }
  }

  lemma SubIdStep(acc: PublishAcc, id: NonZeroU32, rest: Bytes)
    requires PutVarInt(id).outcome.Done?
    ensures var one := Write([SUB_ID]).Then(PutVarInt(id));
      && |one.bytes| == 1 + VarIntLen(id)
      && ParsePublish(acc, one.bytes + rest) == ParsePublish(acc.(subscriptionIds := acc.subscriptionIds + [id]), rest)
  {
    hide ParsePublish, PutVarInt, GetNonZeroU16, GetString, GetBytes, GetVarInt, GetNonZeroU32, GetBool, VarIntLen;
    V5RoundTrip.SubIdRoundTrip(id, rest);
    var src := Write([SUB_ID]).Then(PutVarInt(id)).bytes + rest;
    Step(acc, src, acc.(subscriptionIds := acc.subscriptionIds + [id]), rest);
  }

  lemma {:induction false} SubIdsStep(acc: PublishAcc, ids: seq<NonZeroU32>, rest: Bytes)
    requires PutSubIds(ids).outcome.Done?
    ensures |PutSubIds(ids).bytes| == SubIdsSize(ids)
    ensures ParsePublish(acc, PutSubIds(ids).bytes + rest)
         == ParsePublish(acc.(subscriptionIds := acc.subscriptionIds + ids), rest)
    decreases |ids|
  {
    hide ParsePublish, PutVarInt, VarIntLen;
    if ids == [] {
      assert [] + rest == rest && acc.subscriptionIds + ids == acc.subscriptionIds;
    } else {
      var one, tail := Write([SUB_ID]).Then(PutVarInt(ids[0])), PutSubIds(ids[1..]);
      SubIdStep(acc, ids[0], tail.bytes + rest);
      SubIdsStep(acc.(subscriptionIds := acc.subscriptionIds + [ids[0]]), ids[1..], rest);
      assert one.bytes + tail.bytes + rest == one.bytes + (tail.bytes + rest);
      assert acc.subscriptionIds + [ids[0]] + ids[1..] == acc.subscriptionIds + ids;
    }
  }

  lemma UserPropStep(acc: PublishAcc, p: UserProperty, rest: Bytes)
    requires PutProp(p).outcome.Done?
    ensures |PutProp(p).bytes| == PropSize(p)
    ensures ParsePublish(acc, PutProp(p).bytes + rest)
      == ParsePublish(acc.(userProperties := acc.userProperties + [p]), rest)
  {
    hide ParsePublish, PutProp, GetNonZeroU16, GetString, GetBytes, GetVarInt, GetNonZeroU32, GetBool;
    PropRoundTrip(p, rest);
    Step(acc, PutProp(p).bytes + rest, acc.(userProperties := acc.userProperties + [p]), rest);
  }

  lemma {:induction false} UserPropsStep(acc: PublishAcc, ps: seq<UserProperty>)
    requires PutProps(ps).outcome.Done?
    ensures |PutProps(ps).bytes| == PropsSize(ps)
    ensures ParsePublish(acc, PutProps(ps).bytes) == Ok(acc.(userProperties := acc.userProperties + ps))
    decreases |ps|
  {
    hide PutProp, PropSize, PublishProperty;
    if ps == [] {
      assert acc.userProperties + ps == acc.userProperties;
    } else {
      UserPropStep(acc, ps[0], PutProps(ps[1..]).bytes);
      UserPropsStep(acc.(userProperties := acc.userProperties + [ps[0]]), ps[1..]);
      assert acc.userProperties + [ps[0]] + ps[1..] == acc.userProperties + ps;
    }
  }

  // ---------------------------------------------------------------- the property block

  lemma Parts(a: Put, t: Put)
    requires a.Then(t).outcome.Done?
    ensures a.outcome.Done? && t.outcome.Done? && a.Then(t).bytes == a.bytes + t.bytes
  {
  }

  /** The first half of the block: alias, correlation data, expiry and content type. */
  lemma FrontRoundTrip(q: PublishProps, tail: Put)
    requires PutFront(q, tail).outcome.Done?
    ensures tail.outcome.Done?
    ensures |PutFront(q, tail).bytes| == FrontSize(q) + |tail.bytes|
    ensures ParsePublish(NoProps, PutFront(q, tail).bytes) == ParsePublish(FrontAcc(q), tail.bytes)
  {
    hide ParsePublish, PutAlias, PutOptBytes, PutOptU32, OptSize, Put.Then;
    var d := PutOptBytes(CONTENT_TYPE, q.contentType);
    var c := PutOptU32(MSG_EXPIRY_INT, q.messageExpiry);
    var b := PutOptBytes(CORR_DATA, q.correlationData);
    var a := PutAlias(q.topicAlias);
    var t3 := d.Then(tail);
    var t2 := c.Then(t3);
    var t1 := b.Then(t2);
    Parts(a, t1);
    Parts(b, t2);
    Parts(c, t3);
    Parts(d, tail);
    AliasStep(NoProps, q.topicAlias, t1.bytes);
    var q1 := NoProps.(topicAlias := q.topicAlias);
    CorrelationStep(q1, q.correlationData, t2.bytes);
    var q2 := q1.(correlationData := q.correlationData);
    ExpiryStep(q2, q.messageExpiry, t3.bytes);
    ContentTypeStep(q2.(messageExpiry := q.messageExpiry), q.contentType, tail.bytes);
  }

  function PutFront(q: PublishProps, tail: Put): Put
  {
    PutAlias(q.topicAlias)
    .Then(PutOptBytes(CORR_DATA, q.correlationData)
    .Then(PutOptU32(MSG_EXPIRY_INT, q.messageExpiry)
    .Then(PutOptBytes(CONTENT_TYPE, q.contentType)
    .Then(tail))))
  }

  function FrontSize(q: PublishProps): nat
  {
    (if q.topicAlias.Some? then 3 else 0) + OptSize(q.correlationData) + (if q.messageExpiry.Some? then 5 else 0)
    + OptSize(q.contentType)
  }

  function FrontAcc(q: PublishProps): PublishAcc
  {
    PublishAcc(q.topicAlias, q.correlationData, q.messageExpiry, q.contentType, None, None, [], [])
  }

  function PutBack(q: PublishProps): Put
  {
    PutUtf8(q.isUtf8Payload)
    .Then(PutOptBytes(RESP_TOPIC, q.responseTopic)
    .Then(PutSubIds(q.subscriptionIds)
    .Then(PutProps(q.userProperties))))
  }

  function BackSize(q: PublishProps): nat
  {
    (if q.isUtf8Payload then 2 else 0) + OptSize(q.responseTopic) + SubIdsSize(q.subscriptionIds)
      + PropsSize(q.userProperties)
  }

  function AccOf(q: PublishProps): PublishAcc
  {
    PublishAcc(q.topicAlias, q.correlationData, q.messageExpiry, q.contentType,
               if q.isUtf8Payload then Some(true) else None,
               q.responseTopic, q.subscriptionIds, q.userProperties)
  }

  /** The second half: UTF-8 flag, response topic, subscription ids and user properties. */
  lemma BackRoundTrip(q: PublishProps)
    requires PutBack(q).outcome.Done?
    ensures |PutBack(q).bytes| == BackSize(q)
    ensures ParsePublish(FrontAcc(q), PutBack(q).bytes) == Ok(AccOf(q))
  {
    hide ParsePublish, PutOptBytes, PutSubIds, PutProps, OptSize, SubIdsSize, PropsSize, Put.Then;
    var h := PutProps(q.userProperties);
    var g := PutSubIds(q.subscriptionIds);
    var f := PutOptBytes(RESP_TOPIC, q.responseTopic);
    var e := PutUtf8(q.isUtf8Payload);
    var t3 := g.Then(h);
    var t2 := f.Then(t3);
    Parts(e, t2);
    Parts(f, t3);
    Parts(g, h);
    Utf8Step(FrontAcc(q), q.isUtf8Payload, t2.bytes);
    var q1 := FrontAcc(q).(isUtf8Payload := if q.isUtf8Payload then Some(true) else None);
    ResponseTopicStep(q1, q.responseTopic, t3.bytes);
    var q2 := q1.(responseTopic := q.responseTopic);
    SubIdsStep(q2, q.subscriptionIds, h.bytes);
    assert [] + q.subscriptionIds == q.subscriptionIds && [] + q.userProperties == q.userProperties;
    UserPropsStep(q2.(subscriptionIds := q.subscriptionIds), q.userProperties);
  }

  lemma BlockHalves(q: PublishProps)
    ensures PutPublishProps(q) == PutFront(q, PutBack(q))
    ensures PublishPropLen(q) == FrontSize(q) + BackSize(q)
    ensures Collected(AccOf(q)) == q
  {
    hide PutOptBytes, PutSubIds, PutProps, PutOptU32, U16Bytes, OptSize, SubIdsSize, PropsSize, Put.Then;
  }

  /** The property block takes the computed length and parses to the same properties. */
  lemma BlockRoundTrip(q: PublishProps)
    requires PutPublishProps(q).outcome.Done?
    ensures |PutPublishProps(q).bytes| == PublishPropLen(q)
    ensures ParsePublish(NoProps, PutPublishProps(q).bytes) == Ok(AccOf(q))
  {
    hide *;
    BlockHalves(q);
    FrontRoundTrip(q, PutBack(q));
    BackRoundTrip(q);
  }

  // ---------------------------------------------------------------- the packet

  lemma IdField(p: Packet, rest: Bytes)
    requires p.Publish? && PutPublishId(p).outcome.Done?
    ensures |PutPublishId(p).bytes| == if p.qos.AtMostOnce? then 0 else 2
    ensures GetPublishId(PutPublishId(p).bytes + rest, p.qos) == Ok((p.pid, rest))
  {
    hide U16Bytes, GetNonZeroU16;
    if p.qos.AtMostOnce? { assert [] + rest == rest; } else { IdRoundTrip(p.pid.value, rest); }
  }

  /** Topic and packet id, then the length recovered from the size, the properties and the payload. */
  lemma PublishWritten(p: Packet, n: nat)
    requires p.Publish? && n <= MaxVarInt
    requires VarIntLenFromSize(n + VarIntLen(n)) == n
    requires PutBytes(p.topic).outcome.Done? ==> |PutBytes(p.topic).bytes| == BytesSize(p.topic)
    requires PutPublishId(p).outcome.Done? ==> |PutPublishId(p).bytes| == if p.qos.AtMostOnce? then 0 else 2
    requires PutPublish(p, BytesSize(p.topic) + (if p.qos.AtMostOnce? then 0 else 2) + (n + VarIntLen(n))
      + |p.payload|).outcome.Done?
    ensures var size := BytesSize(p.topic) + (if p.qos.AtMostOnce? then 0 else 2) + (n + VarIntLen(n)) + |p.payload|;
      && PutBytes(p.topic).outcome.Done? && PutPublishId(p).outcome.Done? && PutPublishProps(p.props).outcome.Done?
      && PutPublish(p, size).bytes
         == PutBytes(p.topic).bytes + (PutPublishId(p).bytes
           + (PutVarInt(n).bytes + PutPublishProps(p.props).bytes + p.payload))
  {
    hide PutBytes, PutPublishId, PutPublishProps, PutVarInt, VarIntLen, VarIntLenFromSize;
    var head := PutBytes(p.topic).Then(PutPublishId(p));
    assert head.outcome.Done?;
  }

  lemma PublishSize(p: Packet, limit: U32Value)
    requires p.Publish?
    ensures var n := PublishPropLen(p.props);
      EncodedSize(p, limit) == BytesSize(p.topic) + (if p.qos.AtMostOnce? then 0 else 2) + (n + VarIntLen(n))
        + |p.payload|
  {
    hide PublishPropLen, VarIntLen;
  }

  lemma PublishIdSize(p: Packet)
    requires p.Publish?
    ensures PutPublishId(p).outcome.Done? ==> |PutPublishId(p).bytes| == if p.qos.AtMostOnce? then 0 else 2
  {
  }

  lemma PublishDecoded(p: Packet, block: Bytes)
    requires p.Publish? && PutBytes(p.topic).outcome.Done? && PutPublishId(p).outcome.Done?
    requires |block| <= MaxVarInt && ParsePublish(NoProps, block) == Ok(AccOf(p.props))
    ensures DecodePublish(PutBytes(p.topic).bytes + (PutPublishId(p).bytes
      + (PutVarInt(|block|).bytes + block + p.payload)),
                          PublishByte(p.dup, p.qos, p.retain)) == Ok(p)
  {
    hide PutBytes, PutPublishId, PutVarInt, ParsePublish, GetString, GetPublishId, TakeProperties, PublishByte, Bit,
         QosFrom,
         Collected, AccOf;
    var rest := PutVarInt(|block|).bytes + block + p.payload;
    PublishByteBits(p.dup, p.qos, p.retain);
    StringRoundTrip(p.topic, PutPublishId(p).bytes + rest);
    IdField(p, rest);
    TakeRoundTrip(|block|, block, p.payload);
    BlockHalves(p.props);
  }

  lemma PublishRoundTrip(p: Packet, limit: U32Value)
    requires p.Publish? && EncodedSize(p, limit) <= MaxVarInt && PutPublish(p, EncodedSize(p, limit)).outcome.Done?
    ensures |PutPublish(p, EncodedSize(p, limit)).bytes| == EncodedSize(p, limit)
    ensures DecodePublish(PutPublish(p, EncodedSize(p, limit)).bytes, PublishByte(p.dup, p.qos, p.retain)) == Ok(p)
  {
    hide *;
    var n := PublishPropLen(p.props);
    PublishSize(p, limit);
    FromSizeInverts(n);
    VarIntRoundTrip(n, []);
    StringRoundTrip(p.topic, []);
    PublishIdSize(p);
    PublishWritten(p, n);
    BlockRoundTrip(p.props);
    PublishDecoded(p, PutPublishProps(p.props).bytes);
  }
}
