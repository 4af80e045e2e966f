/**
 Round trips and sizes of the MQTT 5 codec: what a successful encode wrote decodes to the packet with
 its diagnostics cut to the limit, and takes exactly the computed number of bytes.
 */
module V5RoundTrip {
  import opened Prelude
  import opened Wire
  import opened Types
  import opened V5Props
  import opened V5Codec

  /** Diagnostics never exceed the size they are part of. */
  lemma AckSizeBound(d: Diag, limit: nat)
    ensures DiagSize(AckCut(d, limit)) < AckPropsSize(d, limit)
  {
    NothingWritten();
  }

  // ---------------------------------------------------------------- acknowledgements

  lemma AckRoundTrip(id: NonZeroU16, code: byte, d: Diag, limit: nat, valid: byte -> bool)
    requires valid(code) && AckPropsSize(d, limit) <= MaxVarInt
    requires PutAck(id, code, d, 3 + AckPropsSize(d, limit)).outcome.Done?
    ensures |PutAck(id, code, d, 3 + AckPropsSize(d, limit)).bytes| == 3 + AckPropsSize(d, limit)
    ensures DecodeAck(PutAck(id, code, d, 3 + AckPropsSize(d, limit)).bytes, valid) == Ok((id, code, AckCut(d, limit)))
  {
    hide U16Bytes, GetNonZeroU16, GetAckProps, PutAckProps, AckPropsSize, AckCut, DiagSize;
    AckSizeBound(d, limit);
    AckPropsRoundTrip(d, limit, []);
    var props := PutAckProps(d, AckPropsSize(d, limit)).bytes;
    assert props + [] == props;
    var src := PutAck(id, code, d, 3 + AckPropsSize(d, limit)).bytes;
    assert src == U16Bytes(id) + ([code] + props);
    IdRoundTrip(id, [code] + props);
    assert ([code] + props)[1..] == props;
  }

  lemma StatusAckRoundTrip(id: NonZeroU16, d: Diag, status: Bytes, limit: nat, valid: byte -> bool)
    requires AllValid(status, valid) && AckPropsSize(d, limit) <= MaxVarInt
    requires PutStatusAck(id, d, status, 2 + |status| + AckPropsSize(d, limit)).outcome.Done?
    ensures |PutStatusAck(id, d, status, 2 + |status| + AckPropsSize(d, limit)).bytes|
      == 2 + |status| + AckPropsSize(d, limit)
    ensures DecodeStatusAck(PutStatusAck(id, d, status, 2 + |status| + AckPropsSize(d, limit)).bytes, valid)
         == Ok((id, AckCut(d, limit), status))
  {
    hide U16Bytes, GetNonZeroU16, GetAckProps, PutAckProps, AckPropsSize, AckCut, DiagSize;
    AckSizeBound(d, limit);
    AckPropsRoundTrip(d, limit, status);
    var props := PutAckProps(d, AckPropsSize(d, limit)).bytes;
    var src := PutStatusAck(id, d, status, 2 + |status| + AckPropsSize(d, limit)).bytes;
    assert src == U16Bytes(id) + (props + status);
    IdRoundTrip(id, props + status);
  }

  // ---------------------------------------------------------------- DISCONNECT

  lemma U32PropRoundTrip(id: byte, v: U32Value, rest: Bytes)
    ensures var src := PutOptU32(id, Some(v)).bytes + rest;
      src[0] == id && |PutOptU32(id, Some(v)).bytes| == 5 && GetU32(src[1..]) == Ok((v, rest))
  {
    hide U32Bytes, GetU32;
    U32RoundTrip(v, rest);
    var src := PutOptU32(id, Some(v)).bytes + rest;
    assert src[1..] == U32Bytes(v) + rest;
  }

  lemma BytesPropRoundTrip(id: byte, v: Bytes, rest: Bytes)
    requires PutOptBytes(id, Some(v)).outcome.Done?
    ensures var src := PutOptBytes(id, Some(v)).bytes + rest;
      src[0] == id && |PutOptBytes(id, Some(v)).bytes| == 1 + BytesSize(v) && GetBytes(src[1..]) == Ok((v, rest))
  {
    hide PutBytes, GetBytes;
    BytesRoundTrip(v, rest);
    var src := PutOptBytes(id, Some(v)).bytes + rest;
    assert src[1..] == PutBytes(v).bytes + rest;
  }

  lemma StringPropRoundTrip(id: byte, v: ByteString, rest: Bytes)
    requires PutOptBytes(id, Some(v)).outcome.Done?
    ensures var src := PutOptBytes(id, Some(v)).bytes + rest;
      src[0] == id && |PutOptBytes(id, Some(v)).bytes| == 1 + BytesSize(v) && GetString(src[1..]) == Ok((v, rest))
  {
    BytesPropRoundTrip(id, v, rest);
  }

  lemma EmptyDiagIs()
    ensures NoDiag == Diag([], None)
  {
  }

  lemma ExpiryRoundTrip(q: DisconnectProps, expiry: Option<U32Value>, rest: Bytes)
    requires q.expiry.None?
    ensures PutOptU32(SESS_EXPIRY_INT, expiry).outcome.Done?
    ensures |PutOptU32(SESS_EXPIRY_INT, expiry).bytes| == if expiry.Some? then 5 else 0
    ensures ParseDisconnect(q, PutOptU32(SESS_EXPIRY_INT, expiry).bytes + rest)
      == ParseDisconnect(q.(expiry := expiry), rest)
  {
    hide GetU32, GetString, PutOptU32;
    Absent(SESS_EXPIRY_INT);
    if expiry.Some? { U32PropRoundTrip(SESS_EXPIRY_INT, expiry.value, rest); } else { assert [] + rest == rest; }
  }

  lemma ReferenceRoundTrip(q: DisconnectProps, reference: Option<ByteString>, rest: Bytes)
    requires q.reference.None? && PutOptBytes(SERVER_REF, reference).outcome.Done?
    ensures |PutOptBytes(SERVER_REF, reference).bytes| == if reference.Some? then 1 + BytesSize(reference.value) else 0
    ensures ParseDisconnect(q, PutOptBytes(SERVER_REF, reference).bytes + rest)
      == ParseDisconnect(q.(reference := reference), rest)
  {
    hide GetU32, GetString, PutOptBytes;
    Absent(SERVER_REF);
    if reference.Some? { StringPropRoundTrip(SERVER_REF, reference.value, rest); } else { assert [] + rest == rest; }
  }

  lemma FixedRoundTrip(expiry: Option<U32Value>, reference: Option<ByteString>, rest: Bytes)
    requires PutFixed(expiry, reference).outcome.Done?
    ensures |PutFixed(expiry, reference).bytes| == FixedSize(expiry, reference)
    ensures ParseDisconnect(DisconnectProps(None, None, NoDiag), PutFixed(expiry, reference).bytes + rest)
         == ParseDisconnect(DisconnectProps(expiry, reference, NoDiag), rest)
  {
    hide ParseDisconnect, PutOptU32, PutOptBytes;
    var a, b := PutOptU32(SESS_EXPIRY_INT, expiry), PutOptBytes(SERVER_REF, reference);
    ExpiryRoundTrip(DisconnectProps(None, None, NoDiag), expiry, b.bytes + rest);
    ReferenceRoundTrip(DisconnectProps(expiry, None, NoDiag), reference, rest);
    assert PutFixed(expiry, reference).bytes + rest == a.bytes + (b.bytes + rest);
  }

  lemma Absent(id: byte)
    ensures PutOptU32(id, None) == Write([]) && PutOptBytes(id, None) == Write([])
    ensures forall v: nat :: v < U32 ==> PutOptU32(id, Some(v)).outcome.Done?
  {
  }

  lemma {:induction false} DisconnectDiag(q: DisconnectProps, d: Diag)
    requires PutDiag(d).outcome.Done? && q.diag.reason.None?
    ensures ParseDisconnect(q, PutDiag(d).bytes) == Ok(q.(diag := Diag(q.diag.props + d.props, d.reason)))
    decreases |d.props|
  {
    hide GetString, PutBytes, PutProp, PutReason, GetU32;
    if d.props == [] {
      ThenAssoc(PutReason(d.reason), Write([]), Write([]));
      ReasonRoundTrip(d.reason);
      NoReason(d.reason);
      assert q.diag.props + d.props == q.diag.props;
    } else {
      var p, d' := d.props[0], d.(props := d.props[1..]);
      ThenAssoc(PutProp(p), PutProps(d'.props), PutReason(d.reason));
      PropRoundTrip(p, PutDiag(d').bytes);
      var q' := q.(diag := q.diag.(props := q.diag.props + [p]));
      DisconnectDiag(q', d');
      assert q'.diag.props + d'.props == q.diag.props + d.props;
    }
  }

  lemma DisconnectSize(p: Packet, limit: U32Value)
    requires p.Disconnect?
    ensures var n := FixedSize(p.sessionExpiry, p.serverReference) + DiagSize(Kept(p, limit));
      EncodedSize(p, limit) == 1 + VarIntLen(n) + n
  {
  }

  /** The disconnect encoder, told the size, writes the fixed properties and exactly the kept diagnostics. */
  lemma DisconnectWritten(p: Packet, limit: U32Value)
    requires p.Disconnect? && EncodedSize(p, limit) <= MaxVarInt
    requires PutDisconnect(p, EncodedSize(p, limit)).outcome.Done?
    ensures var n := FixedSize(p.sessionExpiry, p.serverReference) + DiagSize(Kept(p, limit));
      && PutFixed(p.sessionExpiry, p.serverReference).outcome.Done? && PutDiag(Kept(p, limit)).outcome.Done?
      && PutVarInt(n).outcome.Done? && n <= MaxVarInt && EncodedSize(p, limit) == 1 + VarIntLen(n) + n
      && PutDisconnect(p, EncodedSize(p, limit)).bytes
         == [p.reasonCode] + (PutVarInt(n).bytes + (PutFixed(p.sessionExpiry, p.serverReference).bytes
           + PutDiag(Kept(p, limit)).bytes))
  {
    hide *;
    DisconnectTrimmed(p, limit);
    DisconnectSize(p, limit);
    var kept := Kept(p, limit);
    var n := FixedSize(p.sessionExpiry, p.serverReference) + DiagSize(kept);
    FromSizeInverts(n);
    VarIntRoundTrip(n, []);
    DisconnectHead(p, n);
    FixedRoundTrip(p.sessionExpiry, p.serverReference, []);
    KeptWritten(p, limit);
  }

  lemma KeptWritten(p: Packet, limit: U32Value)
    requires p.Disconnect?
    ensures PutOptProps(p.diag, DiagSize(Kept(p, limit))) == PutDiag(Kept(p, limit))
  {
    hide PutOptProps, PutDiag, DiagSize, Cut;
    SizeDeterminesCut(p.diag, DiagLimit(p, limit));
  }

  lemma DisconnectHead(p: Packet, n: nat)
    requires p.Disconnect? && n <= MaxVarInt
    requires VarIntLenFromSize(VarIntLen(n) + n) == n
    requires PutVarInt(n).outcome.Done? && |PutVarInt(n).bytes| == VarIntLen(n)
    requires var put := PutDisconnect(p, 1 + VarIntLen(n) + n); put.outcome.Done?
    ensures var put, fixed := PutDisconnect(p, 1 + VarIntLen(n) + n), PutFixed(p.sessionExpiry, p.serverReference);
      var diag := PutOptProps(p.diag, n - |fixed.bytes|);
      && fixed.outcome.Done? && diag.outcome.Done?
      && put.bytes == [p.reasonCode] + (PutVarInt(n).bytes + (fixed.bytes + diag.bytes))
  {
    hide PutFixed, PutVarInt, PutOptProps, VarIntLen, VarIntLenFromSize;
    var size := 1 + VarIntLen(n) + n;
    var head := Write([p.reasonCode]).Then(PutVarInt(n)).Then(PutFixed(p.sessionExpiry, p.serverReference));
    assert size - |head.bytes| == n - |PutFixed(p.sessionExpiry, p.serverReference).bytes|;
  }

  /** Fixed properties, then diagnostics. */
  lemma DisconnectProperties(expiry: Option<U32Value>, reference: Option<ByteString>, d: Diag)
    requires PutFixed(expiry, reference).outcome.Done? && PutDiag(d).outcome.Done?
    ensures var content := PutFixed(expiry, reference).bytes + PutDiag(d).bytes;
      && |content| == FixedSize(expiry, reference) + DiagSize(d)
      && ParseDisconnect(DisconnectProps(None, None, NoDiag), content) == Ok(DisconnectProps(expiry, reference, d))
  {
    hide *;
    FixedRoundTrip(expiry, reference, PutDiag(d).bytes);
    DiagRoundTrip([], d);
    assert NoDiag == Diag([], None) by { EmptyDiagIs(); }
    DisconnectDiag(DisconnectProps(expiry, reference, NoDiag), d);
    assert [] + d.props == d.props;
  }

  lemma DisconnectRoundTrip(p: Packet, limit: U32Value)
    requires p.Disconnect? && EncodedSize(p, limit) <= MaxVarInt
    requires PutDisconnect(p, EncodedSize(p, limit)).outcome.Done?
    ensures |PutDisconnect(p, EncodedSize(p, limit)).bytes| == EncodedSize(p, limit)
    ensures DecodeDisconnect(PutDisconnect(p, EncodedSize(p, limit)).bytes) == Ok(Trimmed(p, limit))
  {
    hide *;
    DisconnectTrimmed(p, limit);
    var kept := Kept(p, limit);
    DisconnectWritten(p, limit);
    DisconnectProperties(p.sessionExpiry, p.serverReference, kept);
    var content := PutFixed(p.sessionExpiry, p.serverReference).bytes + PutDiag(kept).bytes;
    DisconnectFrame(p.reasonCode, content, p.sessionExpiry, p.serverReference, kept);
    TakeRoundTrip(|content|, content, []);
  }

  lemma DisconnectTrimmed(p: Packet, limit: U32Value)
    requires p.Disconnect?
    ensures HasDiag(p)
    ensures Trimmed(p, limit) == Disconnect(p.reasonCode, p.sessionExpiry, p.serverReference, Kept(p, limit))
  {
    hide Kept;
  }

  /** A reason code and length-prefixed properties. */
  lemma DisconnectFrame(code: DisconnectCode, content: Bytes, expiry: Option<U32Value>,
      reference: Option<ByteString>, d: Diag)
    requires |content| <= MaxVarInt
    requires ParseDisconnect(DisconnectProps(None, None, NoDiag), content) == Ok(DisconnectProps(expiry, reference, d))
    ensures DecodeDisconnect([code] + (PutVarInt(|content|).bytes + content))
      == Ok(Disconnect(code, expiry, reference, d))
  {
    hide PutVarInt, VarIntLen, ParseDisconnect, TakeProperties, IsDisconnectCode;
    var n := |content|;
    TakeRoundTrip(n, content, []);
    LengthPositive(n);
    var src := [code] + (PutVarInt(n).bytes + content);
    assert src[1..] == PutVarInt(n).bytes + content + [];
  }

  lemma LengthPositive(n: nat)
    ensures PutVarInt(n).outcome.Done? ==> PutVarInt(n).bytes != []
  {
  }

  // ---------------------------------------------------------------- SUBSCRIBE and UNSUBSCRIBE

  lemma OptionsRoundTrip(o: SubscriptionOptions)
    ensures GetOptions(OptionsByte(o)) == Ok(o)
  {
    var q, l, r, h := QosByte(o.qos), Flag(o.noLocal), Flag(o.retainAsPublished), o.retainHandling;
    OptionFields(OptionsByte(o), q, l, r, h);
  }

  lemma OptionFields(b: nat, q: nat, l: nat, r: nat, h: nat)
    requires q <= 2 && l <= 1 && r <= 1 && h <= 2 && b == q + l * 4 + r * 8 + h * 16
    ensures b % 4 == q && b / 4 % 2 == l && b / 8 % 2 == r && b / 16 % 4 == h
  {
    assert b / 4 == l + r * 2 + h * 4;
    assert b / 8 == r + h * 2;
    assert b / 16 == h;
  }

  lemma {:induction false} FiltersRoundTrip(acc: seq<(ByteString, SubscriptionOptions)>,
      fs: seq<(ByteString, SubscriptionOptions)>)
    requires PutFilters(fs).outcome.Done?
    ensures |PutFilters(fs).bytes| == FiltersSize(fs)
    ensures GetFilters(acc, PutFilters(fs).bytes) == Ok(acc + fs)
    decreases |fs|
  {
    hide GetString, PutBytes, GetOptions, OptionsByte;
    if fs == [] {
      assert acc + fs == acc;
    } else {
      var (topic, options) := fs[0];
      var tail := PutFilters(fs[1..]).bytes;
      StringRoundTrip(topic, [OptionsByte(options)] + tail);
      OptionsRoundTrip(options);
      assert ([OptionsByte(options)] + tail)[1..] == tail;
      FiltersRoundTrip(acc + [fs[0]], fs[1..]);
      assert acc + [fs[0]] + fs[1..] == acc + fs;
    }
  }

  lemma {:induction false} UserPropsRoundTrip(id: Option<NonZeroU32>, acc: seq<UserProperty>, ps: seq<UserProperty>,
      ids: bool)
    requires PutProps(ps).outcome.Done?
    ensures |PutProps(ps).bytes| == PropsSize(ps)
    ensures ParseSubscribe(id, acc, PutProps(ps).bytes, ids) == Ok((id, acc + ps))
    decreases |ps|
  {
    hide GetString, PutProp, GetVarInt;
    if ps == [] {
      assert acc + ps == acc;
    } else {
      PropRoundTrip(ps[0], PutProps(ps[1..]).bytes);
      UserPropsRoundTrip(id, acc + [ps[0]], ps[1..], ids);
      assert acc + [ps[0]] + ps[1..] == acc + ps;
    }
  }

  /** One subscription identifier at the front. */
  lemma SubIdRoundTrip(id: NonZeroU32, rest: Bytes)
    requires PutVarInt(id).outcome.Done?
    ensures var src := Write([SUB_ID]).Then(PutVarInt(id)).bytes + rest;
      && src[0] == SUB_ID && GetVarInt(src[1..]) == Ok((id, rest))
      && |Write([SUB_ID]).Then(PutVarInt(id)).bytes| == 1 + VarIntLen(id)
  {
    VarIntPanics(id);
    VarIntRoundTripHere(id, rest);
  }

  lemma VarIntRoundTripHere(id: NonZeroU32, rest: Bytes)
    requires id <= MaxVarInt
    ensures var src := Write([SUB_ID]).Then(PutVarInt(id)).bytes + rest;
      && src[0] == SUB_ID && GetVarInt(src[1..]) == Ok((id, rest))
      && |Write([SUB_ID]).Then(PutVarInt(id)).bytes| == 1 + VarIntLen(id)
  {
    hide PutVarInt, GetVarInt, VarIntLen;
    VarIntRoundTrip(id, rest);
    var src := Write([SUB_ID]).Then(PutVarInt(id)).bytes + rest;
    assert src[1..] == PutVarInt(id).bytes + rest;
  }

  lemma SubscribePropsRoundTrip(id: Option<NonZeroU32>, ps: seq<UserProperty>)
    requires PutSubIds(OptToSeq(id)).Then(PutProps(ps)).outcome.Done?
    ensures |PutSubIds(OptToSeq(id)).Then(PutProps(ps)).bytes| == SubIdSize(id) + PropsSize(ps)
    ensures ParseSubscribe(None, [], PutSubIds(OptToSeq(id)).Then(PutProps(ps)).bytes, true) == Ok((id, ps))
  {
    hide PutVarInt, GetVarInt, PutProps, GetString, PropsSize, VarIntLen;
    var props := PutProps(ps).bytes;
    UserPropsRoundTrip(id, [], ps, true);
    assert [] + ps == ps && [] + props == props;
    if id.Some? {
      var one := Write([SUB_ID]).Then(PutVarInt(id.value));
      assert PutSubIds([id.value]) == one.Then(Write([]));
      ThenAssoc(one, Write([]), Write([]));
      SubIdRoundTrip(id.value, props);
    }
  }

  lemma SubscribeRoundTrip(p: Packet, limit: U32Value)
    requires p.Subscribe? && EncodedSize(p, limit) <= MaxVarInt && PutSubscribe(p).outcome.Done?
    ensures |PutSubscribe(p).bytes| == EncodedSize(p, limit)
    ensures DecodeSubscribe(PutSubscribe(p).bytes) == Ok(p)
  {
    hide U16Bytes, GetNonZeroU16, PutVarInt, PutSubIds, PutProps, PutFilters, TakeProperties, ParseSubscribe,
         GetFilters,
         SubIdSize, PropsSize, FiltersSize, VarIntLen;
    var content, fs := PutSubIds(OptToSeq(p.id)).Then(PutProps(p.userProperties)), PutFilters(p.topicFilters);
    var n := SubIdSize(p.id) + PropsSize(p.userProperties);
    SubscribePropsRoundTrip(p.id, p.userProperties);
    FiltersRoundTrip([], p.topicFilters);
    assert [] + p.topicFilters == p.topicFilters;
    TakeRoundTrip(n, content.bytes, fs.bytes);
    var rest := PutVarInt(n).bytes + content.bytes + fs.bytes;
    IdRoundTrip(p.packetId, rest);
    assert PutSubscribe(p).bytes == U16Bytes(p.packetId) + rest;
  }

  lemma UnsubscribeRoundTrip(p: Packet, limit: U32Value)
    requires p.Unsubscribe? && EncodedSize(p, limit) <= MaxVarInt && PutUnsubscribe(p).outcome.Done?
    ensures |PutUnsubscribe(p).bytes| == EncodedSize(p, limit)
    ensures DecodeUnsubscribe(PutUnsubscribe(p).bytes) == Ok(p)
  {
    hide U16Bytes, GetNonZeroU16, PutVarInt, PutProps, PutNames, TakeProperties, ParseSubscribe, GetNames,
         PropsSize, NamesSize, VarIntLen;
    var content, fs := PutProps(p.userProperties), PutNames(p.filters);
    var n := PropsSize(p.userProperties);
    UserPropsRoundTrip(None, [], p.userProperties, false);
    NamesRoundTrip([], p.filters);
    assert [] + p.filters == p.filters && [] + p.userProperties == p.userProperties;
    TakeRoundTrip(n, content.bytes, fs.bytes);
    var rest := PutVarInt(n).bytes + content.bytes + fs.bytes;
    IdRoundTrip(p.packetId, rest);
    assert PutUnsubscribe(p).bytes == U16Bytes(p.packetId) + rest;
  }
}
