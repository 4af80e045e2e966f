/**
 When the MQTT 5 encoder succeeds, and what the outbound limit does to a packet's diagnostics
 (src/v5/codec/codec.rs:176-219 and the `encoded_size` functions under src/v5/codec/packet).
 */
module V5Limit {
  import opened Prelude
  import opened Wire
  import opened Types
  import opened V5Props
  import opened V5Codec
  import opened V5RoundTrip
  import V5Publish
  import opened V5Stream
  import Frame

  // ---------------------------------------------------------------- what can be written at all

  predicate ShortProps(ps: seq<UserProperty>)
  {
    forall i :: 0 <= i < |ps| ==> Short(ps[i].0) && Short(ps[i].1)
  }

  predicate ShortDiag(d: Diag) { ShortProps(d.props) && ShortOpt(d.reason) }

  predicate SmallIds(ids: seq<NonZeroU32>) { forall i :: 0 <= i < |ids| ==> ids[i] <= MaxVarInt }

  /** Packets whose every field has a wire representation; only QoS 1 and 2 carry a packet id. */
  predicate Writable(p: Packet)
  {
    match p
    case Subscribe(_, id, props, fs) =>
      && SmallIds(OptToSeq(id)) && ShortProps(props)
      && (forall i :: 0 <= i < |fs| ==> Short(fs[i].0))
    case Unsubscribe(_, props, fs) => ShortProps(props) && (forall i :: 0 <= i < |fs| ==> Short(fs[i]))
    case Publish(_, _, qos, pid, topic, _, q) =>
      && Short(topic) && (pid.None? <==> qos.AtMostOnce?) && ShortOpt(q.correlationData) && ShortOpt(q.contentType)
      && ShortOpt(q.responseTopic) && SmallIds(q.subscriptionIds) && ShortProps(q.userProperties)
    case Disconnect(_, _, reference, d) => ShortOpt(reference) && ShortDiag(d)
    case PingRequest => true
    case PingResponse => true
    case _ => ShortDiag(p.diag)
  }

  lemma PropDone(p: UserProperty)
    ensures PutProp(p).outcome.Done? <==> Short(p.0) && Short(p.1)
  {
  }

  lemma {:induction false} PropsDone(ps: seq<UserProperty>)
    ensures PutProps(ps).outcome.Done? <==> ShortProps(ps)
  {
    hide PutProp, Short;
    if ps != [] {
      PropDone(ps[0]);
      PropsDone(ps[1..]);
      assert ps == [ps[0]] + ps[1..];
    }
  }

  lemma DiagDone(d: Diag)
    ensures PutDiag(d).outcome.Done? <==> ShortDiag(d)
  {
    hide PutProps, ShortProps;
    PropsDone(d.props);
  }

  lemma {:induction false} SubIdsDone(ids: seq<NonZeroU32>)
    ensures PutSubIds(ids).outcome.Done? <==> SmallIds(ids)
  {
    hide PutVarInt;
    if ids != [] {
      VarIntPanics(ids[0]);
      SubIdsDone(ids[1..]);
      assert ids == [ids[0]] + ids[1..];
    }
  }

  lemma {:induction false} FiltersDone(fs: seq<(ByteString, SubscriptionOptions)>)
    ensures PutFilters(fs).outcome.Done? <==> forall i :: 0 <= i < |fs| ==> Short(fs[i].0)
  {
    hide OptionsByte;
    if fs != [] {
      FiltersDone(fs[1..]);
      assert fs == [fs[0]] + fs[1..];
    }
  }

  lemma OptDone(id: byte, s: Option<Bytes>)
    ensures PutOptBytes(id, s).outcome.Done? <==> ShortOpt(s)
  {
  }

  lemma BlockDone(q: PublishProps)
    ensures PutPublishProps(q).outcome.Done? <==>
      && ShortOpt(q.correlationData) && ShortOpt(q.contentType) && ShortOpt(q.responseTopic)
      && SmallIds(q.subscriptionIds) && ShortProps(q.userProperties)
  {
    hide PutOptBytes, PutSubIds, PutProps, ShortOpt, SmallIds, ShortProps, U16Bytes, U32Bytes;
    OptDone(CORR_DATA, q.correlationData);
    OptDone(CONTENT_TYPE, q.contentType);
    OptDone(RESP_TOPIC, q.responseTopic);
    SubIdsDone(q.subscriptionIds);
    PropsDone(q.userProperties);
  }

  // ---------------------------------------------------------------- bodies

  lemma AckPropsDone(d: Diag, limit: nat)
    requires AckPropsSize(d, limit) <= MaxVarInt
    ensures PutAckProps(d, AckPropsSize(d, limit)).outcome.Done? <==> ShortDiag(AckCut(d, limit))
  {
    hide PutVarInt, PutDiag, ShortDiag, DiagSize, AckCut, PutAckProps, AckPropsSize;
    AckSizeBound(d, limit);
    AckPropsWritten(d, limit);
    DiagDone(AckCut(d, limit));
    VarIntPanics(DiagSize(AckCut(d, limit)));
  }

  lemma AckDone(p: Packet, limit: U32Value)
    requires HasDiag(p) && !p.Disconnect? && EncodedSize(p, limit) <= MaxVarInt
    ensures PutBody(p, EncodedSize(p, limit)).outcome.Done? <==> Writable(Trimmed(p, limit))
  {
    hide PutAckProps, AckPropsSize, AckCut, ShortDiag, DiagLimit, U16Bytes;
    AckPropsDone(p.diag, DiagLimit(p, limit));
  }

  lemma DisconnectShape(p: Packet, n: nat)
    requires p.Disconnect? && VarIntLenFromSize(VarIntLen(n) + n) == n && PutVarInt(n).outcome.Done?
    requires |PutVarInt(n).bytes| == VarIntLen(n)
    ensures var fixed := PutFixed(p.sessionExpiry, p.serverReference);
      PutDisconnect(p, 1 + VarIntLen(n) + n).outcome.Done?
      <==> fixed.outcome.Done? && PutOptProps(p.diag, n - |fixed.bytes|).outcome.Done?
  {
    hide PutFixed, PutVarInt, PutOptProps, VarIntLen, VarIntLenFromSize;
  }

  lemma FixedDone(expiry: Option<U32Value>, reference: Option<ByteString>)
    ensures PutFixed(expiry, reference).outcome.Done? <==> ShortOpt(reference)
  {
    hide PutOptBytes, U32Bytes;
    OptDone(SERVER_REF, reference);
  }

  lemma DisconnectWritable(p: Packet)
    requires p.Disconnect?
    ensures Writable(p) <==> ShortOpt(p.serverReference) && ShortDiag(p.diag)
  {
    hide ShortOpt, ShortDiag;
  }

  lemma DisconnectDone(p: Packet, limit: U32Value)
    requires p.Disconnect? && EncodedSize(p, limit) <= MaxVarInt
    ensures PutDisconnect(p, EncodedSize(p, limit)).outcome.Done? <==> Writable(Trimmed(p, limit))
  {
    hide *;
    DisconnectTrimmed(p, limit);
    DisconnectSize(p, limit);
    var kept := Kept(p, limit);
    var n := FixedSize(p.sessionExpiry, p.serverReference) + DiagSize(kept);
    FromSizeInverts(n);
    VarIntRoundTrip(n, []);
    DisconnectShape(p, n);
    FixedDone(p.sessionExpiry, p.serverReference);
    DisconnectWritable(Trimmed(p, limit));
    if PutFixed(p.sessionExpiry, p.serverReference).outcome.Done? {
      FixedRoundTrip(p.sessionExpiry, p.serverReference, []);
      KeptWritten(p, limit);
      DiagDone(kept);
    }
  }

  lemma PublishShape(p: Packet, n: nat)
    requires p.Publish? && VarIntLenFromSize(n + VarIntLen(n)) == n && PutVarInt(n).outcome.Done?
    requires PutBytes(p.topic).outcome.Done? ==> |PutBytes(p.topic).bytes| == BytesSize(p.topic)
    requires PutPublishId(p).outcome.Done? ==> |PutPublishId(p).bytes| == if p.qos.AtMostOnce? then 0 else 2
    ensures var size := BytesSize(p.topic) + (if p.qos.AtMostOnce? then 0 else 2) + (n + VarIntLen(n)) + |p.payload|;
      PutPublish(p, size).outcome.Done?
      <==> PutBytes(p.topic).outcome.Done? && PutPublishId(p).outcome.Done? && PutPublishProps(p.props).outcome.Done?
  {
    hide PutBytes, PutPublishId, PutPublishProps, PutVarInt, VarIntLen, VarIntLenFromSize;
  }

  lemma PublishFieldsDone(p: Packet)
    requires p.Publish?
    ensures Writable(p) <==>
      PutBytes(p.topic).outcome.Done? && PutPublishId(p).outcome.Done? && PutPublishProps(p.props).outcome.Done?
  {
    hide PutPublishProps, ShortOpt, SmallIds, ShortProps, U16Bytes;
    BlockDone(p.props);
  }

  lemma PublishDone(p: Packet, limit: U32Value)
    requires p.Publish? && EncodedSize(p, limit) <= MaxVarInt
    ensures PutPublish(p, EncodedSize(p, limit)).outcome.Done? <==> Writable(p)
  {
    hide *;
    var n := PublishPropLen(p.props);
    V5Publish.PublishSize(p, limit);
    FromSizeInverts(n);
    VarIntRoundTrip(n, []);
    StringRoundTrip(p.topic, []);
    V5Publish.PublishIdSize(p);
    PublishShape(p, n);
    PublishFieldsDone(p);
  }

  lemma SubscribeDone(p: Packet, limit: U32Value)
    requires (p.Subscribe? || p.Unsubscribe?) && EncodedSize(p, limit) <= MaxVarInt
    ensures PutBody(p, EncodedSize(p, limit)).outcome.Done? <==> Writable(p)
  {
    hide PutVarInt, PutSubIds, PutProps, PutFilters, PutNames, SubIdSize, PropsSize, FiltersSize, NamesSize,
         VarIntLen, U16Bytes,
         ShortProps, SmallIds, Short, OptToSeq;
    PropsDone(p.userProperties);
    if p.Subscribe? {
      SubIdsDone(OptToSeq(p.id));
      FiltersDone(p.topicFilters);
      VarIntPanics(SubIdSize(p.id) + PropsSize(p.userProperties));
    } else {
      NamesDone(p.filters);
      VarIntPanics(PropsSize(p.userProperties));
    }
  }

  /** A body is written to the end exactly when what is left of the packet can be written. */
  lemma BodyDone(p: Packet, limit: U32Value)
    requires EncodedSize(p, limit) <= MaxVarInt
    ensures PutBody(p, EncodedSize(p, limit)).outcome.Done? <==> Writable(Trimmed(p, limit))
  {
    hide EncodedSize, PutDisconnect, PutPublish, PutSubscribe, PutUnsubscribe, PutAck, PutStatusAck, WithDiag, Kept,
         Writable;
    if p.Disconnect? {
      DisconnectDone(p, limit);
    } else if HasDiag(p) {
      AckDone(p, limit);
    } else if p.Publish? {
      PublishDone(p, limit);
    } else if p.Subscribe? || p.Unsubscribe? {
      SubscribeDone(p, limit);
    } else {
      PingWritable(p);
    }
  }

  lemma PingWritable(p: Packet)
    ensures p.PingRequest? || p.PingResponse? ==> Writable(p)
  {
  }

  /** `encode` succeeds exactly when the size is allowed and representable and what is sent can be written. */
  lemma EncodeSucceedsExactly(s: Settings, p: Packet)
    ensures Encode(s, p).outcome.Done? <==>
      SentSize(s, p) <= Limit(s) && SentSize(s, p) <= MaxVarInt && Writable(Sent(s, p))
  {
    hide PutVarInt, PutBody, EncodedSize, FirstByte, Stripped, Limit, Writable, Trimmed;
    var n := SentSize(s, p);
    VarIntPanics(n);
    if n <= MaxVarInt {
      BodyDone(Stripped(s, p), Limit(s));
    }
  }

  // ---------------------------------------------------------------- what the limit drops

  /** Bytes a packet with diagnostics sets aside: its other fields and four bytes for the length. */
  function Overhead(p: Packet): nat
    requires HasDiag(p)
  {
    match p
    case SubscribeAck(_, _, status) => 2 + |status| + 4
    case UnsubscribeAck(_, _, status) => 2 + |status| + 4
    case Disconnect(_, expiry, reference, _) => 1 + FixedSize(expiry, reference) + 4
    case _ => 3 + 4 + 4
  }

  predicate PlainAck(p: Packet) { p.PublishAck? || p.PublishReceived? || p.PublishRelease? || p.PublishComplete? }

  lemma TooSmall(d: Diag)
    ensures DiagSize(d) < 3 ==> d == NoDiag && DiagSize(d) == 0
  {
  }

  lemma CutTooSmall(d: Diag, room: nat)
    requires room < 3
    ensures Cut(d, room) == NoDiag
  {
    hide Cut, DiagSize, LongestFitting;
    CutKeepsLongestPrefix(d, room, Cut(d, room));
    assert DiagSize(Cut(d, room)) <= room by { FittingBound(Cut(d, room), d, room); }
    TooSmall(Cut(d, room));
  }

  lemma FittingBound(c: Diag, d: Diag, room: nat)
    ensures LongestFitting(c, d, room) ==> DiagSize(c) <= room
  {
  }

  /** Once a packet is small enough for its limit, the unsigned subtraction did not wrap in any way that shows. */
  lemma KeptIsCut(p: Packet, limit: U32Value)
    requires HasDiag(p) && EncodedSize(p, limit) <= limit
    ensures Kept(p, limit) == Cut(p.diag, ReduceLimit(limit, Overhead(p)))
  {
    hide DiagSize, Cut, VarIntLen, FixedSize;
    CutTooSmall(p.diag, 0);
    TooSmall(Kept(p, limit));
    NothingWritten();
    if PlainAck(p) {
      WrapFacts(limit, 7);
    } else if p.SubscribeAck? {
      WrapFacts(limit, 2 + |p.subStatus|);
    }
  }

  lemma WrapFacts(limit: U32Value, n: nat)
    requires n < U32
    ensures WrapSub32(limit, n) == if n <= limit then limit - n else limit + U32 - n
  {
  }

  lemma StrippedHasDiag(s: Settings, p: Packet)
    ensures HasDiag(p) <==> HasDiag(Stripped(s, p))
  {
  }

  lemma TrimmedIs(p: Packet, limit: U32Value)
    requires HasDiag(p)
    ensures HasDiag(Trimmed(p, limit)) && Trimmed(p, limit).diag == Kept(p, limit)
    ensures WithDiag(Trimmed(p, limit), p.diag) == p
  {
    hide Kept;
  }

  lemma KeptFits(s: Settings, p: Packet)
    requires HasDiag(p) && Encode(s, p).outcome.Done?
    ensures var q := Stripped(s, p);
      && HasDiag(q) && HasDiag(Sent(s, p)) && WithDiag(Sent(s, p), q.diag) == q
      && LongestFitting(Sent(s, p).diag, q.diag, ReduceLimit(Limit(s), Overhead(q)))
  {
    hide Encode, EncodedSize, Kept, Cut, DiagSize, Stripped, Trimmed, Limit, LongestFitting, Overhead, ReduceLimit,
         WithDiag;
    var q := Stripped(s, p);
    StrippedHasDiag(s, p);
    SizeExact(s, p);
    KeptIsCut(q, Limit(s));
    TrimmedIs(q, Limit(s));
    CutKeepsLongestPrefix(q.diag, ReduceLimit(Limit(s), Overhead(q)), Kept(q, Limit(s)));
  }

  // ---------------------------------------------------------------- what the peer gets

  /** Bytes left for diagnostics when `overhead` bytes are set aside; no maximum means the protocol's own. */
  function Room(s: Settings, overhead: nat): nat
  {
    var limit := if s.maxOutSize == 0 then 268_435_455 else s.maxOutSize;
    if overhead > limit then 0 else limit - overhead
  }

  /** Diagnostics are dropped if the peer does not want problem information, and otherwise cut to the room. */
  predicate Shown(s: Settings, d: Diag, shown: Diag, overhead: nat)
  {
    if s.noProblemInfo then shown == Diag([], None) else LongestFitting(shown, d, Room(s, overhead))
  }

  /**
   `q` is what the peer should get for `p`. Without problem information the acknowledgements carry no
   diagnostics, and SUBSCRIBE and UNSUBSCRIBE no user properties; DISCONNECT keeps what fits either way.
   Nothing else changes.
   */
  predicate Conveys(s: Settings, p: Packet, q: Packet)
  {
    match p
    case PublishAck(id, code, d) => q.PublishAck? && q == PublishAck(id, code, q.diag) && Shown(s, d, q.diag, 11)
    case PublishReceived(id, code, d) =>
      q.PublishReceived? && q == PublishReceived(id, code, q.diag) && Shown(s, d, q.diag, 11)
    case PublishRelease(id, code, d) =>
      q.PublishRelease? && q == PublishRelease(id, code, q.diag) && Shown(s, d, q.diag, 11)
    case PublishComplete(id, code, d) =>
      q.PublishComplete? && q == PublishComplete(id, code, q.diag) && Shown(s, d, q.diag, 11)
    case SubscribeAck(id, d, status) =>
      q.SubscribeAck? && q == SubscribeAck(id, q.diag, status) && Shown(s, d, q.diag, 6 + |status|)
    case UnsubscribeAck(id, d, status) =>
      q.UnsubscribeAck? && q == UnsubscribeAck(id, q.diag, status) && Shown(s, d, q.diag, 6 + |status|)
    case Disconnect(code, expiry, reference, d) =>
      var fixed := (if expiry.Some? then 5 else 0) + (if reference.Some? then 3 + |reference.value| else 0);
      && q.Disconnect? && q == Disconnect(code, expiry, reference, q.diag)
      && LongestFitting(q.diag, d, Room(s, 5 + fixed))
    case Subscribe(id, subId, props, fs) => q == Subscribe(id, subId, if s.noProblemInfo then [] else props, fs)
    case Unsubscribe(id, props, fs) => q == Unsubscribe(id, if s.noProblemInfo then [] else props, fs)
    case _ => q == p
  }

  lemma NothingToShow(d: Diag, room: nat)
    requires LongestFitting(d, NoDiag, room)
    ensures d == Diag([], None)
  {
  }

  /** What a successful encode sends is what the peer should get. */
  lemma SentDiagnostics(s: Settings, p: Packet)
    requires Encode(s, p).outcome.Done?
    ensures Conveys(s, p, Sent(s, p))
  {
    hide Encode, EncodedSize, Kept, LongestFitting;
    if HasDiag(p) {
      KeptFits(s, p);
      var q := Stripped(s, p);
      if s.noProblemInfo && !p.Disconnect? {
        NothingToShow(Sent(s, p).diag, ReduceLimit(Limit(s), Overhead(q)));
      }
    }
  }

  /** One encoded packet in front of any bytes: the peer's decoder yields what it should get, and leaves the rest. */
  lemma PeerReceives(s: Settings, p: Packet, max: nat, rest: Bytes)
    requires Encode(s, p).outcome.Done?
    ensures var call := Frame.DecodeCall(DecodePacket, max, Frame.FrameHeader, Encode(s, p).bytes + rest);
      && SentSize(s, p) <= |Encode(s, p).bytes|
      && if max != 0 && max < SentSize(s, p) then call == Frame.Error(MaxSizeExceeded)
         else call.Item? && call.st == Frame.FrameHeader && call.src == rest && Conveys(s, p, call.packet)
  {
    hide Encode, SentSize, Sent, Conveys, DecodePacket, Frame.DecodeCall, VarIntLen;
    SentDiagnostics(s, p);
    SizeExact(s, p);
    LimitedRoundTrip(s, p, max, rest);
  }

  /** There are no diagnostics, or already the first of them is larger than `room`. */
  predicate NothingFits(d: Diag, room: int)
  {
    if d.props != [] then PropSize(d.props[0]) > room
    else d.reason.None? || 1 + BytesSize(d.reason.value) > room
  }

  lemma NothingFitsIs(d: Diag, room: nat)
    ensures Cut(d, room) == NoDiag <==> NothingFits(d, room)
  {
  }

  /**
   Diagnostics do not make a packet exceed its limit, except those of a publish acknowledgement under a
   limit below seven: there the unsigned subtraction wraps, nothing is cut, and the packet is refused
   although it would fit without them.
   */
  lemma DiagnosticsRefused(p: Packet, limit: U32Value)
    requires HasDiag(p) && limit <= MaxVarInt
    ensures EncodedSize(p, limit) <= limit <==>
      && EncodedSize(WithDiag(p, NoDiag), limit) <= limit
      && (PlainAck(p) && limit < 7 ==> NothingFits(p.diag, limit + U32 - 11))
  {
    hide DiagSize, Cut, FixedSize;
    CutTooSmall(p.diag, 0);
    CutTooSmall(NoDiag, 0);
    TooSmall(Kept(p, limit));
    NothingWritten();
    NothingCut(DiagLimit(p, limit));
    CutFits(p.diag, DiagLimit(p, limit));
    NothingFitsIs(p.diag, limit + U32 - 11);
    if PlainAck(p) {
      WrapFacts(limit, 7);
    } else if p.SubscribeAck? && |p.subStatus| + 2 < U32 {
      WrapFacts(limit, 2 + |p.subStatus|);
    }
  }

  lemma NothingCut(limit: nat)
    ensures Cut(NoDiag, limit) == NoDiag && (limit >= 4 ==> Cut(NoDiag, limit - 4) == NoDiag)
  {
  }

  lemma CutFits(d: Diag, limit: nat)
    ensures DiagSize(Cut(d, limit)) <= limit && (limit >= 4 ==> DiagSize(Cut(d, limit - 4)) <= limit - 4)
  {
    CutKeepsLongestPrefix(d, limit, Cut(d, limit));
    if limit >= 4 {
      CutKeepsLongestPrefix(d, limit - 4, Cut(d, limit - 4));
    }
  }

  /** Under a limit of five, a reason string has an acknowledgement refused that would fit without it. */
  lemma ReasonStringRefused()
    ensures var p := PublishAck(1, 0, Diag([], Some([])));
      EncodedSize(p, 5) > 5 && EncodedSize(WithDiag(p, NoDiag), 5) <= 5
  {
    var d := Diag([], Some([]));
    assert WrapSub32(5, 7) == U32 - 2;
    assert DiagSize(Cut(d, U32 - 6)) == 3;
    NothingCut(U32 - 2);
    NothingWritten();
  }

  /** The encoder half of `Codec`. */
  class Codec {
    var maxOutSize: U32Value
    var noProblemInfo: bool

    function Config(): Settings reads this { Settings(noProblemInfo, maxOutSize) }

    constructor ()
      ensures Config() == Settings(false, 0)
    {
      maxOutSize, noProblemInfo := 0, false;
    }

    method SetMaxOutboundSize(size: U32Value)
      modifies this`maxOutSize
      ensures maxOutSize == OutboundLimit(size) && (size > 5 ==> maxOutSize + 5 == size)
        && (size <= 5 ==> maxOutSize == size)
    {
      var left := size;
      if left > 5 { left := left - 5; }
      maxOutSize := left;
    }

    /** Appends one packet to `dst`; a refused size appends nothing. */
    method EncodeTo(item: Packet, dst: Bytes) returns (out: Bytes, outcome: Outcome)
      ensures out == dst + Encode(Config(), item).bytes && outcome == Encode(Config(), item).outcome
      ensures outcome.Done? ==>
        && |out| == |dst| + 1 + VarIntLen(SentSize(Config(), item)) + SentSize(Config(), item)
        && Frame.DecodeCall(DecodePacket, 0, Frame.FrameHeader, out[|dst|..])
           == Frame.Item(Sent(Config(), item), SentSize(Config(), item), Frame.FrameHeader, [])
      ensures outcome.Done? ==> Conveys(Config(), item, Sent(Config(), item))
      ensures SentSize(Config(), item) > Limit(Config()) ==> out == dst && outcome == Failed(OverMaxPacketSize)
    {
      hide PutPacket, Stripped, EncodedSize, Trimmed, VarIntLen, Frame.DecodeCall, DecodePacket, Conveys;
      var kept := Stripped(Config(), item);
      var maxSize := if maxOutSize != 0 then maxOutSize else MAX_PACKET_SIZE;
      var contentSize := EncodedSize(kept, maxSize);
      if contentSize > maxSize {
        return dst, Failed(OverMaxPacketSize);
      }
      var put := PutPacket(kept, contentSize);
      out, outcome := dst + put.bytes, put.outcome;
      if outcome.Done? {
        SizeExact(Config(), item);
        SentDiagnostics(Config(), item);
        LimitedRoundTrip(Config(), item, 0, []);
        assert out[|dst|..] == put.bytes && put.bytes + [] == put.bytes;
      }
    }
  }
}
