/**
 The MQTT 5 codec as a whole (src/v5/codec/codec.rs): what an encoded packet decodes to, how many bytes
 it takes, and streams of packets.
 */
module V5Stream {
  import opened Prelude
  import opened Wire
  import opened Types
  import opened V5Props
  import opened V5Codec
  import opened V5RoundTrip
  import V5Publish
  import Frame

  // ---------------------------------------------------------------- bodies

  lemma AckBody(p: Packet, limit: U32Value)
    requires p.PublishAck? || p.PublishReceived? || p.PublishRelease? || p.PublishComplete?
    requires EncodedSize(p, limit) <= MaxVarInt && PutBody(p, EncodedSize(p, limit)).outcome.Done?
    ensures |PutBody(p, EncodedSize(p, limit)).bytes| == EncodedSize(p, limit)
    ensures DecodePacket(PutBody(p, EncodedSize(p, limit)).bytes, FirstByte(p)) == Ok(Trimmed(p, limit))
  {
    hide PutAck, DecodeAck, AckPropsSize, AckCut, DiagLimit;
    match p {
      case PublishAck(id, code, d) => AckRoundTrip(id, code, d, DiagLimit(p, limit), IsAckCode);
      case PublishReceived(id, code, d) => AckRoundTrip(id, code, d, DiagLimit(p, limit), IsAckCode);
      case PublishRelease(id, code, d) => AckRoundTrip(id, code, d, DiagLimit(p, limit), IsAck2Code);
      case PublishComplete(id, code, d) => AckRoundTrip(id, code, d, DiagLimit(p, limit), IsAck2Code);
    }
  }

  lemma StatusAckBody(p: Packet, limit: U32Value)
    requires p.SubscribeAck? || p.UnsubscribeAck?
    requires EncodedSize(p, limit) <= MaxVarInt && PutBody(p, EncodedSize(p, limit)).outcome.Done?
    ensures |PutBody(p, EncodedSize(p, limit)).bytes| == EncodedSize(p, limit)
    ensures DecodePacket(PutBody(p, EncodedSize(p, limit)).bytes, FirstByte(p)) == Ok(Trimmed(p, limit))
  {
    hide PutStatusAck, DecodeStatusAck, AckPropsSize, AckCut, DiagLimit, IsSubCode, IsUnsubCode;
    match p {
      case SubscribeAck(id, d, status) => StatusAckRoundTrip(id, d, status, DiagLimit(p, limit), IsSubCode);
      case UnsubscribeAck(id, d, status) => StatusAckRoundTrip(id, d, status, DiagLimit(p, limit), IsUnsubCode);
    }
  }

  lemma OtherBody(p: Packet, limit: U32Value)
    requires p.Disconnect? || p.Subscribe? || p.Unsubscribe? || p.Publish? || p.PingRequest? || p.PingResponse?
    requires EncodedSize(p, limit) <= MaxVarInt && PutBody(p, EncodedSize(p, limit)).outcome.Done?
    ensures |PutBody(p, EncodedSize(p, limit)).bytes| == EncodedSize(p, limit)
    ensures DecodePacket(PutBody(p, EncodedSize(p, limit)).bytes, FirstByte(p)) == Ok(Trimmed(p, limit))
  {
    hide PutDisconnect, PutSubscribe, PutUnsubscribe, PutPublish, DecodeDisconnect, DecodeSubscribe,
         DecodeUnsubscribe, DecodePublish,
         PublishByte, WithDiag, Kept;
    if p.PingRequest? || p.PingResponse? {
    } else {
      hide EncodedSize;
      match p {
        case Disconnect(_, _, _, _) => DisconnectRoundTrip(p, limit);
        case Subscribe(_, _, _, _) => SubscribeRoundTrip(p, limit);
        case Unsubscribe(_, _, _) => UnsubscribeRoundTrip(p, limit);
        case Publish(dup, retain, qos, _, _, _, _) =>
          PublishByteBits(dup, qos, retain);
          V5Publish.PublishRoundTrip(p, limit);
      }
    }
  }

  /** The body takes exactly the announced size and decodes to the packet as trimmed by the limit. */
  lemma BodyRoundTrip(p: Packet, limit: U32Value)
    requires EncodedSize(p, limit) <= MaxVarInt && PutBody(p, EncodedSize(p, limit)).outcome.Done?
    ensures |PutBody(p, EncodedSize(p, limit)).bytes| == EncodedSize(p, limit)
    ensures DecodePacket(PutBody(p, EncodedSize(p, limit)).bytes, FirstByte(p)) == Ok(Trimmed(p, limit))
  {
    hide *;
    if p.PublishAck? || p.PublishReceived? || p.PublishRelease? || p.PublishComplete? {
      AckBody(p, limit);
    } else if p.SubscribeAck? || p.UnsubscribeAck? {
      StatusAckBody(p, limit);
    } else {
      OtherBody(p, limit);
    }
  }

  // ---------------------------------------------------------------- packets

  /** What the peer is meant to receive, and its content size. */
  function Sent(s: Settings, p: Packet): Packet { Trimmed(Stripped(s, p), Limit(s)) }

  function SentSize(s: Settings, p: Packet): nat { EncodedSize(Stripped(s, p), Limit(s)) }

  lemma Layout(s: Settings, p: Packet)
    requires Encode(s, p).outcome.Done?
    ensures var q, n := Stripped(s, p), SentSize(s, p);
      && n <= Limit(s) && n <= MaxVarInt && PutBody(q, n).outcome.Done?
      && Encode(s, p).bytes == [FirstByte(q)] + (PutVarInt(n).bytes + PutBody(q, n).bytes)
  {
    hide PutVarInt, PutBody, EncodedSize, FirstByte, Stripped;
    VarIntPanics(SentSize(s, p));
  }

  /** A successful encode writes exactly the fixed header and the computed size. */
  lemma SizeExact(s: Settings, p: Packet)
    requires Encode(s, p).outcome.Done?
    ensures |Encode(s, p).bytes| == 1 + VarIntLen(SentSize(s, p)) + SentSize(s, p)
    ensures SentSize(s, p) <= Limit(s) && SentSize(s, p) <= MaxVarInt
  {
    hide PutVarInt, PutBody, EncodedSize, FirstByte, Stripped, Limit, Encode, VarIntLen;
    Layout(s, p);
    BodyRoundTrip(Stripped(s, p), Limit(s));
    VarIntRoundTrip(SentSize(s, p), []);
  }

  /**
   Section 3.1.2.11.4 of MQTT 5.0: with a maximum packet size `m` above five, no encoded packet is longer
   than `m`. The five bytes set aside are not set aside for smaller maxima, where a packet stays within
   `m` exactly when its content leaves room for the two header bytes.
   */
  lemma MaximumPacketSize(noProblemInfo: bool, m: U32Value, p: Packet)
    requires m != 0 && Encode(Settings(noProblemInfo, OutboundLimit(m)), p).outcome.Done?
    ensures var s := Settings(noProblemInfo, OutboundLimit(m));
      |Encode(s, p).bytes| <= m <==> m > 5 || SentSize(s, p) + 2 <= m
  {
    hide Encode, SentSize, VarIntLen;
    var s := Settings(noProblemInfo, OutboundLimit(m));
    SizeExact(s, p);
    VarIntWidths(SentSize(s, p));
  }

  lemma VarIntWidths(n: nat)
    ensures n <= MaxVarInt ==> VarIntLen(n) <= 4
    ensures n <= 127 ==> VarIntLen(n) == 1
  {
  }

  /** A peer that accepts at most four bytes is sent a six byte acknowledgement. */
  lemma TinyMaximumExceeded()
    ensures var s, p := Settings(false, OutboundLimit(4)), PublishAck(1, 0, NoDiag);
      Encode(s, p).outcome.Done? && |Encode(s, p).bytes| == 6
  {
    var s, p := Settings(false, OutboundLimit(4)), PublishAck(1, 0, NoDiag);
    assert DiagSize(NoDiag) == 0;
    assert EncodedSize(p, 4) == 4 by {
      EmptyDiag(AckCut(NoDiag, DiagLimit(p, 4)));
    }
  }

  /**
   One encoded packet at the front of the buffer is decoded to what was meant to be sent, with its size,
   and the rest is left, unless it exceeds the receiver's inbound limit.
   */
  lemma LimitedRoundTrip(s: Settings, p: Packet, max: nat, rest: Bytes)
    requires Encode(s, p).outcome.Done?
    ensures Frame.DecodeCall(DecodePacket, max, Frame.FrameHeader, Encode(s, p).bytes + rest) ==
      if max != 0 && max < SentSize(s, p) then Frame.Error(MaxSizeExceeded)
      else Frame.Item(Sent(s, p), SentSize(s, p), Frame.FrameHeader, rest)
  {
    hide PutVarInt, GetVarInt, PutBody, EncodedSize, FirstByte, Stripped, Limit, Encode, VarIntLen, DecodePacket,
         Trimmed;
    var q, n := Stripped(s, p), SentSize(s, p);
    Layout(s, p);
    BodyRoundTrip(q, Limit(s));
    var body := PutBody(q, n).bytes;
    VarIntRoundTrip(n, body + rest);
    LengthPositive(n);
    var src := Encode(s, p).bytes + rest;
    assert src == [FirstByte(q)] + (PutVarInt(n).bytes + (body + rest));
    assert src[0] == FirstByte(q) && src[1..] == PutVarInt(n).bytes + (body + rest);
    assert (body + rest)[..n] == body && (body + rest)[n..] == rest;
  }

  // ---------------------------------------------------------------- streams

  function EncodeAll(s: Settings, ps: seq<Packet>): Bytes
  {
    if ps == [] then [] else Encode(s, ps[0]).bytes + EncodeAll(s, ps[1..])
  }

  function AllSent(s: Settings, ps: seq<Packet>): seq<(Packet, nat)>
  {
    if ps == [] then [] else [(Sent(s, ps[0]), SentSize(s, ps[0]))] + AllSent(s, ps[1..])
  }

  predicate Travels(s: Settings, p: Packet, max: nat)
  {
    Encode(s, p).outcome.Done? && (max == 0 || SentSize(s, p) <= max)
  }

  lemma {:induction false} StreamDrains(s: Settings, ps: seq<Packet>, max: nat)
    requires forall i :: 0 <= i < |ps| ==> Travels(s, ps[i], max)
    ensures Frame.Drain(DecodePacket, max, Frame.FrameHeader, EncodeAll(s, ps))
         == Frame.Waiting(AllSent(s, ps), Frame.FrameHeader, [])
    decreases |ps|
  {
    hide Encode, DecodePacket, SentSize, Sent;
    if ps != [] {
      assert Travels(s, ps[0], max);
      LimitedRoundTrip(s, ps[0], max, EncodeAll(s, ps[1..]));
      Frame.DrainCons(DecodePacket, max, Sent(s, ps[0]), SentSize(s, ps[0]), Encode(s, ps[0]).bytes,
        EncodeAll(s, ps[1..]));
      StreamDrains(s, ps[1..], max);
    }
  }

  /**
   Any list of packets, encoded one after the other and cut into chunks at any points, is decoded to
   exactly those packets as trimmed, with their sizes, and nothing is left over.
   */
  lemma StreamRoundTrip(s: Settings, ps: seq<Packet>, max: nat, chunks: seq<Bytes>)
    requires forall i :: 0 <= i < |ps| ==> Travels(s, ps[i], max)
    requires Frame.Concat(chunks) == EncodeAll(s, ps)
    ensures Frame.Feed(DecodePacket, max, Frame.FrameHeader, [], chunks)
         == Frame.Waiting(AllSent(s, ps), Frame.FrameHeader, [])
  {
    hide DecodePacket, Travels;
    StreamDrains(s, ps, max);
    Frame.ChunkingIrrelevant(DecodePacket, max, Frame.FrameHeader, [], chunks);
    assert [] + Frame.Concat(chunks) == EncodeAll(s, ps);
  }
}
