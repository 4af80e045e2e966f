/** The fixed header of both protocol versions (section 2.1 of MQTT 5.0): what one decoder call makes of any bytes. */
module FrameLayout {
  import opened Prelude
  import opened Wire
  import opened Layout
  import opened Frame

  /** A complete header: the size check comes first, then the body is awaited, then it is decoded. */
  lemma HeaderThenBody<P>(decode: PacketDecoder<P>, max: nat, first: byte, n: nat, bytes: Bytes)
    requires n < 268_435_456
    ensures DecodeCall(decode, max, FrameHeader, [first] + VarBytes(n) + bytes) ==
      if max != 0 && n > max then Error(MaxSizeExceeded)
      else if |bytes| < n then Wait(DecodeState.Frame(first, n), bytes)
      else
        match decode(bytes[..n], first)
        case Err(e) => Error(e)
        case Ok(p) => Item(p, n, FrameHeader, bytes[n..])
  {
    hide PutVarInt, GetVarInt, VarBytes;
    VarLayout(n);
    VarIntRoundTrip(n, bytes);
    Length(n);
    var src := [first] + VarBytes(n) + bytes;
    assert src[0] == first && src[1..] == VarBytes(n) + bytes;
  }

  lemma Length(n: nat)
    ensures |VarBytes(n)| >= 1
  {
  }

  /** With its header read, a frame waits for its last byte. */
  lemma BodyWaits<P>(decode: PacketDecoder<P>, max: nat, first: byte, n: nat, bytes: Bytes)
    ensures DecodeCall(decode, max, DecodeState.Frame(first, n), bytes) ==
      if |bytes| < n then Wait(DecodeState.Frame(first, n), bytes)
      else
        match decode(bytes[..n], first)
        case Err(e) => Error(e)
        case Ok(p) => Item(p, n, FrameHeader, bytes[n..])
  {
  }

  /** Without a complete length nothing is consumed; a length of more than four bytes is an error. */
  lemma HeaderIncomplete<P>(decode: PacketDecoder<P>, max: nat, src: Bytes)
    requires forall i :: 1 <= i < |src| && i < 5 ==> src[i] >= 128
    ensures DecodeCall(decode, max, FrameHeader, src) ==
      if |src| < 5 then Wait(FrameHeader, src) else Error(DecodeError.InvalidLength)
  {
    hide GetVarInt;
    if |src| >= 2 { TooManyGroups(src[1..]); }
  }
}
