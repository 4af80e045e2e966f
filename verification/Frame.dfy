/**
 The incremental frame decoder shared by both codecs (src/v3/codec/codec.rs, src/v5/codec/codec.rs):
 a two-state machine that is called whenever bytes arrive. `decode` stands for `decode_packet` of
 the protocol version.
 */
module Frame {
  import opened Prelude
  import opened Wire

  datatype DecodeState = FrameHeader | Frame(firstByte: byte, remaining: nat)

  type PacketDecoder<!P> = (Bytes, byte) -> Result<P, DecodeError>

  /** One call of `Decoder::decode`: a packet, `Ok(None)`, or an error. */
  datatype Call<P> =
    | Item(packet: P, size: nat, st: DecodeState, src: Bytes)
    | Wait(st: DecodeState, src: Bytes)
    | Error(error: DecodeError)

  function DecodeBody<P>(decode: PacketDecoder<P>, st: DecodeState, src: Bytes): Call<P>
    requires st.Frame?
  {
    if |src| < st.remaining then Wait(st, src)
    else
      match decode(src[..st.remaining], st.firstByte)
      case Err(e) => Error(e)
      case Ok(p) => Item(p, st.remaining, FrameHeader, src[st.remaining..])
  }

  function DecodeCall<P>(decode: PacketDecoder<P>, max: nat, st: DecodeState, src: Bytes): Call<P>
  {
    if st.Frame? then DecodeBody(decode, st, src)
    else if |src| < 2 then Wait(st, src)
    else
      match GetVarInt(src[1..])
      case Err(e) => if e == DecodeError.MalformedPacket then Wait(st, src) else Error(e)
      case Ok((n, rest)) =>
        if max != 0 && max < n then Error(MaxSizeExceeded)
        else DecodeBody(decode, Frame(src[0], n), rest)
  }

  /** What calling until `None` or an error yields; after an error the connection is given up. */
  datatype Drained<P> =
    | Waiting(items: seq<(P, nat)>, st: DecodeState, src: Bytes)
    | Broken(items: seq<(P, nat)>, error: DecodeError)
  {
    function After(before: seq<(P, nat)>): Drained<P>
    {
      if Waiting? then Waiting(before + items, st, src) else Broken(before + items, error)
    }
  }

  lemma ItemConsumes<P>(decode: PacketDecoder<P>, max: nat, st: DecodeState, src: Bytes)
    requires DecodeCall(decode, max, st, src).Item?
    ensures var c := DecodeCall(decode, max, st, src);
      c.st == FrameHeader && (if st.Frame? then |c.src| <= |src| else |c.src| < |src|)
  {
    if !st.Frame? {
      VarIntConsumes(src[1..], 0, 0);
    }
  }

  function Drain<P>(decode: PacketDecoder<P>, max: nat, st: DecodeState, src: Bytes): Drained<P>
    decreases |src|, st.Frame?
  {
    match DecodeCall(decode, max, st, src)
    case Wait(st', rest) => Waiting([], st', rest)
    case Error(e) => Broken([], e)
    case Item(p, n, st', rest) =>
      ItemConsumes(decode, max, st, src);
      Drain(decode, max, st', rest).After([(p, n)])
  }

  /** Bytes arrive in chunks; after each chunk the decoder is drained. */
  function Feed<P>(decode: PacketDecoder<P>, max: nat, st: DecodeState, src: Bytes, chunks: seq<Bytes>): Drained<P>
    decreases |chunks|
  {
    if chunks == [] then Waiting([], st, src)
    else
      var d := Drain(decode, max, st, src + chunks[0]);
      if d.Broken? then d else Feed(decode, max, d.st, d.src, chunks[1..]).After(d.items)
  }

  function Concat(chunks: seq<Bytes>): Bytes { if chunks == [] then [] else chunks[0] + Concat(chunks[1..]) }

  // ---------------------------------------------------------------- chunking does not matter

  lemma {:induction false} VarIntMore(src: Bytes, more: Bytes, k: nat, len: nat)
    requires k < 4
    ensures match GetVarIntFrom(src, k, len)
      case Ok((n, rest)) => GetVarIntFrom(src + more, k, len) == Ok((n, rest + more))
      case Err(e) => e != DecodeError.MalformedPacket ==> GetVarIntFrom(src + more, k, len) == Err(e)
    decreases 4 - k
  {
    if src != [] {
      assert (src + more)[1..] == src[1..] + more;
      if src[0] >= 128 && k < 3 {
        VarIntMore(src[1..], more, k + 1, len + Shifted(src[0] % 128, k));
      }
    }
  }

  lemma BodyMore<P>(decode: PacketDecoder<P>, st: DecodeState, src: Bytes, more: Bytes)
    requires st.Frame?
    ensures match DecodeBody(decode, st, src)
      case Item(p, n, st', rest) => DecodeBody(decode, st, src + more) == Item(p, n, st', rest + more)
      case Error(e) => DecodeBody(decode, st, src + more) == Error(e)
      case Wait(st', rest) => st' == st && rest == src
  {
    if |src| >= st.remaining {
      assert (src + more)[..st.remaining] == src[..st.remaining];
      assert (src + more)[st.remaining..] == src[st.remaining..] + more;
    }
  }

  /** A call with more bytes behind: packets and errors are the same, and waiting loses nothing. */
  lemma CallMore<P>(decode: PacketDecoder<P>, max: nat, st: DecodeState, src: Bytes, more: Bytes)
    ensures match DecodeCall(decode, max, st, src)
      case Item(p, n, st', rest) => DecodeCall(decode, max, st, src + more) == Item(p, n, st', rest + more)
      case Error(e) => DecodeCall(decode, max, st, src + more) == Error(e)
      case Wait(st', rest) => DecodeCall(decode, max, st, src + more) == DecodeCall(decode, max, st', rest + more)
  {
    if st.Frame? {
      BodyMore(decode, st, src, more);
    } else if |src| >= 2 {
      assert (src + more)[1..] == src[1..] + more;
      VarIntMore(src[1..], more, 0, 0);
      match GetVarInt(src[1..]) {
        case Err(_) =>
        case Ok((n, rest)) => BodyMore(decode, Frame(src[0], n), rest, more);
      }
    }
  }

  /** Draining in two portions is draining once. */
  lemma {:induction false} DrainMore<P>(decode: PacketDecoder<P>, max: nat, st: DecodeState, src: Bytes, more: Bytes)
    ensures var d := Drain(decode, max, st, src);
      Drain(decode, max, st, src + more) ==
        if d.Broken? then d else Drain(decode, max, d.st, d.src + more).After(d.items)
    decreases |src|, st.Frame?
  {
    CallMore(decode, max, st, src, more);
    match DecodeCall(decode, max, st, src) {
      case Error(e) =>
      case Wait(st', rest) => DrainSame(decode, max, st, src + more, st', rest + more);
      case Item(p, n, st', rest) =>
        ItemConsumes(decode, max, st, src);
        DrainMore(decode, max, st', rest, more);
        var d := Drain(decode, max, st', rest);
        if d.Waiting? {
          AfterAfter(Drain(decode, max, d.st, d.src + more), [(p, n)], d.items);
        }
    }
  }

  lemma DrainSame<P>(decode: PacketDecoder<P>, max: nat, st: DecodeState, src: Bytes, st': DecodeState, src': Bytes)
    requires DecodeCall(decode, max, st, src) == DecodeCall(decode, max, st', src')
    ensures Drain(decode, max, st, src) == Drain(decode, max, st', src').After([])
  {
    var d := Drain(decode, max, st', src');
    assert [] + d.items == d.items;
  }

  lemma AfterAfter<P>(d: Drained<P>, a: seq<(P, nat)>, b: seq<(P, nat)>)
    ensures d.After(b).After(a) == d.After(a + b)
  {
    assert a + (b + d.items) == (a + b) + d.items;
  }

  /**
   However the bytes are cut into chunks, the decoder yields the same packets, the same first error
   and the same leftover as when they arrive at once.
   */
  lemma {:induction false} ChunkingIrrelevant<P>(decode: PacketDecoder<P>, max: nat, st: DecodeState, src: Bytes,
      chunks: seq<Bytes>)
    requires Drain(decode, max, st, src) == Waiting([], st, src)
    ensures Feed(decode, max, st, src, chunks) == Drain(decode, max, st, src + Concat(chunks))
    decreases |chunks|
  {
    if chunks == [] {
      assert src + [] == src;
    } else {
      var first, tail := src + chunks[0], Concat(chunks[1..]);
      assert src + Concat(chunks) == first + tail;
      DrainIdle(decode, max, st, first);
      var d := Drain(decode, max, st, first);
      if d.Waiting? {
        ChunkingIrrelevant(decode, max, d.st, d.src, chunks[1..]);
      }
      assert Feed(decode, max, st, src, chunks)
          == if d.Broken? then d else Drain(decode, max, d.st, d.src + tail).After(d.items);
      DrainMore(decode, max, st, first, tail);
    }
  }

  /** Once drained, nothing more comes without more bytes. */
  lemma {:induction false} DrainIdle<P>(decode: PacketDecoder<P>, max: nat, st: DecodeState, src: Bytes)
    ensures var d := Drain(decode, max, st, src);
      d.Waiting? ==> Drain(decode, max, d.st, d.src) == Waiting([], d.st, d.src)
    decreases |src|, st.Frame?
  {
    match DecodeCall(decode, max, st, src) {
      case Item(_, _, st', rest) =>
        ItemConsumes(decode, max, st, src);
        DrainIdle(decode, max, st', rest);
      case _ =>
    }
  }

  /** A stream that starts with one complete packet. */
  lemma DrainCons<P>(decode: PacketDecoder<P>, max: nat, p: P, n: nat, bytes: Bytes, rest: Bytes)
    requires DecodeCall(decode, max, FrameHeader, bytes + rest) == Item(p, n, FrameHeader, rest)
    ensures Drain(decode, max, FrameHeader, bytes + rest) == Drain(decode, max, FrameHeader, rest).After([(p, n)])
  {
  }

  // ---------------------------------------------------------------- the code

  /** `Codec` as a decoder: the state cell and the loop of `decode`. */
  class Decoder<P> {
    const decode: PacketDecoder<P>
    var maxSize: nat
    var state: DecodeState

    constructor (decode: PacketDecoder<P>, maxSize: nat)
      ensures state == FrameHeader && this.maxSize == maxSize && this.decode == decode
    {
      this.decode, this.maxSize, state := decode, maxSize, FrameHeader;
    }

    /** `Decoder::decode(&self, src)`; `rest` is what is left in the buffer. */
    method Decode(src: Bytes) returns (r: Result<Option<(P, nat)>, DecodeError>, rest: Bytes)
      modifies this`state
      ensures match DecodeCall(decode, maxSize, old(state), src)
        case Item(p, n, st, left) => r == Ok(Some((p, n))) && state == st && rest == left
        case Wait(st, left) => r == Ok(None) && state == st && rest == left
        case Error(e) => r == Err(e)
    {
      rest := src;
      while true
        invariant old(state).Frame? ==> state == old(state)
        invariant DecodeCall(decode, maxSize, old(state), src) == DecodeCall(decode, maxSize, state, rest)
        decreases !state.Frame?
      {
        match state {
          case FrameHeader =>
            if |rest| < 2 { return Ok(None), rest; }
            var firstByte := rest[0];
            var header := DecodeVarInt(rest[1..]);
            match header {
              case Err(e) =>
                if e == DecodeError.MalformedPacket { return Ok(None), rest; }
                return Err(e), rest;
              case Ok((remaining, after)) =>
                if maxSize != 0 && maxSize < remaining { return Err(MaxSizeExceeded), rest; }
                rest := after;
                state := Frame(firstByte, remaining);
                if |rest| < remaining { return Ok(None), rest; }
            }
          case Frame(firstByte, remaining) =>
            if |rest| < remaining { return Ok(None), rest; }
            var body := rest[..remaining];
            rest := rest[remaining..];
            match decode(body, firstByte) {
              case Err(e) => return Err(e), rest;
              case Ok(p) =>
                state := FrameHeader;
                return Ok(Some((p, remaining))), rest;
            }
        }
      }
    }
  }

  /** Calls `decode` until it waits or fails, as the dispatcher does when bytes have arrived. */
  method DrainBuffer<P>(codec: Decoder<P>, src: Bytes)
      returns (items: seq<(P, nat)>, error: Option<DecodeError>, rest: Bytes)
    modifies codec`state
    ensures Drain(codec.decode, codec.maxSize, old(codec.state), src) ==
      if error.Some? then Broken(items, error.value) else Waiting(items, codec.state, rest)
  {
    items, rest := [], src;
    ghost var whole := Drain(codec.decode, codec.maxSize, codec.state, src);
    assert whole.After([]) == whole by { assert [] + whole.items == whole.items; }
    while true
      invariant whole == Drain(codec.decode, codec.maxSize, codec.state, rest).After(items)
      decreases |rest|, codec.state.Frame?
    {
      ghost var st, before := codec.state, rest;
      ghost var call := DecodeCall(codec.decode, codec.maxSize, st, before);
      if call.Item? { ItemConsumes(codec.decode, codec.maxSize, st, before); }
      var r;
      r, rest := codec.Decode(rest);
      match r {
        case Err(e) =>
          assert items + [] == items;
          return items, Some(e), rest;
        case Ok(None) =>
          assert items + [] == items;
          return items, None, rest;
        case Ok(Some(item)) =>
          AfterAfter(Drain(codec.decode, codec.maxSize, codec.state, rest), items, [item]);
          items := items + [item];
      }
    }
  }

  /**
   Receiving a stream chunk by chunk with the stateful decoder yields the packets and the first
   error of the whole byte stream.
   */
  method Receive<P>(decode: PacketDecoder<P>, maxSize: nat, chunks: seq<Bytes>)
    returns (items: seq<(P, nat)>, error: Option<DecodeError>)
    ensures var d := Drain(decode, maxSize, FrameHeader, Concat(chunks));
      items == d.items && error == if d.Broken? then Some(d.error) else None
  {
    var codec := new Decoder<P>(decode, maxSize);
    var src: Bytes := [];
    items := [];
    ghost var whole := Feed(decode, maxSize, FrameHeader, [], chunks);
    ChunkingIrrelevant(decode, maxSize, FrameHeader, [], chunks);
    assert [] + Concat(chunks) == Concat(chunks);
    assert whole.After([]) == whole by { assert [] + whole.items == whole.items; }
    for k := 0 to |chunks|
      invariant codec.decode == decode && codec.maxSize == maxSize && fresh(codec)
      invariant whole == Feed(decode, maxSize, codec.state, src, chunks[k..]).After(items)
    {
      assert chunks[k..][0] == chunks[k] && chunks[k..][1..] == chunks[k + 1..];
      var got, failure;
      got, failure, src := DrainBuffer(codec, src + chunks[k]);
      if failure.Some? { return items + got, failure; }
      AfterAfter(Feed(decode, maxSize, codec.state, src, chunks[k + 1..]), items, got);
      items := items + got;
    }
    assert items + [] == items;
    return items, None;
  }
}
