/**
 Primitive wire encoding (src/utils.rs and the arithmetic of src/v5/codec/encode.rs): fixed-width
 integers, length-prefixed strings, and the variable byte integer of section 1.5.5 of MQTT 5.0.

 Encoders append to a buffer and may stop half way; a `Put` is what was appended and how it ended.
 Decoders consume a cursor; their result carries the bytes that are left.
 */
module Wire {
  import opened Prelude

  type byte = x: int | 0 <= x < 256

  type Bytes = seq<byte>

  datatype EncodeError = InvalidLength | MalformedPacket | PacketIdRequired | OverMaxPacketSize

  datatype DecodeError =
    | InvalidLength | MalformedPacket | Utf8Error | UnsupportedPacketType | MaxSizeExceeded
    | InvalidProtocol | UnsupportedProtocolLevel | ConnectReservedFlagSet | ConnAckReservedFlagSet | InvalidClientId

  type Decoded<T> = Result<(T, Bytes), DecodeError>

  // ---------------------------------------------------------------- UTF-8

  predicate Continuation(b: byte) { 0x80 <= b < 0xC0 }

  /** Well-formed UTF-8 (section 4 of RFC 3629). */
  predicate IsUtf8(s: Bytes)
  {
    s == [] ||
    (if s[0] < 0x80 then IsUtf8(s[1..])
     else if 0xC2 <= s[0] < 0xE0 then |s| >= 2 && Continuation(s[1]) && IsUtf8(s[2..])
     else if 0xE0 <= s[0] < 0xF0 then
       && |s| >= 3 && Continuation(s[1]) && Continuation(s[2])
       && (s[0] == 0xE0 ==> s[1] >= 0xA0) && (s[0] == 0xED ==> s[1] < 0xA0) && IsUtf8(s[3..])
     else
       && 0xF0 <= s[0] < 0xF5 && |s| >= 4 && Continuation(s[1]) && Continuation(s[2]) && Continuation(s[3])
       && (s[0] == 0xF0 ==> s[1] >= 0x90) && (s[0] == 0xF4 ==> s[1] < 0x90) && IsUtf8(s[4..]))
  }

  type ByteString = s: Bytes | IsUtf8(s) witness []

  // ---------------------------------------------------------------- writing

  datatype Outcome = Done | Failed(error: EncodeError) | Panicked

  datatype Put = Put(bytes: Bytes, outcome: Outcome) {
    /** Goes on with `next` unless this write stopped. */
    function Then(next: Put): Put
    {
      if outcome.Done? then Put(bytes + next.bytes, next.outcome) else this
    }
  }

  function Write(b: Bytes): Put { Put(b, Done) }

  function Fail(e: EncodeError): Put { Put([], Failed(e)) }

  type U16Value = n: nat | n < U16
  type U32Value = n: nat | n < U32
  type NonZeroU32 = n: nat | 0 < n < U32 witness 1

  function U16Bytes(n: U16Value): (b: Bytes) ensures |b| == 2 { [n / 256, n % 256] }

  function U32Bytes(n: U32Value): (b: Bytes)
    ensures |b| == 4
  {
    U16Bytes(n / U16) + U16Bytes(n % U16)
  }

  /** A length prefix of two bytes, then the bytes; longer strings are refused before writing. */
  function PutBytes(s: Bytes): Put
  {
    if |s| < U16 then Write(U16Bytes(|s|) + s) else Fail(EncodeError.InvalidLength)
  }

  /** `Encode::encoded_size` of strings and byte blocks. */
  function BytesSize(s: Bytes): nat { 2 + |s| }

  const MaxVarInt: nat := 268_435_455

  /** `write_variable_length`. */
  function PutVarInt(n: nat): Put
  {
    if n <= 127 then Write([n])
    else if n <= 16_383 then Write([n % 128 + 128, n / 128])
    else if n <= 2_097_151 then Write([n % 128 + 128, n / 128 % 128 + 128, n / 16_384])
    else if n <= MaxVarInt then
      Write([n % 128 + 128, n / 128 % 128 + 128, n / 16_384 % 128 + 128, n / 2_097_152])
    else Put([], Panicked)
  }

  // ---------------------------------------------------------------- reading

  function GetU8(src: Bytes): Decoded<byte>
  {
    if src == [] then Err(DecodeError.InvalidLength) else Ok((src[0], src[1..]))
  }

  function GetU16(src: Bytes): Decoded<U16Value>
  {
    if |src| < 2 then Err(DecodeError.InvalidLength) else Ok((src[0] as int * 256 + src[1], src[2..]))
  }

  function GetNonZeroU16(src: Bytes): Decoded<NonZeroU16>
  {
    var (n, rest) :- GetU16(src);
    if n == 0 then Err(DecodeError.MalformedPacket) else Ok((n, rest))
  }

  function GetU32(src: Bytes): Decoded<U32Value>
  {
    if |src| < 4 then Err(DecodeError.InvalidLength)
    else Ok(((src[0] as int * 256 + src[1]) * U16 + (src[2] as int * 256 + src[3]), src[4..]))
  }

  function GetNonZeroU32(src: Bytes): Decoded<NonZeroU32>
  {
    var (n, rest) :- GetU32(src);
    if n == 0 then Err(DecodeError.MalformedPacket) else Ok((n, rest))
  }

  function GetBool(src: Bytes): Decoded<bool>
  {
    var (b, rest) :- GetU8(src);
    if b > 1 then Err(DecodeError.MalformedPacket) else Ok((b == 1, rest))
  }

  function GetBytes(src: Bytes): (r: Decoded<Bytes>)
    ensures r.Ok? ==> |r.value.1| + 2 <= |src|
  {
    var (n, rest) :- GetU16(src);
    if |rest| < n then Err(DecodeError.InvalidLength) else Ok((rest[..n], rest[n..]))
  }

  function GetString(src: Bytes): (r: Decoded<ByteString>)
    ensures r.Ok? ==> |r.value.1| + 2 <= |src|
  {
    var (s, rest) :- GetBytes(src);
    if IsUtf8(s) then Ok((s, rest)) else Err(Utf8Error)
  }

  /** `(v as u32) << (7 * k)`. */
  function Shifted(v: nat, k: nat): nat
  {
    if k == 0 then v else if k == 1 then v * 128 else if k == 2 then v * 16_384 else v * 2_097_152
  }

  /** `decode_variable_length_cursor` after `k` bytes worth `len`. */
  function GetVarIntFrom(src: Bytes, k: nat, len: nat): Decoded<nat>
    requires k < 4
    decreases 4 - k
  {
    if src == [] then Err(DecodeError.MalformedPacket)
    else
      var len' := len + Shifted(src[0] % 128, k);
      if src[0] < 128 then Ok((len', src[1..]))
      else if k == 3 then Err(DecodeError.InvalidLength)
      else GetVarIntFrom(src[1..], k + 1, len')
  }

  function GetVarInt(src: Bytes): Decoded<nat> { GetVarIntFrom(src, 0, 0) }

  /** The loop of `decode_variable_length_cursor`. */
  method DecodeVarInt(src: Bytes) returns (r: Decoded<nat>)
    ensures r == GetVarInt(src)
  {
    var k: nat, len: nat, cur: Bytes := 0, 0, src;
    while true
      invariant k < 4 && GetVarInt(src) == GetVarIntFrom(cur, k, len)
      decreases 4 - k
    {
      if cur == [] { return Err(DecodeError.MalformedPacket); }
      var val := cur[0];
      cur := cur[1..];
      len := len + Shifted(val % 128, k);
      if val < 128 { return Ok((len, cur)); }
      if k == 3 { return Err(DecodeError.InvalidLength); }
      k := k + 1;
    }
  }

  /** `take_properties`: a length and that many bytes. */
  function TakeProperties(src: Bytes): Decoded<Bytes>
  {
    var (n, rest) :- GetVarInt(src);
    if |rest| < n then Err(DecodeError.InvalidLength) else Ok((rest[..n], rest[n..]))
  }

  /** Reading an integer consumes at least one byte. */
  lemma VarIntConsumes(src: Bytes, k: nat, len: nat)
    requires k < 4 && GetVarIntFrom(src, k, len).Ok?
    ensures |GetVarIntFrom(src, k, len).value.1| < |src|
    decreases 4 - k
  {
  }

  // ---------------------------------------------------------------- lists of names

  function NamesSize(fs: seq<ByteString>): nat { if fs == [] then 0 else 2 + |fs[0]| + NamesSize(fs[1..]) }

  function PutNames(fs: seq<ByteString>): Put
  {
    if fs == [] then Write([]) else PutBytes(fs[0]).Then(PutNames(fs[1..]))
  }

  /** All names up to the end of the source, after those in `acc`. */
  function GetNames(acc: seq<ByteString>, src: Bytes): Result<seq<ByteString>, DecodeError>
    decreases |src|
  {
    if src == [] then Ok(acc)
    else
      var (topic, rest) :- GetString(src);
      GetNames(acc + [topic], rest)
  }

  // ---------------------------------------------------------------- round trips

  lemma U16RoundTrip(n: U16Value, rest: Bytes)
    ensures GetU16(U16Bytes(n) + rest) == Ok((n, rest))
  {
    assert (U16Bytes(n) + rest)[2..] == rest;
  }

  lemma U32RoundTrip(n: U32Value, rest: Bytes)
    ensures GetU32(U32Bytes(n) + rest) == Ok((n, rest))
  {
    var b := U32Bytes(n) + rest;
    assert b[..4] == U16Bytes(n / U16) + U16Bytes(n % U16);
    U16RoundTrip(n / U16, []);
    U16RoundTrip(n % U16, []);
    assert b[4..] == rest;
  }

  lemma BytesRoundTrip(s: Bytes, rest: Bytes)
    ensures PutBytes(s).outcome.Done? ==>
      |PutBytes(s).bytes| == BytesSize(s) && GetBytes(PutBytes(s).bytes + rest) == Ok((s, rest))
  {
    if |s| < U16 {
      assert PutBytes(s).bytes + rest == U16Bytes(|s|) + (s + rest);
      U16RoundTrip(|s|, s + rest);
      assert (s + rest)[..|s|] == s && (s + rest)[|s|..] == rest;
    }
  }

  lemma StringRoundTrip(s: ByteString, rest: Bytes)
    ensures PutBytes(s).outcome.Done? ==>
      |PutBytes(s).bytes| == BytesSize(s) && GetString(PutBytes(s).bytes + rest) == Ok((s, rest))
  {
    BytesRoundTrip(s, rest);
  }

  lemma IdRoundTrip(id: NonZeroU16, rest: Bytes)
    ensures GetNonZeroU16(U16Bytes(id) + rest) == Ok((id, rest))
  {
    U16RoundTrip(id, rest);
  }

  /** Strings carry a two byte length. */
  predicate Short(s: Bytes) { |s| < U16 }

  predicate ShortOpt(s: Option<Bytes>) { s.Some? ==> Short(s.value) }

  lemma {:induction false} NamesRoundTrip(acc: seq<ByteString>, fs: seq<ByteString>)
    requires PutNames(fs).outcome.Done?
    ensures |PutNames(fs).bytes| == NamesSize(fs)
    ensures GetNames(acc, PutNames(fs).bytes) == Ok(acc + fs)
    decreases |fs|
  {
    hide GetString, PutBytes;
    if fs == [] {
      assert acc + fs == acc;
    } else {
      StringRoundTrip(fs[0], PutNames(fs[1..]).bytes);
      NamesRoundTrip(acc + [fs[0]], fs[1..]);
      assert acc + [fs[0]] + fs[1..] == acc + fs;
    }
  }

  lemma {:induction false} NamesDone(fs: seq<ByteString>)
    ensures PutNames(fs).outcome.Done? <==> forall i :: 0 <= i < |fs| ==> Short(fs[i])
  {
    if fs != [] {
      NamesDone(fs[1..]);
      assert fs == [fs[0]] + fs[1..];
    }
  }

  // ---------------------------------------------------------------- variable byte integers

  /** Number of groups of seven bits. */
  function Groups(n: nat): (k: nat)
    ensures 1 <= k
  {
    if n < 128 then 1 else 1 + Groups(n / 128)
  }

  /** `var_int_len`: four widths up to the largest value that can be written. */
  function VarIntLen(n: nat): (k: nat)
    ensures 1 <= k
    ensures k <= 4 <==> n <= MaxVarInt
  {
    if n <= 127 then 1
    else if n <= 16_383 then 2
    else if n <= 2_097_151 then 3
    else if n <= MaxVarInt then 4
    else 4 + Groups(n / 268_435_456)
  }

  lemma VarIntLenIsGroups(n: nat)
    ensures VarIntLen(n) == Groups(n)
  {
    var a, b, c, d := n / 128, n / 16_384, n / 2_097_152, n / 268_435_456;
    assert a / 128 == b && b / 128 == c && c / 128 == d;
    assert n >= 128 ==> Groups(n) == 1 + Groups(a);
    assert a >= 128 ==> Groups(a) == 1 + Groups(b);
    assert b >= 128 ==> Groups(b) == 1 + Groups(c);
    assert c >= 128 ==> Groups(c) == 1 + Groups(d);
  }

  lemma VarIntDigits(n: nat)
    ensures n == n % 128 + n / 128 * 128
    ensures n <= 16_383 ==> n / 128 < 128
    ensures n == n % 128 + n / 128 % 128 * 128 + n / 16_384 * 16_384
    ensures n <= 2_097_151 ==> n / 16_384 < 128
    ensures n == n % 128 + n / 128 % 128 * 128 + n / 16_384 % 128 * 16_384 + n / 2_097_152 * 2_097_152
    ensures n <= MaxVarInt ==> n / 2_097_152 < 128
  {
    assert n / 128 / 128 == n / 16_384;
    assert n / 16_384 / 128 == n / 2_097_152;
  }

  lemma GetVarIntByte(b: byte, rest: Bytes, k: nat, len: nat)
    requires k < 4
    ensures b < 128 ==> GetVarIntFrom([b] + rest, k, len) == Ok((len + Shifted(b, k), rest))
    ensures b >= 128 && k < 3 ==>
      GetVarIntFrom([b] + rest, k, len) == GetVarIntFrom(rest, k + 1, len + Shifted(b - 128, k))
  {
    assert ([b] + rest)[1..] == rest;
  }

  type Digit = x: nat | x < 128

  lemma Read1(a: Digit, rest: Bytes)
    ensures GetVarInt([a] + rest) == Ok((a, rest))
  {
    GetVarIntByte(a, rest, 0, 0);
  }

  lemma Read2(a: Digit, b: Digit, rest: Bytes)
    ensures GetVarInt([a + 128, b] + rest) == Ok((a + b * 128, rest))
  {
    GetVarIntByte(a + 128, [b] + rest, 0, 0);
    GetVarIntByte(b, rest, 1, a);
    assert [a + 128, b] + rest == [a + 128] + ([b] + rest);
  }

  lemma Read3(a: Digit, b: Digit, c: Digit, rest: Bytes)
    ensures GetVarInt([a + 128, b + 128, c] + rest) == Ok((a + b * 128 + c * 16_384, rest))
  {
    GetVarIntByte(a + 128, [b + 128, c] + rest, 0, 0);
    GetVarIntByte(b + 128, [c] + rest, 1, a);
    GetVarIntByte(c, rest, 2, a + b * 128);
    assert [a + 128, b + 128, c] + rest == [a + 128] + ([b + 128, c] + rest);
    assert [b + 128, c] + rest == [b + 128] + ([c] + rest);
  }

  lemma Read4(a: Digit, b: Digit, c: Digit, d: Digit, rest: Bytes)
    ensures GetVarInt([a + 128, b + 128, c + 128, d] + rest) == Ok((a + b * 128 + c * 16_384 + d * 2_097_152, rest))
  {
    hide GetVarIntFrom;
    GetVarIntByte(a + 128, [b + 128, c + 128, d] + rest, 0, 0);
    GetVarIntByte(b + 128, [c + 128, d] + rest, 1, a);
    GetVarIntByte(c + 128, [d] + rest, 2, a + b * 128);
    GetVarIntByte(d, rest, 3, a + b * 128 + c * 16_384);
    assert [a + 128, b + 128, c + 128, d] + rest == [a + 128] + ([b + 128, c + 128, d] + rest);
    assert [b + 128, c + 128, d] + rest == [b + 128] + ([c + 128, d] + rest);
    assert [c + 128, d] + rest == [c + 128] + ([d] + rest);
  }

  /** Writing takes `VarIntLen` bytes, and reading them back gives the value, whatever follows. */
  lemma VarIntRoundTrip(n: nat, rest: Bytes)
    requires n <= MaxVarInt
    ensures PutVarInt(n).outcome.Done? && |PutVarInt(n).bytes| == VarIntLen(n)
    ensures GetVarInt(PutVarInt(n).bytes + rest) == Ok((n, rest))
  {
    VarIntDigits(n);
    hide GetVarInt;
    if n <= 127 {
      Read1(n, rest);
    } else if n <= 16_383 {
      Read2(n % 128, n / 128, rest);
    } else if n <= 2_097_151 {
      Read3(n % 128, n / 128 % 128, n / 16_384, rest);
    } else {
      Read4(n % 128, n / 128 % 128, n / 16_384 % 128, n / 2_097_152, rest);
    }
  }

  lemma VarIntPanics(n: nat)
    ensures PutVarInt(n).outcome.Done? <==> n <= MaxVarInt
  {
  }

  /** `var_int_len_from_size`. */
  function VarIntLenFromSize(val: nat): int
  {
    var res := val - VarIntLen(val) + 1;
    val - (if res < 0 then 0 else VarIntLen(res))
  }

  /** It inverts `len + var_int_len(len)`, also where adding the prefix crosses a width. */
  lemma FromSizeInverts(len: nat)
    requires len <= MaxVarInt
    ensures VarIntLenFromSize(len + VarIntLen(len)) == len
  {
    var val := len + VarIntLen(len);
    if val > MaxVarInt {
      assert Groups(val / 268_435_456) == 1;
    }
  }

  // ---------------------------------------------------------------- the tables

  /** Position of the highest set bit; `leading_zeros` is the word width minus this. */
  function BitLen(n: nat): nat { if n == 0 then 0 else 1 + BitLen(n / 2) }

  const Map32: seq<nat> := [
    5, 5, 5, 5, 4, 4, 4, 4, 4, 4, 4, 3, 3, 3, 3, 3, 3, 3, 2, 2, 2, 2, 2, 2, 2, 1, 1, 1, 1,
    1, 1, 1, 1]

  /** Groups of seven needed for `bits` bits. */
  function GroupsFor(bits: nat): nat { if bits == 0 then 1 else (bits + 6) / 7 }

  lemma {:induction false} BitLenAtMost(n: nat, k: nat)
    requires n < Power2(k)
    ensures BitLen(n) <= k
  {
    if n != 0 {
      BitLenAtMost(n / 2, k - 1);
    }
  }

  function Power2(k: nat): nat { if k == 0 then 1 else 2 * Power2(k - 1) }

  lemma {:induction false} Power2Add(j: nat, k: nat)
    ensures Power2(j + k) == Power2(j) * Power2(k)
  {
    if j != 0 {
      Power2Add(j - 1, k);
    }
  }

  lemma WordSize()
    ensures Power2(32) == U32
  {
    assert Power2(4) == 16;
    Power2Add(4, 4);
    Power2Add(8, 8);
    Power2Add(16, 16);
  }

  lemma {:induction false} GroupsOfBits(n: nat)
    ensures Groups(n) == GroupsFor(BitLen(n))
  {
    if n < 128 {
      BitLenAtMost(n, 7) by { assert Power2(7) == 128; }
    } else {
      GroupsOfBits(n / 128);
      BitLenOf128(n);
    }
  }

  lemma BitLenOf128(n: nat)
    requires n >= 128
    ensures BitLen(n) == 7 + BitLen(n / 128) && BitLen(n / 128) > 0
  {
    var a, b, c, d, e, f := n / 2, n / 4, n / 8, n / 16, n / 32, n / 64;
    assert a / 2 == b && b / 2 == c && c / 2 == d && d / 2 == e && e / 2 == f && f / 2 == n / 128;
    assert BitLen(n) == 1 + BitLen(a) && BitLen(a) == 1 + BitLen(b) && BitLen(b) == 1 + BitLen(c);
    assert BitLen(c) == 1 + BitLen(d) && BitLen(d) == 1 + BitLen(e) && BitLen(e) == 1 + BitLen(f);
  }

  /** `var_int_len_u32`: the table lookup by leading zeros gives the number of groups of every `u32`. */
  lemma Table32(n: U32Value)
    ensures BitLen(n) <= 32 && Map32[32 - BitLen(n)] == VarIntLen(n)
  {
    WordSize();
    BitLenAtMost(n, 32);
    GroupsOfBits(n);
    VarIntLenIsGroups(n);
    assert forall z :: 0 <= z < 33 ==> Map32[z] == GroupsFor(32 - z);
  }

  /** The last 33 entries of the 64-bit table are the 32-bit table. */
  const Map64: seq<nat> := High32 + Map32

  const High32: seq<nat> := [
    10, 9, 9, 9, 9, 9, 9, 9, 8, 8, 8, 8, 8, 8, 8, 7, 7, 7, 7, 7, 7, 7, 6, 6, 6, 6, 6, 6, 6, 5, 5, 5]

  lemma Map64Groups(z: nat)
    requires z <= 64
    ensures |Map64| == 65 && Map64[z] == GroupsFor(64 - z)
  {
    assert forall k :: 0 <= k < 32 ==> High32[k] == GroupsFor(64 - k);
    assert forall k :: 0 <= k < 33 ==> Map32[k] == GroupsFor(32 - k);
  }

  /** `var_int_len`: likewise for every 64-bit `usize`. */
  lemma Table64(n: nat)
    requires n < USIZE
    ensures BitLen(n) <= 64 && |Map64| == 65 && Map64[64 - BitLen(n)] == VarIntLen(n)
  {
    hide VarIntLen, Groups, GroupsFor, BitLen, Map64;
    WordSize();
    Power2Add(32, 32);
    BitLenAtMost(n, 64);
    GroupsOfBits(n);
    VarIntLenIsGroups(n);
    Map64Groups(64 - BitLen(n));
  }
}
