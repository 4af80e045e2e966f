/**
 How integers, strings and lengths look on the wire (section 1.5 of MQTT 5.0), written out byte by byte, and
 that the primitive writers and readers keep to it.
 */
module Layout {
  import opened Prelude
  import opened Wire

  /** Most significant byte first. */
  function Big16(n: U16Value): (b: Bytes) ensures |b| == 2 { [n / 256, n % 256] }

  function Big32(n: U32Value): (b: Bytes)
    ensures |b| == 4
  {
    [n / 16_777_216, n / 65_536 % 256, n / 256 % 256, n % 256]
  }

  /** A string or a block of binary data: its length, then its bytes. */
  function Str(s: Bytes): Bytes
    requires |s| < 65_536
  {
    Big16(|s|) + s
  }

  function OptStr(s: Option<Bytes>): Bytes
    requires s.Some? ==> |s.value| < 65_536
  {
    if s.Some? then Str(s.value) else []
  }

  /** Groups of seven bits, least significant first; the top bit says that more follow. */
  function VarBytes(n: nat): Bytes
  {
    if n < 128 then [n] else [n % 128 + 128] + VarBytes(n / 128)
  }

  lemma U16Layout(n: U16Value)
    ensures U16Bytes(n) == Big16(n)
  {
  }

  lemma U32Layout(n: U32Value)
    ensures U32Bytes(n) == Big32(n)
  {
    var hi, lo := n / 65_536, n % 65_536;
    assert n == hi * 65_536 + lo;
    assert hi / 256 == n / 16_777_216;
    assert lo / 256 == n / 256 % 256;
    assert lo % 256 == n % 256;
  }

  lemma StrLayout(s: Bytes)
    ensures PutBytes(s) == if |s| < 65_536 then Put(Str(s), Done) else Put([], Failed(EncodeError.InvalidLength))
  {
  }

  /** `write_variable_length` writes the groups, and panics for a value that needs more than four. */
  lemma VarLayout(n: nat)
    ensures PutVarInt(n) == if n < 268_435_456 then Put(VarBytes(n), Done) else Put([], Panicked)
  {
    var a, b, c := n / 128, n / 16_384, n / 2_097_152;
    assert a / 128 == b && b / 128 == c;
    if n < 268_435_456 {
      assert c < 128;
      if n >= 128 {
        assert VarBytes(n) == [n % 128 + 128] + VarBytes(a);
        if a >= 128 {
          assert VarBytes(a) == [a % 128 + 128] + VarBytes(b);
          if b >= 128 {
            assert VarBytes(b) == [b % 128 + 128] + VarBytes(c);
          }
        }
      }
    }
  }

  // ---------------------------------------------------------------- reading

  lemma GetU16Is(src: Bytes, n: U16Value, rest: Bytes)
    ensures GetU16(src) == Ok((n, rest)) <==> src == Big16(n) + rest
    ensures GetU16(src).Err? ==> |src| < 2
  {
    if GetU16(src) == Ok((n, rest)) {
      assert src == src[..2] + src[2..];
    }
    if src == Big16(n) + rest { U16RoundTrip(n, rest); }
  }

  lemma GetBytesIs(src: Bytes, s: Bytes, rest: Bytes)
    ensures GetBytes(src) == Ok((s, rest)) <==> |s| < 65_536 && src == Str(s) + rest
  {
    if GetBytes(src) == Ok((s, rest)) {
      GetU16Is(src, |s|, src[2..]);
      assert src[2..] == s + rest;
      assert src == Str(s) + rest;
    }
    if |s| < 65_536 && src == Str(s) + rest {
      StrLayout(s);
      BytesRoundTrip(s, rest);
    }
  }

  lemma GetStringIs(src: Bytes, s: ByteString, rest: Bytes)
    ensures GetString(src) == Ok((s, rest)) <==> |s| < 65_536 && src == Str(s) + rest
  {
    hide GetBytes;
    GetBytesIs(src, s, rest);
    if GetBytes(src).Ok? {
      var (t, left) := GetBytes(src).value;
      GetBytesIs(src, t, left);
    }
  }

  /** The low seven bits. */
  function Low(b: byte): nat { b % 128 }

  /** What the reader of a variable byte integer accepts, and the two ways in which it refuses. */
  lemma GetVarIntIs(src: Bytes)
    ensures |src| >= 1 && src[0] < 128 ==> GetVarInt(src) == Ok((src[0], src[1..]))
    ensures |src| >= 2 && src[0] >= 128 && src[1] < 128 ==>
      GetVarInt(src) == Ok((Low(src[0]) + Low(src[1]) * 128, src[2..]))
    ensures |src| >= 3 && src[0] >= 128 && src[1] >= 128 && src[2] < 128 ==>
      GetVarInt(src) == Ok((Low(src[0]) + Low(src[1]) * 128 + Low(src[2]) * 16_384, src[3..]))
    ensures |src| >= 4 && src[0] >= 128 && src[1] >= 128 && src[2] >= 128 && src[3] < 128 ==>
      GetVarInt(src)
      == Ok((Low(src[0]) + Low(src[1]) * 128 + Low(src[2]) * 16_384 + Low(src[3]) * 2_097_152, src[4..]))
    ensures |src| >= 4 && src[0] >= 128 && src[1] >= 128 && src[2] >= 128 && src[3] >= 128 ==>
      GetVarInt(src) == Err(DecodeError.InvalidLength)
    ensures |src| < 4 && (forall i :: 0 <= i < |src| ==> src[i] >= 128) ==>
      GetVarInt(src) == Err(DecodeError.MalformedPacket)
  {
    if |src| >= 1 && src[0] < 128 {
      Read1(src[0], src[1..]);
      assert src == [src[0]] + src[1..];
    } else if |src| >= 2 && src[1] < 128 {
      Read2(src[0] - 128, src[1], src[2..]);
      assert src == [src[0] - 128 + 128, src[1]] + src[2..];
    } else if |src| >= 3 && src[2] < 128 {
      Read3(src[0] - 128, src[1] - 128, src[2], src[3..]);
      assert src == [src[0] - 128 + 128, src[1] - 128 + 128, src[2]] + src[3..];
    } else if |src| >= 4 && src[3] < 128 {
      Read4(src[0] - 128, src[1] - 128, src[2] - 128, src[3], src[4..]);
      assert src == [src[0] - 128 + 128, src[1] - 128 + 128, src[2] - 128 + 128, src[3]] + src[4..];
    } else {
      TooManyGroups(src);
    }
  }

  lemma TooManyGroups(src: Bytes)
    requires forall i :: 0 <= i < |src| && i < 4 ==> src[i] >= 128
    ensures GetVarInt(src) == Err(if |src| < 4 then DecodeError.MalformedPacket else DecodeError.InvalidLength)
  {
    var a := src;
    if |src| >= 1 {
      var b := src[1..];
      assert GetVarInt(src) == GetVarIntFrom(b, 1, Shifted(src[0] % 128, 0));
      if |src| >= 2 {
        var c, l1 := b[1..], Shifted(src[0] % 128, 0);
        assert b[0] == src[1];
        assert GetVarIntFrom(b, 1, l1) == GetVarIntFrom(c, 2, l1 + Shifted(b[0] % 128, 1));
        if |src| >= 3 {
          assert c[0] == src[2];
          if |src| >= 4 { assert c[1..][0] == src[3]; }
        }
      }
    }
  }

  lemma GetU32Is(src: Bytes, n: U32Value, rest: Bytes)
    ensures GetU32(src) == Ok((n, rest)) <==> src == Big32(n) + rest
  {
    if GetU32(src) == Ok((n, rest)) {
      assert src == src[..4] + src[4..];
      BigBytes(src[0], src[1], src[2], src[3]);
      assert src[..4] == [src[0], src[1], src[2], src[3]];
    }
    if src == Big32(n) + rest {
      U32Layout(n);
      U32RoundTrip(n, rest);
    }
  }

  lemma BigBytes(a: byte, b: byte, c: byte, d: byte)
    ensures var n := (a as int * 256 + b) * 65_536 + (c as int * 256 + d); n < U32 && Big32(n) == [a, b, c, d]
  {
    var n := (a as int * 256 + b) * 65_536 + (c as int * 256 + d);
    assert n / 256 == (a as int * 256 + b) * 256 + c;
    assert n / 65_536 == a as int * 256 + b;
    assert n / 16_777_216 == a;
  }

  /** Zero is not a packet id, an alias or an expiry interval, and a flag is 0 or 1. */
  lemma RefusedValues(rest: Bytes, b: byte)
    ensures GetNonZeroU16([0, 0] + rest) == Err(DecodeError.MalformedPacket)
    ensures GetNonZeroU32([0, 0, 0, 0] + rest) == Err(DecodeError.MalformedPacket)
    ensures GetBool([b] + rest)
         == if b == 0 then Ok((false, rest)) else if b == 1 then Ok((true, rest)) else Err(DecodeError.MalformedPacket)
    ensures GetU16([b]).Err? && GetU16([]).Err? && GetBool([]).Err? && GetU32([b, b, b]).Err?
  {
    assert ([b] + rest)[1..] == rest;
  }

  /** Bytes that are not UTF-8 are not a string. */
  lemma NotUtf8(s: Bytes, rest: Bytes)
    requires |s| < 65_536 && !IsUtf8(s)
    ensures GetString(Str(s) + rest) == Err(Utf8Error)
  {
    hide GetBytes, IsUtf8;
    GetBytesIs(Str(s) + rest, s, rest);
  }

  /** A block of properties is what its length says, or it is refused. */
  lemma TakeIs(n: nat, bytes: Bytes)
    requires n < 268_435_456
    ensures TakeProperties(VarBytes(n) + bytes)
         == if |bytes| < n then Err(DecodeError.InvalidLength) else Ok((bytes[..n], bytes[n..]))
  {
    hide PutVarInt, GetVarInt, VarBytes;
    VarLayout(n);
    VarIntRoundTrip(n, bytes);
  }
}
