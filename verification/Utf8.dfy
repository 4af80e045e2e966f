/** What the decoder takes for UTF-8 is exactly the encodings of Unicode scalar values (section 3 of RFC 3629). */
module Utf8 {
  import opened Wire

  /** A Unicode scalar value: a code point that is not a surrogate. */
  type Scalar = c: nat | c < 0x11_0000 && !(0xD800 <= c < 0xE000) witness 0

  function Encoded(c: Scalar): Bytes
  {
    if c < 0x80 then [c]
    else if c < 0x800 then [0xC0 + c / 64, 0x80 + c % 64]
    else if c < 0x1_0000 then [0xE0 + c / 4096, 0x80 + c / 64 % 64, 0x80 + c % 64]
    else [0xF0 + c / 262_144, 0x80 + c / 4096 % 64, 0x80 + c / 64 % 64, 0x80 + c % 64]
  }

  function Text(cs: seq<Scalar>): Bytes { if cs == [] then [] else Encoded(cs[0]) + Text(cs[1..]) }

  lemma EncodedIsUtf8(c: Scalar, rest: Bytes)
    requires IsUtf8(rest)
    ensures IsUtf8(Encoded(c) + rest)
  {
    var s := Encoded(c) + rest;
    var n := |Encoded(c)|;
    assert s[n..] == rest;
    if 0x800 <= c < 0x1_0000 {
      assert c / 4096 == 0 ==> c / 64 % 64 >= 0x20;
      assert c / 4096 == 13 ==> c / 64 % 64 < 0x20;
    } else if c >= 0x1_0000 {
      assert c / 262_144 == 0 ==> c / 4096 % 64 >= 0x10;
      assert c / 262_144 == 4 ==> c / 4096 % 64 < 0x10;
    }
  }

  lemma {:induction false} TextIsUtf8(cs: seq<Scalar>)
    ensures IsUtf8(Text(cs))
  {
    if cs != [] {
      TextIsUtf8(cs[1..]);
      EncodedIsUtf8(cs[0], Text(cs[1..]));
    }
  }

  /** The scalar value at the front of well-formed bytes. */
  lemma FirstScalar(s: Bytes) returns (c: Scalar, rest: Bytes)
    requires s != [] && IsUtf8(s)
    ensures s == Encoded(c) + rest && IsUtf8(rest) && |rest| < |s|
  {
    if s[0] < 0x80 {
      c, rest := s[0], s[1..];
    } else if s[0] < 0xE0 {
      c, rest := Two(s[0], s[1]), s[2..];
      assert s == [s[0], s[1]] + rest;
    } else if s[0] < 0xF0 {
      c, rest := Three(s[0], s[1], s[2]), s[3..];
      assert s == [s[0], s[1], s[2]] + rest;
    } else {
      c, rest := Four(s[0], s[1], s[2], s[3]), s[4..];
      assert s == [s[0], s[1], s[2], s[3]] + rest;
    }
  }

  function Two(a: byte, b: byte): (c: Scalar)
    requires 0xC2 <= a < 0xE0 && Continuation(b)
    ensures Encoded(c) == [a, b]
  {
    (a - 0xC0) as int * 64 + (b - 0x80)
  }

  type Six = n: nat | n < 64

  lemma Digits(x: nat, y: Six, z: Six, w: Six)
    ensures var c := x * 262_144 + y * 4096 + z * 64 + w;
      c / 262_144 == x && c / 4096 % 64 == y && c / 64 % 64 == z && c % 64 == w && c / 4096 == x * 64 + y
  {
    var c := x * 262_144 + y * 4096 + z * 64 + w;
    assert c / 64 == x * 4096 + y * 64 + z;
    assert c / 4096 == x * 64 + y;
  }

  function Three(a: byte, b: byte, d: byte): (c: Scalar)
    requires 0xE0 <= a < 0xF0 && Continuation(b) && Continuation(d)
    requires (a == 0xE0 ==> b >= 0xA0) && (a == 0xED ==> b < 0xA0)
    ensures Encoded(c) == [a, b, d]
  {
    Digits(0, a - 0xE0, b - 0x80, d - 0x80);
    (a - 0xE0) as int * 4096 + (b - 0x80) as int * 64 + (d - 0x80)
  }

  function Four(a: byte, b: byte, d: byte, e: byte): (c: Scalar)
    requires 0xF0 <= a < 0xF5 && Continuation(b) && Continuation(d) && Continuation(e)
    requires (a == 0xF0 ==> b >= 0x90) && (a == 0xF4 ==> b < 0x90)
    ensures Encoded(c) == [a, b, d, e]
  {
    Digits(a - 0xF0, b - 0x80, d - 0x80, e - 0x80);
    (a - 0xF0) as int * 262_144 + (b - 0x80) as int * 4096 + (d - 0x80) as int * 64 + (e - 0x80)
  }

  lemma {:induction false} Utf8IsText(s: Bytes) returns (cs: seq<Scalar>)
    requires IsUtf8(s)
    ensures s == Text(cs)
    decreases |s|
  {
    hide IsUtf8;
    if s == [] {
      cs := [];
    } else {
      var c, rest := FirstScalar(s);
      var tail := Utf8IsText(rest);
      cs := [c] + tail;
      assert cs[1..] == tail;
    }
  }

  /** Bytes are accepted as a string exactly when they encode some sequence of scalar values. */
  lemma Utf8Exactly(s: Bytes)
    ensures IsUtf8(s) <==> exists cs: seq<Scalar> :: s == Text(cs)
  {
    hide IsUtf8, Text;
    if IsUtf8(s) { var cs := Utf8IsText(s); }
    forall cs: seq<Scalar> | s == Text(cs) ensures IsUtf8(s) { TextIsUtf8(cs); }
  }
}
