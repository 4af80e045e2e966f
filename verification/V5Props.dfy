/**
 User properties and reason strings of MQTT 5 packets under a size limit (`encoded_size_opt_props`,
 `encode_opt_props` in src/v5/codec/encode.rs, `ack_props` in src/v5/codec/packet/mod.rs).

 `encoded_size(limit)` decides which diagnostics to drop; `encode(size)` must recover that decision
 from the total size alone.
 */
module V5Props {
  import opened Prelude
  import opened Wire

  type UserProperty = (ByteString, ByteString)

  const USER: byte := 0x26
  const REASON_STRING: byte := 0x1F

  /** The droppable part of a packet. */
  datatype Diag = Diag(props: seq<UserProperty>, reason: Option<ByteString>)

  const NoDiag: Diag := Diag([], None)

  function PropSize(p: UserProperty): nat { 1 + BytesSize(p.0) + BytesSize(p.1) }

  function PropsSize(ps: seq<UserProperty>): nat
  {
    if ps == [] then 0 else PropSize(ps[0]) + PropsSize(ps[1..])
  }

  function ReasonSize(r: Option<ByteString>): nat { if r.Some? then 1 + BytesSize(r.value) else 0 }

  function DiagSize(d: Diag): nat { PropsSize(d.props) + ReasonSize(d.reason) }

  // ---------------------------------------------------------------- what fits

  /** Number of leading properties that fit into `limit`. */
  function Fitting(ps: seq<UserProperty>, limit: nat): (k: nat)
    ensures k <= |ps|
  {
    if ps == [] || PropSize(ps[0]) > limit then 0 else 1 + Fitting(ps[1..], limit - PropSize(ps[0]))
  }

  /** The diagnostics kept under a limit. */
  function Cut(d: Diag, limit: nat): Diag
  {
    var k := Fitting(d.props, limit);
    Diag(d.props[..k],
         if k == |d.props| && PropsSize(d.props) + ReasonSize(d.reason) <= limit then d.reason else None)
  }

  lemma {:induction false} FittingIsLongest(ps: seq<UserProperty>, limit: nat)
    ensures var k := Fitting(ps, limit);
      PropsSize(ps[..k]) <= limit && (k < |ps| ==> PropsSize(ps[..k + 1]) > limit)
  {
    if ps != [] && PropSize(ps[0]) <= limit {
      FittingIsLongest(ps[1..], limit - PropSize(ps[0]));
      var k := Fitting(ps[1..], limit - PropSize(ps[0]));
      assert ps[..k + 1][1..] == ps[1..][..k];
      if k < |ps[1..]| {
        assert ps[..k + 2][1..] == ps[1..][..k + 1];
      }
    } else if ps != [] {
      assert ps[..1][1..] == [];
    }
  }

  /**
   What should be kept of `d` in `room` bytes: the longest prefix of user properties that fits, and the
   reason string only if every user property was kept and it fits as well.
   */
  predicate LongestFitting(c: Diag, d: Diag, room: nat)
  {
    && c.props <= d.props && DiagSize(c) <= room
    && (c.props != d.props ==> PropsSize(d.props[..|c.props| + 1]) > room && c.reason == None)
    && (c.props == d.props && c.reason != d.reason ==> c.reason == None && DiagSize(d) > room)
  }

  /** `Cut` keeps that, and nothing else satisfies the description. */
  lemma CutKeepsLongestPrefix(d: Diag, limit: nat, c: Diag)
    ensures LongestFitting(c, d, limit) <==> c == Cut(d, limit)
  {
    var cut := Cut(d, limit);
    FittingIsLongest(d.props, limit);
    assert d.props[..|d.props|] == d.props;
    assert LongestFitting(cut, d, limit);
    if LongestFitting(c, d, limit) {
      if |c.props| < |cut.props| {
        PrefixSmaller(d.props, |c.props| + 1, |cut.props|);
      } else if |cut.props| < |c.props| {
        PrefixSmaller(d.props, |cut.props| + 1, |c.props|);
      }
      assert c.props == d.props[..|c.props|] && cut.props == d.props[..|cut.props|];
    }
  }

  lemma {:induction false} PrefixSmaller(ps: seq<UserProperty>, j: nat, k: nat)
    requires j <= k <= |ps|
    ensures PropsSize(ps[..j]) <= PropsSize(ps[..k])
  {
    if j != 0 {
      assert ps[..j][1..] == ps[1..][..j - 1] && ps[..k][1..] == ps[1..][..k - 1];
      PrefixSmaller(ps[1..], j - 1, k - 1);
    }
  }

  /** `encoded_size_opt_props`. */
  method EncodedSizeOptProps(d: Diag, limit: nat) returns (len: nat)
    ensures len == DiagSize(Cut(d, limit))
  {
    var left: nat := limit;
    len := 0;
    for i := 0 to |d.props|
      invariant len == PropsSize(d.props[..i]) && left == limit - len
      invariant Fitting(d.props, limit) == i + Fitting(d.props[i..], left)
    {
      assert d.props[i..][0] == d.props[i] && d.props[i..][1..] == d.props[i + 1..];
      var propLen := PropSize(d.props[i]);
      if propLen > left { return; }
      PropsSizeSnoc(d.props[..i], d.props[i]);
      assert d.props[..i + 1] == d.props[..i] + [d.props[i]];
      left := left - propLen;
      len := len + propLen;
    }
    assert d.props[..|d.props|] == d.props;
    if d.reason.Some? {
      var reasonLen := 1 + BytesSize(d.reason.value);
      if reasonLen <= left { len := len + reasonLen; }
    }
  }

  lemma {:induction false} PropsSizeSnoc(ps: seq<UserProperty>, p: UserProperty)
    ensures PropsSize(ps + [p]) == PropsSize(ps) + PropSize(p)
  {
    if ps == [] {
      assert ps + [p] == [p];
    } else {
      assert (ps + [p])[1..] == ps[1..] + [p];
      PropsSizeSnoc(ps[1..], p);
    }
  }

  // ---------------------------------------------------------------- writing

  function PutProp(p: UserProperty): Put { Write([USER]).Then(PutBytes(p.0)).Then(PutBytes(p.1)) }

  function PutReason(r: Option<ByteString>): Put
  {
    if r.Some? then Write([REASON_STRING]).Then(PutBytes(r.value)) else Write([])
  }

  /** All user properties, as `UserProperties::encode` writes them. */
  function PutProps(ps: seq<UserProperty>): Put
  {
    if ps == [] then Write([]) else PutProp(ps[0]).Then(PutProps(ps[1..]))
  }

  /** Everything, without looking at sizes. */
  function PutDiag(d: Diag): Put { PutProps(d.props).Then(PutReason(d.reason)) }

  /** `encode_opt_props`: writes what fits into `size`. */
  function PutOptProps(d: Diag, size: int): Put
    decreases |d.props|
  {
    if d.props == [] then
      if d.reason.Some? && |d.reason.value| < size then PutReason(d.reason) else Write([])
    else if PropSize(d.props[0]) > size then Write([])
    else PutProp(d.props[0]).Then(PutOptProps(d.(props := d.props[1..]), size - PropSize(d.props[0])))
  }

  lemma ThenAssoc(a: Put, b: Put, c: Put)
    ensures a.Then(b).Then(c) == a.Then(b.Then(c))
    ensures Write([]).Then(a) == a
    ensures a.outcome.Done? ==> a.Then(Write([])) == a
  {
    assert (a.bytes + b.bytes) + c.bytes == a.bytes + (b.bytes + c.bytes);
    assert [] + a.bytes == a.bytes && a.bytes + [] == a.bytes;
  }

  /** From the size of the kept diagnostics alone, the encoder writes exactly those. */
  lemma {:induction false} SizeDeterminesCut(d: Diag, limit: nat)
    ensures PutOptProps(d, DiagSize(Cut(d, limit))) == PutDiag(Cut(d, limit))
    decreases |d.props|
  {
    hide PutProp, PutBytes;
    var c := Cut(d, limit);
    if d.props == [] {
      ThenAssoc(PutReason(c.reason), Write([]), Write([]));
    } else if PropSize(d.props[0]) > limit {
      assert c == NoDiag;
      ThenAssoc(Write([]), Write([]), Write([]));
    } else {
      var d', limit' := d.(props := d.props[1..]), limit - PropSize(d.props[0]);
      var c' := Cut(d', limit');
      SizeDeterminesCut(d', limit');
      var k := Fitting(d'.props, limit');
      assert c.props == [d.props[0]] + c'.props;
      assert c.props[1..] == c'.props && c.reason == c'.reason;
      ThenAssoc(PutProp(d.props[0]), PutProps(c'.props), PutReason(c.reason));
    }
  }

  /** `encode_opt_props` as the loop over properties. */
  method EncodeOptProps(d: Diag, size: int) returns (r: Put)
    ensures r == PutOptProps(d, size)
  {
    hide PutProp, PutReason;
    r := Write([]);
    var left := size;
    ThenAssoc(PutOptProps(d, size), Write([]), Write([]));
    assert d.props[0..] == d.props;
    for i := 0 to |d.props|
      invariant r.outcome.Done?
      invariant PutOptProps(d, size) == r.Then(PutOptProps(d.(props := d.props[i..]), left))
    {
      ghost var rest := d.(props := d.props[i..]);
      assert rest.props[0] == d.props[i] && rest.props[1..] == d.props[i + 1..];
      var propLen := PropSize(d.props[i]);
      ThenAssoc(r, Write([]), Write([]));
      if propLen > left { return; }
      left := left - propLen;
      ThenAssoc(r, PutProp(d.props[i]), PutOptProps(d.(props := d.props[i + 1..]), left));
      r := r.Then(PutProp(d.props[i]));
      if !r.outcome.Done? { return; }
    }
    assert d.props[|d.props|..] == [];
    ThenAssoc(r, Write([]), Write([]));
    if d.reason.Some? && |d.reason.value| < left {
      r := r.Then(PutReason(d.reason));
    }
  }

  // ---------------------------------------------------------------- reading

  /** The properties still in `src`, after those in `acc`. */
  function ParseDiag(acc: Diag, src: Bytes): Result<Diag, DecodeError>
    decreases |src|
  {
    if src == [] then Ok(acc)
    else if src[0] == REASON_STRING then
      if acc.reason.Some? then Err(DecodeError.MalformedPacket)
      else
        var (s, rest) :- GetString(src[1..]);
        ParseDiag(acc.(reason := Some(s)), rest)
    else if src[0] == USER then
      var (key, rest) :- GetString(src[1..]);
      var (val, rest') :- GetString(rest);
      ParseDiag(acc.(props := acc.props + [(key, val)]), rest')
    else Err(DecodeError.MalformedPacket)
  }

  /** The loop of `ack_props::decode`. */
  method DecodeDiag(src: Bytes) returns (r: Result<Diag, DecodeError>)
    ensures r == ParseDiag(NoDiag, src)
  {
    hide GetString;
    var acc, cur: Bytes := NoDiag, src;
    while cur != []
      invariant ParseDiag(NoDiag, src) == ParseDiag(acc, cur)
      decreases |cur|
    {
      var id := cur[0];
      var first := GetString(cur[1..]);
      if id == REASON_STRING {
        if acc.reason.Some? { return Err(DecodeError.MalformedPacket); }
        if first.Err? { return Err(first.error); }
        acc, cur := acc.(reason := Some(first.value.0)), first.value.1;
      } else if id == USER {
        if first.Err? { return Err(first.error); }
        var second := GetString(first.value.1);
        if second.Err? { return Err(second.error); }
        acc, cur := acc.(props := acc.props + [(first.value.0, second.value.0)]), second.value.1;
      } else {
        return Err(DecodeError.MalformedPacket);
      }
    }
    return Ok(acc);
  }

  /** One user property at the front: its size, and reading it. */
  lemma PropRoundTrip(p: UserProperty, rest: Bytes)
    requires PutProp(p).outcome.Done?
    ensures |PutProp(p).bytes| == PropSize(p)
    ensures var src := PutProp(p).bytes + rest;
      && src[0] == USER && GetString(src[1..]).Ok? && GetString(src[1..]).value.0 == p.0
      && GetString(GetString(src[1..]).value.1) == Ok((p.1, rest))
  {
    hide GetString, PutBytes;
    var val := PutBytes(p.1).bytes + rest;
    StringRoundTrip(p.0, val);
    StringRoundTrip(p.1, rest);
    var src := PutProp(p).bytes + rest;
    assert src == [USER] + (PutBytes(p.0).bytes + val);
    assert src[1..] == PutBytes(p.0).bytes + val;
  }

  lemma ReasonRoundTrip(r: Option<ByteString>)
    requires PutReason(r).outcome.Done?
    ensures |PutReason(r).bytes| == ReasonSize(r)
    ensures r.Some? ==> var src := PutReason(r).bytes;
      src != [] && src[0] == REASON_STRING && GetString(src[1..]) == Ok((r.value, []))
  {
    hide GetString, PutBytes;
    if r.Some? {
      StringRoundTrip(r.value, []);
      assert PutBytes(r.value).bytes + [] == PutBytes(r.value).bytes;
      assert PutReason(r).bytes[1..] == PutBytes(r.value).bytes;
    }
  }

  /** Written diagnostics take their size and are read back. */
  lemma {:induction false} DiagRoundTrip(acc: seq<UserProperty>, d: Diag)
    requires PutDiag(d).outcome.Done?
    ensures |PutDiag(d).bytes| == DiagSize(d)
    ensures ParseDiag(Diag(acc, None), PutDiag(d).bytes) == Ok(Diag(acc + d.props, d.reason))
    decreases |d.props|
  {
    hide GetString, PutBytes, PutProp, PutReason;
    if d.props == [] {
      ThenAssoc(PutReason(d.reason), Write([]), Write([]));
      ReasonRoundTrip(d.reason);
      NoReason(d.reason);
      assert acc + d.props == acc;
    } else {
      var p, d' := d.props[0], d.(props := d.props[1..]);
      ThenAssoc(PutProp(p), PutProps(d'.props), PutReason(d.reason));
      PropRoundTrip(p, PutDiag(d').bytes);
      DiagRoundTrip(acc + [p], d');
      assert acc + [p] + d'.props == acc + d.props;
    }
  }

  lemma NoReason(r: Option<ByteString>)
    ensures r.None? ==> PutReason(r) == Write([])
  {
  }

  // ---------------------------------------------------------------- acknowledgement properties

  /** The diagnostics an acknowledgement keeps when `limit` bytes are left for properties. */
  function AckCut(d: Diag, limit: nat): Diag { if limit < 4 then NoDiag else Cut(d, limit - 4) }

  /** `ack_props::encoded_size`. */
  function AckPropsSize(d: Diag, limit: nat): nat
  {
    if limit < 4 then 1
    else
      var len := DiagSize(Cut(d, limit - 4));
      VarIntLen(len) + len
  }

  /** `ack_props::encode`. */
  function PutAckProps(d: Diag, size: int): Put
  {
    if size == 1 then Write([0])
    else if size <= 0 then Put([], Panicked)   // `debug_assert!(size > 0)`
    else
      var n := VarIntLenFromSize(size);
      if n < 0 then Put([], Panicked) else PutVarInt(n).Then(PutOptProps(d, n))
  }

  /** `ack_props::decode`. */
  function GetAckProps(src: Bytes): Decoded<Diag>
  {
    var (props, rest) :- TakeProperties(src);
    var d :- ParseDiag(NoDiag, props);
    Ok((d, rest))
  }

  lemma EmptyDiag(d: Diag)
    ensures DiagSize(d) == 0 ==> d == NoDiag
  {
  }

  /** The encoder inverts the size: it writes the length and content of exactly the kept diagnostics. */
  lemma AckPropsWritten(d: Diag, limit: nat)
    requires DiagSize(AckCut(d, limit)) <= MaxVarInt
    ensures var c := AckCut(d, limit);
      && AckPropsSize(d, limit) == VarIntLen(DiagSize(c)) + DiagSize(c)
      && PutAckProps(d, AckPropsSize(d, limit)) == PutVarInt(DiagSize(c)).Then(PutDiag(c))
  {
    hide PutOptProps, PutProps, PutReason, Cut;
    var c := AckCut(d, limit);
    var len := DiagSize(c);
    EmptyDiag(c);
    NothingWritten();
    if len > 0 {
      FromSizeInverts(len);
      SizeDeterminesCut(d, limit - 4);
    }
  }

  lemma NothingWritten()
    ensures PutDiag(NoDiag) == Write([]) && PutVarInt(0).Then(Write([])) == Write([0]) && DiagSize(NoDiag) == 0
  {
  }

  /** Length-prefixed content at the front of the source. */
  lemma TakeRoundTrip(n: nat, content: Bytes, rest: Bytes)
    requires n == |content| && n <= MaxVarInt
    ensures PutVarInt(n).outcome.Done? && |PutVarInt(n).bytes| == VarIntLen(n)
    ensures TakeProperties(PutVarInt(n).bytes + content + rest) == Ok((content, rest))
  {
    hide PutVarInt, GetVarInt, VarIntLen;
    VarIntRoundTrip(n, content + rest);
    assert PutVarInt(n).bytes + content + rest == PutVarInt(n).bytes + (content + rest);
    assert (content + rest)[..n] == content && (content + rest)[n..] == rest;
  }

  /** Written acknowledgement properties have the computed size and decode to what was kept. */
  lemma AckPropsRoundTrip(d: Diag, limit: nat, rest: Bytes)
    requires DiagSize(AckCut(d, limit)) <= MaxVarInt
    requires PutAckProps(d, AckPropsSize(d, limit)).outcome.Done?
    ensures |PutAckProps(d, AckPropsSize(d, limit)).bytes| == AckPropsSize(d, limit)
    ensures GetAckProps(PutAckProps(d, AckPropsSize(d, limit)).bytes + rest) == Ok((AckCut(d, limit), rest))
  {
    hide PutVarInt, PutDiag, ParseDiag, TakeProperties, DiagSize, AckCut, PutAckProps, AckPropsSize, VarIntLen;
    var c := AckCut(d, limit);
    AckPropsWritten(d, limit);
    DiagRoundTrip([], c);
    assert [] + c.props == c.props;
    TakeRoundTrip(DiagSize(c), PutDiag(c).bytes, rest);
  }
}
