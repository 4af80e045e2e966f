/** Protocol constants and the quality of service (src/types.rs). */
module Types {
  import opened Prelude
  import opened Wire

  datatype QoS = AtMostOnce | AtLeastOnce | ExactlyOnce

  function QosByte(q: QoS): byte
  {
    match q
    case AtMostOnce => 0
    case AtLeastOnce => 1
    case ExactlyOnce => 2
  }

  function QosFrom(b: byte): Result<QoS, DecodeError>
  {
    if b == 0 then Ok(AtMostOnce)
    else if b == 1 then Ok(AtLeastOnce)
    else if b == 2 then Ok(ExactlyOnce)
    else Err(DecodeError.MalformedPacket)
  }

  const CONNECT: byte := 0x10
  const CONNACK: byte := 0x20
  const PUBLISH_START: byte := 0x30
  const PUBLISH_END: byte := 0x3F
  const PUBACK: byte := 0x40
  const PUBREC: byte := 0x50
  const PUBREL: byte := 0x62
  const PUBCOMP: byte := 0x70
  const SUBSCRIBE: byte := 0x82
  const SUBACK: byte := 0x90
  const UNSUBSCRIBE: byte := 0xA2
  const UNSUBACK: byte := 0xB0
  const PINGREQ: byte := 0xC0
  const PINGRESP: byte := 0xD0
  const DISCONNECT: byte := 0xE0

  function Flag(b: bool): byte { if b then 1 else 0 }

  /** Bit `k` of a byte. */
  predicate Bit(b: byte, weight: nat)
    requires weight > 0
  {
    b / weight % 2 == 1
  }

  /** First byte of a PUBLISH: `dup`, QoS and `retain` in the low four bits. */
  function PublishByte(dup: bool, qos: QoS, retain: bool): byte
  {
    PUBLISH_START + Flag(dup) * 8 + QosByte(qos) * 2 + Flag(retain)
  }

  lemma PublishByteBits(dup: bool, qos: QoS, retain: bool)
    ensures var b := PublishByte(dup, qos, retain);
      && PUBLISH_START <= b <= PUBLISH_END
      && Bit(b, 8) == dup && Bit(b, 1) == retain && QosFrom(b / 2 % 4) == Ok(qos)
  {
  }
}
