/** The SHTP frame-header parser. */
module BnoCommon {
  import opened Bytes
  import opened BnoConstants

  /** Bit 7 of header byte 1 is the continuation flag. */
  const ContinuationFlagMask: nat := 0x80

  /** `(lo as u16) + ((hi as u16) & !0x80) << 8`: the length field with the
      continuation flag cleared. Masking with `!0x80` keeps the low 7 bits of
      `hi`, and the sum never exceeds 0x7FFF, so no `u16` operation wraps. */
  function RawPacketLength(lo: Byte, hi: Byte): (raw: U16)
    ensures raw < 0x8000
    ensures raw == LeU16(lo, hi) % 0x8000
  {
    lo as int + (hi % ContinuationFlagMask) * 0x100
  }

  /** The total frame length (header included) declared by a header, or 0 for
      a packet shorter than the header or a declared length over the maximum. */
  function ParsePacketHeader(packet: seq<Byte>): (len: nat)
    ensures len <= MaxCargoDataLength
    ensures |packet| < PacketHeaderLength ==> len == 0
    ensures |packet| >= PacketHeaderLength ==>
      var raw := LeU16(packet[0], packet[1]) % 0x8000;
      (len == 0 <==> raw == 0 || raw > MaxCargoDataLength) &&
      (len != 0 ==> len == raw)
  {
    if |packet| < PacketHeaderLength then 0
    else
      var raw := RawPacketLength(packet[0], packet[1]);
      if raw > MaxCargoDataLength then 0 else raw
  }

  /** Setting or clearing the continuation flag does not change the length. */
  lemma ContinuationFlagIgnored(packet: seq<Byte>, flagged: Byte)
    requires |packet| >= PacketHeaderLength
    requires flagged % ContinuationFlagMask == packet[1] % ContinuationFlagMask
    ensures ParsePacketHeader(packet[1 := flagged]) == ParsePacketHeader(packet)
  {
  }

  /** Only the two length bytes matter; channel, sequence number and payload do not. */
  lemma OnlyLengthBytesMatter(p: seq<Byte>, q: seq<Byte>)
    requires |p| >= PacketHeaderLength && |q| >= PacketHeaderLength
    requires p[0] == q[0] && p[1] == q[1]
    ensures ParsePacketHeader(p) == ParsePacketHeader(q)
  {
  }

  /** A declared length of 1 to 3 bytes, shorter than the header itself, is
      returned unchanged: the parser has no minimum-length check. */
  lemma TinyLengthsAccepted(packet: seq<Byte>)
    requires |packet| >= PacketHeaderLength
    requires packet[1] == 0 && 1 <= packet[0] <= 3
    ensures ParsePacketHeader(packet) == packet[0]
  {
  }

  /** The all-ones header that the hub sometimes delivers reads as length 0. */
  lemma GarbageHeaderIsEmpty()
    ensures ParsePacketHeader([0xFF, 0xFF, 0xFF, 0xFF]) == 0
  {
  }
}
