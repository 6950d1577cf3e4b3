/** The 32-bit key `(remoteId << 16) | seqNum` under which the monitors file a
    message, and the message header that carries both halves. */
module MessageKeys {
  type uint16 = x: int | 0 <= x < 0x1_0000
  type Key = nat

  const MARKER: uint16 := 0xAA55
  const ACK_REMOTE_ID: uint16 := 0

  datatype Header = Header(marker: uint16, id: uint16, seqNum: uint16, length: uint16)

  // The two halves do not overlap, so the source's shift-and-or is a sum.
  function KeyOf(id: uint16, seqNum: uint16): Key {
    id * 0x1_0000 + seqNum
  }

  lemma KeyInjective(id: uint16, seqNum: uint16, id': uint16, seqNum': uint16)
    requires KeyOf(id, seqNum) == KeyOf(id', seqNum')
    ensures id == id' && seqNum == seqNum'
  {
  }
}
