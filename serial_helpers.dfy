/** The device's serial writers for the small device-to-host packets, the
    big-endian 16-bit read, and the shared receive-buffer size. The writers
    are the byte sequences their `Serial.write` calls put on the wire, in
    order. */
module SerialHelpers {
  import opened Bytes
  import opened Config

  /** The shared text buffer holds 64 bytes; one is kept for the NUL. */
  const BUFFER_SIZE: nat := 64
  const NUMBER_OF_CHARS_TO_POSSIBLY_RECEIVE: nat := BUFFER_SIZE - 1

  /** `sendReadyForNextCommandPacket`: two padding bytes, then ready. */
  function ReadyPacket(): seq<byte>
  {
    [CMD_PADDING_MARKER, CMD_PADDING_MARKER, CMD_READY_FOR_NEXT_COMMAND]
  }

  /** `sendKeyPacket` (identical in the serial helpers and the keyboard). */
  function KeyPacket(key: byte): seq<byte>
  {
    [KEY_START_MARKER, key, KeyChecksum(key), KEY_END_MARKER]
  }

  /** What `strlen` counts: the bytes of `message` before its first NUL. */
  function CString(message: seq<byte>): (r: seq<byte>)
    ensures |r| <= |message| && r == message[..|r|]
    ensures forall i :: 0 <= i < |r| ==> r[i] != 0
    ensures |r| < |message| ==> message[|r|] == 0
  {
    if message == [] || message[0] == 0 then []
    else [message[0]] + CString(message[1..])
  }

  /** The serial part of `sendDebugPacket`: nothing when serial debugging is
      off, else `FA`, the message's bytes up to its NUL, `FB`. */
  function DebugPacket(message: seq<byte>, enableDebugThroughSerial: bool): seq<byte>
  {
    if enableDebugThroughSerial then [DEBUG_START_MARKER] + CString(message) + [DEBUG_END_MARKER]
    else []
  }

  /** `serialReadUint16`: `(high << 8) | low` on 16 bits, i.e. big-endian. */
  function ReadUint16(high: byte, low: byte): (r: uint16)
    ensures r == Val(high) * 256 + Val(low)
  {
    (((high as bv16) << 8) | (low as bv16)) as int
  }

  /** Reading back the two bytes of `struct.pack('>H', n)` gives `n`, and
      the high byte is the one read first. */
  lemma ReadUint16OfBigEndian(n: uint16)
    ensures ReadUint16(Uint16BE(n)[0], Uint16BE(n)[1]) == n
  {
  }
}
