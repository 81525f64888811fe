/** What the host's decoder makes of the bytes the device's writers emit:
    every device packet, fed to a parser in IDLE, comes back as the packet it
    encodes, and so does any stream of ready, key and line packets. */
module Link {
  import opened Bytes
  import opened Config
  import opened Protocol
  import opened SerialHelpers
  import opened InputBuffer

  /** `FF FF FC` is ready, and neither padding byte returns anything. */
  lemma ReadyPacketParsed(p: Parser)
    requires p.state == Idle
    ensures Run(p, ReadyPacket()) == (p, [Ready])
  {
    assert ReadyPacket() == [CMD_PADDING_MARKER] + ([CMD_PADDING_MARKER] + [CMD_READY_FOR_NEXT_COMMAND]);
    RunQuiet(p, CMD_PADDING_MARKER, [CMD_PADDING_MARKER] + [CMD_READY_FOR_NEXT_COMMAND]);
    RunQuiet(p, CMD_PADDING_MARKER, [CMD_READY_FOR_NEXT_COMMAND]);
    RunLast(p, CMD_READY_FOR_NEXT_COMMAND);
  }

  /** `sendKeyPacket(k)` is decoded as key `k`, for every byte `k`. */
  lemma KeyPacketParsed(p: Parser, k: byte)
    requires p.state == Idle
    ensures Run(p, KeyPacket(k)).1 == [Key(k)]
    ensures Run(p, KeyPacket(k)).0.state == Idle
  {
    KeyRoundTrip(p, k);
  }

  /** With serial debugging on, a message without the end marker is decoded
      as exactly its bytes up to the NUL (after any leftover bytes the start
      marker flushes); with it off nothing reaches the wire. */
  lemma DebugPacketParsed(p: Parser, message: seq<byte>)
    requires p.state == Idle
    requires forall i :: 0 <= i < |CString(message)| ==> CString(message)[i] != DEBUG_END_MARKER
    ensures Run(p, DebugPacket(message, true)).1
            == (if |p.buffer| > 0 then [Debug(p.buffer)] else []) + [Debug(CString(message))]
    ensures Run(p, DebugPacket(message, true)).0 == p.(buffer := [])
    ensures DebugPacket(message, false) == []
  {
    DebugRoundTrip(p, CString(message));
  }

  /** An editor's text is never longer than a length byte can say, and is ASCII. */
  lemma EditorTextFits(e: Editor)
    requires EditorValid(e)
    ensures |e.text| < 256 && IsAscii(e.text)
  {
    assert forall i :: 0 <= i < |e.text| ==> Printable(e.text[i]);
  }

  /** `sendLine` for any state the editor can be in is decoded as that line. */
  lemma LinePacketParsed(p: Parser, e: Editor)
    requires p.state == Idle && EditorValid(e)
    ensures Run(p, LinePacket(e.text)).1 == [Line(e.text)]
    ensures Run(p, LinePacket(e.text)).0.state == Idle
  {
    EditorTextFits(e);
    LineRoundTrip(p, e.text);
  }

  /** The line "ls" goes out as `F8 02 6C 73 E5 F9`. */
  lemma LsLinePacket()
    ensures LinePacket([0x6C, 0x73]) == [0xF8, 0x02, 0x6C, 0x73, 0xE5, 0xF9]
  {
    assert XorAll([0x6C, 0x73]) == 0x1F by {
      assert [0x6C, 0x73][..1] == [0x6C];
      assert [0x6C][..0] == [];
    }
  }

  /** The packets the device sends in normal operation. */
  datatype DevicePacket = ReadyForNext | KeyPress(key: byte) | TypedLine(editor: Editor)

  predicate WellFormed(d: DevicePacket)
  {
    d.TypedLine? ==> EditorValid(d.editor)
  }

  function Encode(d: DevicePacket): seq<byte>
    requires WellFormed(d)
  {
    match d
    case ReadyForNext => ReadyPacket()
    case KeyPress(k) => KeyPacket(k)
    case TypedLine(e) => (EditorTextFits(e); LinePacket(e.text))
  }

  /** The packet the host should see for each device packet. */
  function Expected(d: DevicePacket): Packet
  {
    match d
    case ReadyForNext => Ready
    case KeyPress(k) => Key(k)
    case TypedLine(e) => Line(e.text)
  }

  /** The bytes of a stream of device packets, back to back. */
  function EncodeAll(ds: seq<DevicePacket>): seq<byte>
    requires forall i :: 0 <= i < |ds| ==> WellFormed(ds[i])
  {
    if ds == [] then [] else Encode(ds[0]) + EncodeAll(ds[1..])
  }

  function ExpectedAll(ds: seq<DevicePacket>): (r: seq<Packet>)
    ensures |r| == |ds|
    ensures forall i :: 0 <= i < |ds| ==> r[i] == Expected(ds[i])
  {
    if ds == [] then [] else [Expected(ds[0])] + ExpectedAll(ds[1..])
  }

  /** One device packet, fed in IDLE, returns its packet and ends in IDLE. */
  lemma OnePacket(p: Parser, d: DevicePacket)
    requires p.state == Idle && WellFormed(d)
    ensures Run(p, Encode(d)).1 == [Expected(d)]
    ensures Run(p, Encode(d)).0.state == Idle
  {
    match d
    case ReadyForNext => ReadyPacketParsed(p);
    case KeyPress(k) => KeyPacketParsed(p, k);
    case TypedLine(e) => LinePacketParsed(p, e);
  }

  /** Any stream of ready, key and line packets, fed to a parser in IDLE, is
      decoded packet for packet, in order, whatever the buffer held before. */
  lemma {:induction false} StreamRoundTrip(p: Parser, ds: seq<DevicePacket>)
    requires p.state == Idle
    requires forall i :: 0 <= i < |ds| ==> WellFormed(ds[i])
    ensures Run(p, EncodeAll(ds)).1 == ExpectedAll(ds)
    ensures Run(p, EncodeAll(ds)).0.state == Idle
    decreases |ds|
  {
    if ds != [] {
      OnePacket(p, ds[0]);
      var q := Run(p, Encode(ds[0])).0;
      RunAppend(p, Encode(ds[0]), EncodeAll(ds[1..]));
      StreamRoundTrip(q, ds[1..]);
    }
  }
}
