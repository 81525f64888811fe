/** The host's packet decoder: a state machine fed one byte at a time that
    recognises ready, key, line, debug and padding bytes from the device.

    `Step` is the decoder as a function of the parser's state and one byte;
    `PacketParser` is the object the host holds, and each of its methods is
    proved to do exactly what `Step` says. The lemmas at the end are about
    `Step` and its iteration `Run`. */
module Protocol {
  import opened Bytes
  import opened Wrappers
  import opened Config

  datatype State =
    | Idle
    | KeyWaitData | KeyWaitChecksum | KeyWaitEnd
    | LineWaitLength | LineWaitData | LineWaitChecksum | LineWaitEnd
    | DebugWaitData

  /** The `reason` of an error packet (and the key it carried, for a bad key checksum). */
  datatype Reason =
    | KeyChecksumFail(key: byte)
    | KeyEndMarkerMissing
    | LineChecksumFail
    | LineEndMarkerMissing
    | LineDecodeFail

  /** What `feed` returns when it returns something. Line and debug payloads
      are kept as the received bytes. */
  datatype Packet =
    | Ready
    | Key(key: byte)
    | Line(data: seq<byte>)
    | Debug(message: seq<byte>)
    | Error(reason: Reason)
    | Unknown(value: byte, ascii: char)

  /** All fields of the parser. */
  datatype Parser = Parser(state: State, buffer: seq<byte>, expectedLength: byte, keyByte: byte, checksumByte: byte)

  const Initial: Parser := Parser(Idle, [], 0, 0, 0)

  /** `bytes.decode('ascii')` succeeds exactly when every byte is below 0x80. */
  predicate IsAscii(s: seq<byte>)
  {
    forall i :: 0 <= i < |s| ==> s[i] < 0x80
  }

  /** The `ascii` field of an unknown-byte packet. */
  function PrintableOrDot(b: byte): char
  {
    if 32 <= b <= 126 then (Val(b) as char) else '.'
  }

  /** `_handle_idle`. */
  function IdleStep(p: Parser, b: byte): (Parser, Option<Packet>)
  {
    if b == CMD_READY_FOR_NEXT_COMMAND then (p, Some(Ready))
    else if b == KEY_START_MARKER then (p.(state := KeyWaitData), None)
    else if b == LINE_START_MARKER then (p.(state := LineWaitLength), None)
    else if b == DEBUG_START_MARKER then
      (p.(state := DebugWaitData, buffer := []), if |p.buffer| > 0 then Some(Debug(p.buffer)) else None)
    else if b == CMD_PADDING_MARKER then (p, None)
    else (p, Some(Unknown(b, PrintableOrDot(b))))
  }

  /** `feed`: the new parser and the packet, if any. */
  function Step(p: Parser, b: byte): (Parser, Option<Packet>)
  {
    match p.state
    case Idle => IdleStep(p, b)
    case KeyWaitData => (p.(keyByte := b, state := KeyWaitChecksum), None)
    case KeyWaitChecksum => (p.(checksumByte := b, state := KeyWaitEnd), None)
    case KeyWaitEnd => (p.(state := Idle), Some(KeyOutcome(p, b)))
    case LineWaitLength =>
      (p.(expectedLength := b, buffer := [], state := if b == 0 then LineWaitChecksum else LineWaitData), None)
    case LineWaitData =>
      (p.(buffer := p.buffer + [b], state := if |p.buffer| + 1 >= Val(p.expectedLength) then LineWaitChecksum else LineWaitData), None)
    case LineWaitChecksum => (p.(checksumByte := b, state := LineWaitEnd), None)
    case LineWaitEnd => (p.(state := Idle), Some(LineOutcome(p, b)))
    case DebugWaitData =>
      if b == DEBUG_END_MARKER then (p.(state := Idle, buffer := []), Some(Debug(p.buffer)))
      else (p.(buffer := p.buffer + [b]), None)
  }

  /** The packet the byte after a key packet's checksum completes: the key
      when it is the terminator and the checksum matches, else an error. */
  function KeyOutcome(p: Parser, b: byte): Packet
  {
    if b != KEY_END_MARKER then Error(KeyEndMarkerMissing)
    else if p.checksumByte == KeyChecksum(p.keyByte) then Key(p.keyByte)
    else Error(KeyChecksumFail(p.keyByte))
  }

  /** The packet the byte after a line packet's checksum completes: the line
      when it is the terminator, the checksum matches and the data is ASCII,
      else the error for the first check that fails. */
  function LineOutcome(p: Parser, b: byte): Packet
  {
    if b != LINE_END_MARKER then Error(LineEndMarkerMissing)
    else if p.checksumByte != LineChecksum(p.expectedLength, p.buffer) then Error(LineChecksumFail)
    else if IsAscii(p.buffer) then Line(p.buffer)
    else Error(LineDecodeFail)
  }

  /** Feeding a whole byte sequence: the final parser and the packets returned, in order. */
  function Run(p: Parser, bs: seq<byte>): (Parser, seq<Packet>)
    decreases |bs|
  {
    if bs == [] then (p, []) else Then(Step(p, bs[0]).1, Run(Step(p, bs[0]).0, bs[1..]))
  }

  /** One byte's packet, if any, in front of what the rest returns. */
  function Then(out: Option<Packet>, rest: (Parser, seq<Packet>)): (Parser, seq<Packet>)
  {
    (rest.0, ToSeq(out) + rest.1)
  }

  class PacketParser {
    var state: State
    var buffer: seq<byte>
    var expectedLength: byte
    var keyByte: byte
    var checksumByte: byte

    function Model(): Parser
      reads this
    {
      Parser(state, buffer, expectedLength, keyByte, checksumByte)
    }

    constructor ()
      ensures Model() == Initial
    {
      state := Idle;
      buffer := [];
      expectedLength := 0;
      keyByte := 0;
      checksumByte := 0;
    }

    /** Back to IDLE with an empty buffer and zeroed fields, from any state. */
    method Reset()
      modifies this
      ensures Model() == Initial
    {
      state := Idle;
      buffer := [];
      expectedLength := 0;
      keyByte := 0;
      checksumByte := 0;
    }

    /** `LINE_START ^ expected_length`, then every buffered byte XOR-ed in. */
    method ExpectedLineChecksum() returns (checksum: byte)
      ensures checksum == LineChecksum(expectedLength, buffer)
    {
      checksum := LINE_START_MARKER ^ expectedLength;
      for i := 0 to |buffer|
        invariant checksum == LINE_START_MARKER ^ expectedLength ^ XorAll(buffer[..i])
      {
        assert buffer[..i + 1][..i] == buffer[..i];
        checksum := checksum ^ buffer[i];
      }
      assert buffer[..|buffer|] == buffer;
    }

    method Feed(b: byte) returns (packet: Option<Packet>)
      modifies this
      ensures (Model(), packet) == Step(old(Model()), b)
    {
      if state == Idle {
        packet := HandleIdle(b);
      } else if state == KeyWaitData {
        keyByte := b;
        state := KeyWaitChecksum;
        packet := None;
      } else if state == KeyWaitChecksum {
        checksumByte := b;
        state := KeyWaitEnd;
        packet := None;
      } else if state == KeyWaitEnd {
        packet := FinishKey(b);
      } else if state == LineWaitLength {
        expectedLength := b;
        buffer := [];
        if expectedLength == 0 {
          state := LineWaitChecksum;
        } else {
          state := LineWaitData;
        }
        packet := None;
      } else if state == LineWaitData {
        buffer := buffer + [b];
        if |buffer| >= Val(expectedLength) {
          state := LineWaitChecksum;
        }
        packet := None;
      } else if state == LineWaitChecksum {
        checksumByte := b;
        state := LineWaitEnd;
        packet := None;
      } else if state == LineWaitEnd {
        packet := FinishLine(b);
      } else {
        if b == DEBUG_END_MARKER {
          state := Idle;
          var message := buffer;
          buffer := [];
          packet := Some(Debug(message));
        } else {
          buffer := buffer + [b];
          packet := None;
        }
      }
    }

    /** The `KEY_WAIT_END` branch of `feed`. */
    method FinishKey(b: byte) returns (packet: Option<Packet>)
      modifies this
      ensures Model() == old(Model()).(state := Idle) && packet == Some(KeyOutcome(old(Model()), b))
    {
      state := Idle;
      if b == KEY_END_MARKER {
        var expected := KEY_START_MARKER ^ keyByte;
        if checksumByte == expected {
          packet := Some(Key(keyByte));
        } else {
          packet := Some(Error(KeyChecksumFail(keyByte)));
        }
      } else {
        packet := Some(Error(KeyEndMarkerMissing));
      }
    }

    /** The `LINE_WAIT_END` branch of `feed`. */
    method FinishLine(b: byte) returns (packet: Option<Packet>)
      modifies this
      ensures Model() == old(Model()).(state := Idle) && packet == Some(LineOutcome(old(Model()), b))
    {
      state := Idle;
      if b == LINE_END_MARKER {
        var expected := ExpectedLineChecksum();
        if checksumByte == expected {
          if IsAscii(buffer) {
            packet := Some(Line(buffer));
          } else {
            packet := Some(Error(LineDecodeFail));
          }
        } else {
          packet := Some(Error(LineChecksumFail));
        }
      } else {
        packet := Some(Error(LineEndMarkerMissing));
      }
    }

    method HandleIdle(b: byte) returns (packet: Option<Packet>)
      modifies this
      ensures (Model(), packet) == IdleStep(old(Model()), b)
    {
      if b == CMD_READY_FOR_NEXT_COMMAND {
        packet := Some(Ready);
      } else if b == KEY_START_MARKER {
        state := KeyWaitData;
        packet := None;
      } else if b == LINE_START_MARKER {
        state := LineWaitLength;
        packet := None;
      } else if b == DEBUG_START_MARKER {
        state := DebugWaitData;
        if |buffer| > 0 {
          var message := buffer;
          buffer := [];
          packet := Some(Debug(message));
        } else {
          buffer := [];
          packet := None;
        }
      } else if b == CMD_PADDING_MARKER {
        packet := None;
      } else {
        var ascii := if 32 <= b <= 126 then (Val(b) as char) else '.';
        packet := Some(Unknown(b, ascii));
      }
    }
  }

  // ---------------------------------------------------------------------
  // Properties of the decoder

  /** In IDLE: `FC` is ready, `FF` is nothing, any other non-start byte is an
      unknown packet carrying it; in all three cases the parser is unchanged. */
  lemma IdleSingleBytes(p: Parser, b: byte)
    requires p.state == Idle
    ensures Step(p, CMD_READY_FOR_NEXT_COMMAND) == (p, Some(Ready))
    ensures Step(p, CMD_PADDING_MARKER) == (p, None)
    ensures b !in {CMD_READY_FOR_NEXT_COMMAND, KEY_START_MARKER, LINE_START_MARKER, DEBUG_START_MARKER, CMD_PADDING_MARKER}
            ==> Step(p, b) == (p, Some(Unknown(b, PrintableOrDot(b))))
  {
  }

  /** Feeding one byte, then the rest. */
  lemma RunCons(p: Parser, b: byte, bs: seq<byte>)
    ensures Run(p, [b] + bs) == Then(Step(p, b).1, Run(Step(p, b).0, bs))
  {
    assert ([b] + bs)[0] == b;
    assert ([b] + bs)[1..] == bs;
  }

  /** A byte that returns nothing contributes nothing to the output. */
  lemma RunQuiet(p: Parser, b: byte, bs: seq<byte>)
    requires Step(p, b).1 == None
    ensures Run(p, [b] + bs) == Run(Step(p, b).0, bs)
  {
    RunCons(p, b, bs);
    var rest := Run(Step(p, b).0, bs);
    assert ToSeq(Step(p, b).1) + rest.1 == rest.1;
  }

  /** The last byte's packet is the whole output. */
  lemma RunLast(p: Parser, b: byte)
    ensures Run(p, [b]) == (Step(p, b).0, ToSeq(Step(p, b).1))
  {
    assert [b][1..] == [];
    assert Run(Step(p, b).0, []) == (Step(p, b).0, []);
    assert ToSeq(Step(p, b).1) + [] == ToSeq(Step(p, b).1);
  }

  /** Feeding bytes in two pieces is feeding them in one. */
  lemma {:induction false} RunAppend(p: Parser, a: seq<byte>, b: seq<byte>)
    ensures Run(p, a + b).0 == Run(Run(p, a).0, b).0
    ensures Run(p, a + b).1 == Run(p, a).1 + Run(Run(p, a).0, b).1
    decreases |a|
  {
    if a == [] {
      assert a + b == b;
    } else {
      var q := Step(p, a[0]);
      assert a == [a[0]] + a[1..];
      assert a + b == [a[0]] + (a[1..] + b);
      RunCons(p, a[0], a[1..]);
      RunCons(p, a[0], a[1..] + b);
      RunAppend(q.0, a[1..], b);
      AppendAssoc(ToSeq(q.1), Run(q.0, a[1..]).1, Run(Run(q.0, a[1..]).0, b).1);
    }
  }

  /** A key packet returns to IDLE on its fourth byte, whatever the bytes, with
      exactly one packet: the key when the terminator and checksum are right,
      otherwise the error naming what was wrong. Data and checksum bytes may be
      any value, marker values included. */
  lemma KeyPacketOutcome(p: Parser, k: byte, c: byte, e: byte)
    requires p.state == Idle
    ensures Run(p, [KEY_START_MARKER, k, c, e]).0 == p.(keyByte := k, checksumByte := c)
    ensures Run(p, [KEY_START_MARKER, k, c, e]).1
            == [if e != KEY_END_MARKER then Error(KeyEndMarkerMissing)
                else if c == KeyChecksum(k) then Key(k)
                else Error(KeyChecksumFail(k))]
  {
    var p1 := p.(state := KeyWaitData);
    var p2 := p1.(keyByte := k, state := KeyWaitChecksum);
    var p3 := p2.(checksumByte := c, state := KeyWaitEnd);
    assert [KEY_START_MARKER, k, c, e] == [KEY_START_MARKER] + ([k] + ([c] + [e]));
    RunQuiet(p, KEY_START_MARKER, [k] + ([c] + [e]));
    RunQuiet(p1, k, [c] + [e]);
    RunQuiet(p2, c, [e]);
    RunLast(p3, e);
  }

  /** Feeding `FD, k, FD^k, FE` in IDLE returns key `k`, for every byte `k`. */
  lemma KeyRoundTrip(p: Parser, k: byte)
    requires p.state == Idle
    ensures Run(p, [KEY_START_MARKER, k, KeyChecksum(k), KEY_END_MARKER])
            == (p.(keyByte := k, checksumByte := KeyChecksum(k)), [Key(k)])
  {
    KeyPacketOutcome(p, k, KeyChecksum(k), KEY_END_MARKER);
  }

  /** In the data state, bytes are appended to the buffer until it holds
      `expected_length` bytes; nothing is returned meanwhile. */
  lemma {:induction false} RunLineData(p: Parser, d: seq<byte>)
    requires p.state == LineWaitData
    requires d != [] && |p.buffer| + |d| == Val(p.expectedLength)
    ensures Run(p, d) == (p.(state := LineWaitChecksum, buffer := p.buffer + d), [])
    decreases |d|
  {
    var buf := p.buffer + [d[0]];
    var p1 := p.(buffer := buf, state := if |buf| >= Val(p.expectedLength) then LineWaitChecksum else LineWaitData);
    assert Step(p, d[0]) == (p1, None);
    assert [d[0]] + d[1..] == d;
    RunQuiet(p, d[0], d[1..]);
    assert Run(p, d) == Run(p1, d[1..]);
    if |d| == 1 {
      assert d == [d[0]] && d[1..] == [];
      assert p1 == p.(state := LineWaitChecksum, buffer := p.buffer + d);
    } else {
      assert p1.state == LineWaitData;
      RunLineData(p1, d[1..]);
      assert buf + d[1..] == p.buffer + d;
    }
  }

  /** The header and data of a line packet, fed in IDLE: the parser waits for
      the checksum with exactly the data in its buffer. With length 0 the data
      state is skipped. */
  lemma LineHeaderAndData(p: Parser, d: seq<byte>)
    requires p.state == Idle && |d| < 256
    ensures Run(p, [LINE_START_MARKER, B(|d|)] + d)
            == (p.(state := LineWaitChecksum, buffer := d, expectedLength := B(|d|)), [])
  {
    var n := B(|d|);
    var p1 := p.(state := LineWaitLength);
    assert [LINE_START_MARKER, n] + d == [LINE_START_MARKER] + ([n] + d);
    assert Step(p, LINE_START_MARKER) == (p1, None);
    RunQuiet(p, LINE_START_MARKER, [n] + d);
    LineLengthAndData(p1, d);
  }

  /** The length byte and the data, fed after `F8`. */
  lemma LineLengthAndData(p1: Parser, d: seq<byte>)
    requires p1.state == LineWaitLength && |d| < 256
    ensures Run(p1, [B(|d|)] + d) == (p1.(state := LineWaitChecksum, buffer := d, expectedLength := B(|d|)), [])
  {
    var n := B(|d|);
    RunQuiet(p1, n, d);
    if d == [] {
      assert n == 0;
    } else {
      assert Val(n) != 0;
      var p2 := p1.(state := LineWaitData, buffer := [], expectedLength := n);
      assert Step(p1, n).0 == p2;
      RunLineData(p2, d);
      assert [] + d == d;
    }
  }

  /** Every line packet whose length byte matches its data, fed in IDLE, ends
      back in IDLE with exactly one packet: the line when the terminator,
      checksum and ASCII check pass, else the error for the first check that
      fails. The data stays in the buffer. */
  lemma LinePacketOutcome(p: Parser, d: seq<byte>, c: byte, e: byte)
    requires p.state == Idle && |d| < 256
    ensures Run(p, [LINE_START_MARKER, B(|d|)] + d + [c, e]).0
            == p.(buffer := d, expectedLength := B(|d|), checksumByte := c)
    ensures Run(p, [LINE_START_MARKER, B(|d|)] + d + [c, e]).1
            == [if e != LINE_END_MARKER then Error(LineEndMarkerMissing)
                else if c != LineChecksum(B(|d|), d) then Error(LineChecksumFail)
                else if IsAscii(d) then Line(d)
                else Error(LineDecodeFail)]
  {
    var head := [LINE_START_MARKER, B(|d|)] + d;
    var p3 := p.(state := LineWaitChecksum, buffer := d, expectedLength := B(|d|));
    LineHeaderAndData(p, d);
    RunAppend(p, head, [c, e]);
    assert [c, e] == [c] + [e];
    RunQuiet(p3, c, [e]);
    RunLast(p3.(checksumByte := c, state := LineWaitEnd), e);
  }

  /** Feeding `F8, n, d, F8^n^xor(d), F9` with ASCII data returns line `d`. */
  lemma LineRoundTrip(p: Parser, d: seq<byte>)
    requires p.state == Idle && |d| < 256 && IsAscii(d)
    ensures Run(p, [LINE_START_MARKER, B(|d|)] + d + [LineChecksum(B(|d|), d), LINE_END_MARKER])
            == (p.(buffer := d, expectedLength := B(|d|), checksumByte := LineChecksum(B(|d|), d)), [Line(d)])
  {
    LinePacketOutcome(p, d, LineChecksum(B(|d|), d), LINE_END_MARKER);
  }

  /** In the debug state, every byte other than `FB` is appended to the
      buffer and nothing is returned. */
  lemma {:induction false} RunDebugData(p: Parser, m: seq<byte>)
    requires p.state == DebugWaitData
    requires forall i :: 0 <= i < |m| ==> m[i] != DEBUG_END_MARKER
    ensures Run(p, m) == (p.(buffer := p.buffer + m), [])
    decreases |m|
  {
    if m == [] {
      assert p.buffer + m == p.buffer;
    } else {
      var p1 := p.(buffer := p.buffer + [m[0]]);
      assert [m[0]] + m[1..] == m;
      RunQuiet(p, m[0], m[1..]);
      RunDebugData(p1, m[1..]);
      AppendAssoc(p.buffer, [m[0]], m[1..]);
    }
  }

  /** `FA`, bytes other than `FB`, then `FB` returns exactly those bytes as a
      debug message (no checksum) and leaves the buffer empty. If the buffer
      already held bytes, the `FA` first returns them as a debug message of
      their own. */
  lemma DebugRoundTrip(p: Parser, m: seq<byte>)
    requires p.state == Idle
    requires forall i :: 0 <= i < |m| ==> m[i] != DEBUG_END_MARKER
    ensures Run(p, [DEBUG_START_MARKER] + m + [DEBUG_END_MARKER]).0 == p.(buffer := [])
    ensures Run(p, [DEBUG_START_MARKER] + m + [DEBUG_END_MARKER]).1
            == (if |p.buffer| > 0 then [Debug(p.buffer)] else []) + [Debug(m)]
  {
    var p1 := p.(state := DebugWaitData, buffer := []);
    AppendAssoc([DEBUG_START_MARKER], m, [DEBUG_END_MARKER]);
    RunCons(p, DEBUG_START_MARKER, m + [DEBUG_END_MARKER]);
    DebugBody(p1, m);
  }

  /** The debug state after `FA`: the bytes up to `FB` become one debug
      message, and the parser is back in IDLE with an empty buffer. */
  lemma DebugBody(p1: Parser, m: seq<byte>)
    requires p1.state == DebugWaitData && p1.buffer == []
    requires forall i :: 0 <= i < |m| ==> m[i] != DEBUG_END_MARKER
    ensures Run(p1, m + [DEBUG_END_MARKER]) == (p1.(state := Idle), [Debug(m)])
  {
    var q := p1.(buffer := m);
    RunDebugData(p1, m);
    assert p1.buffer + m == m;
    assert Run(p1, m) == (q, []);
    RunAppend(p1, m, [DEBUG_END_MARKER]);
    RunLast(q, DEBUG_END_MARKER);
    assert Step(q, DEBUG_END_MARKER) == (p1.(state := Idle), Some(Debug(m)));
    assert [] + [Debug(m)] == [Debug(m)];
  }

  /** The line handling never clears the buffer, so after a non-empty line
      packet the next `FA` returns the line's bytes as a debug packet and
      enters the debug state. */
  lemma LineLeftoverBecomesDebug(p: Parser, d: seq<byte>)
    requires p.state == Idle && 0 < |d| < 256 && IsAscii(d)
    ensures Run(p, [LINE_START_MARKER, B(|d|)] + d + [LineChecksum(B(|d|), d), LINE_END_MARKER] + [DEBUG_START_MARKER]).0.state
            == DebugWaitData
    ensures Run(p, [LINE_START_MARKER, B(|d|)] + d + [LineChecksum(B(|d|), d), LINE_END_MARKER] + [DEBUG_START_MARKER]).1
            == [Line(d), Debug(d)]
  {
    var bytes := [LINE_START_MARKER, B(|d|)] + d + [LineChecksum(B(|d|), d), LINE_END_MARKER];
    LineRoundTrip(p, d);
    RunAppend(p, bytes, [DEBUG_START_MARKER]);
    RunLast(Run(p, bytes).0, DEBUG_START_MARKER);
  }

  /** After `reset()`, whatever the state before, `FC` returns ready. */
  lemma ResetThenReady()
    ensures Run(Initial, [CMD_READY_FOR_NEXT_COMMAND]) == (Initial, [Ready])
  {
    RunLast(Initial, CMD_READY_FOR_NEXT_COMMAND);
  }
}
