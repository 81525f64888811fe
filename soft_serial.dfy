/** The device's software serial port: a 128-slot receive ring, a 128-slot
    transmit ring that holds bytes written while a receive window is open, a
    receiving flag and a framing-error counter.

    The line is modelled as bits with no timing. What the port sends is
    appended to `wire`, one 8-N-1 frame per byte. What `update` samples is
    given as a list of frames, each the ten samples the receive loop takes:
    the middle of the start bit, the eight data bits and the stop bit. */
module SoftSerial {
  import opened Bytes

  const RX_BUFFER_SIZE: nat := 128

  /** Bit `i` of a byte. */
  function BitAt(b: byte, i: nat): bool
    requires i < 8
  {
    (b >> i) & 1 == 1
  }

  /** The bits of `b` not yet shifted out after `i` steps, in the low bits. */
  function Unsent(b: byte, i: nat): byte
    requires i <= 8
  {
    b >> i
  }

  /** The eight data bits of a byte, least significant first. */
  function LsbBits(b: byte): (r: seq<bool>)
    ensures |r| == 8
  {
    seq(8, i requires 0 <= i < 8 => BitAt(b, i))
  }

  /** The byte whose bit `i` is `bits[i]`. */
  function Decode(bits: seq<bool>): byte
    requires |bits| == 8
  {
    (if bits[0] then 0x01 else 0) | (if bits[1] then 0x02 else 0) | (if bits[2] then 0x04 else 0)
    | (if bits[3] then 0x08 else 0) | (if bits[4] then 0x10 else 0) | (if bits[5] then 0x20 else 0)
    | (if bits[6] then 0x40 else 0) | (if bits[7] then 0x80 else 0)
  }

  /** What `transmitByte` puts on the line: a low start bit, the data bits
      least significant first, a high stop bit. */
  function Frame(b: byte): (r: Samples)
  {
    [false] + LsbBits(b) + [true]
  }

  /** The frames of several bytes, back to back. */
  function Frames(bs: seq<byte>): (r: seq<bool>)
    ensures |r| == 10 * |bs|
  {
    if bs == [] then [] else Frame(bs[0]) + Frames(bs[1..])
  }

  /** A sampled frame whose start bit has gone high again by its middle is a
      false start and yields no byte. */
  predicate FalseStart(samples: Samples)
  {
    samples[0]
  }

  /** The byte the receive loop assembles from a frame's data samples. */
  function FrameData(samples: Samples): byte
  {
    Decode(samples[1..9])
  }

  /** A frame whose stop sample is low is a framing error. */
  predicate StopBitLow(samples: Samples)
  {
    !samples[9]
  }

  /** The ten samples the receive loop takes of one frame. */
  type Samples = s: seq<bool> | |s| == 10
    witness [false, false, false, false, false, false, false, false, false, true]

  /** A ring with 127 usable slots: a byte pushed onto a full ring is dropped. */
  function Pushed(contents: seq<byte>, b: byte): (r: seq<byte>)
  {
    if |contents| < RX_BUFFER_SIZE - 1 then contents + [b] else contents
  }

  /** The receive ring after `update` has taken `frames`. */
  function ReceiveAll(contents: seq<byte>, frames: seq<Samples>): seq<byte>
    decreases |frames|
  {
    if frames == [] then contents
    else
      var last := frames[|frames| - 1];
      var before := ReceiveAll(contents, frames[..|frames| - 1]);
      if FalseStart(last) then before else Pushed(before, FrameData(last))
  }

  /** The number of framing errors among the frames that are not false starts. */
  function FramingErrors(frames: seq<Samples>): nat
    decreases |frames|
  {
    if frames == [] then 0
    else
      var last := frames[|frames| - 1];
      FramingErrors(frames[..|frames| - 1]) + if !FalseStart(last) && StopBitLow(last) then 1 else 0
  }

  /** The bytes that frames carry, ignoring the ring bound. */
  function Received(frames: seq<Samples>): seq<byte>
    decreases |frames|
  {
    if frames == [] then []
    else
      var last := frames[|frames| - 1];
      Received(frames[..|frames| - 1]) + if FalseStart(last) then [] else [FrameData(last)]
  }

  /** Position `i` of a ring that starts at `tail`. */
  function Slot(tail: nat, i: nat): (k: nat)
    requires tail < RX_BUFFER_SIZE && i < RX_BUFFER_SIZE
    ensures k < RX_BUFFER_SIZE
  {
    if tail + i < RX_BUFFER_SIZE then tail + i else tail + i - RX_BUFFER_SIZE
  }

  /** The occupancy of a ring, as `available` computes it. */
  function Occupancy(head: nat, tail: nat): (n: nat)
    requires head < RX_BUFFER_SIZE && tail < RX_BUFFER_SIZE
    ensures n < RX_BUFFER_SIZE
    ensures head >= tail ==> n == head - tail
    ensures head < tail ==> n == head + RX_BUFFER_SIZE - tail
  {
    (head - tail + RX_BUFFER_SIZE) % RX_BUFFER_SIZE
  }

  /** The bytes between `tail` and `head` of a ring, oldest first. */
  function RingContents(ring: seq<byte>, head: nat, tail: nat): (r: seq<byte>)
    requires |ring| == RX_BUFFER_SIZE && head < RX_BUFFER_SIZE && tail < RX_BUFFER_SIZE
    ensures |r| == Occupancy(head, tail)
  {
    seq(Occupancy(head, tail), i requires 0 <= i < Occupancy(head, tail) => ring[Slot(tail, i)])
  }

  /** Advancing an index modulo 128, as the rings do. */
  function Next(k: nat): (r: nat)
    requires k < RX_BUFFER_SIZE
    ensures r < RX_BUFFER_SIZE && r == if k == RX_BUFFER_SIZE - 1 then 0 else k + 1
  {
    (k + 1) % RX_BUFFER_SIZE
  }

  /** Storing at `head` and advancing it appends to a ring that is not full. */
  lemma PushContents(ring: seq<byte>, head: nat, tail: nat, b: byte)
    requires |ring| == RX_BUFFER_SIZE && head < RX_BUFFER_SIZE && tail < RX_BUFFER_SIZE
    requires Next(head) != tail
    ensures RingContents(ring[head := b], Next(head), tail) == RingContents(ring, head, tail) + [b]
  {
    var n := Occupancy(head, tail);
    assert Occupancy(Next(head), tail) == n + 1;
    assert Slot(tail, n) == head;
    forall i | 0 <= i < n
      ensures ring[head := b][Slot(tail, i)] == ring[Slot(tail, i)]
    {
      assert Slot(tail, i) != head;
    }
  }

  /** Reading at `tail` and advancing it drops the oldest byte. */
  lemma PopContents(ring: seq<byte>, head: nat, tail: nat)
    requires |ring| == RX_BUFFER_SIZE && head < RX_BUFFER_SIZE && tail < RX_BUFFER_SIZE
    requires head != tail
    ensures RingContents(ring, head, tail) != []
    ensures RingContents(ring, head, tail)[0] == ring[tail]
    ensures RingContents(ring, head, Next(tail)) == RingContents(ring, head, tail)[1..]
  {
    var n := Occupancy(head, tail);
    assert Occupancy(head, Next(tail)) == n - 1;
    forall i | 0 <= i < n - 1
      ensures Slot(Next(tail), i) == Slot(tail, i + 1)
    {
    }
  }

  /** A ring is full exactly when 127 bytes are in it. */
  lemma FullContents(head: nat, tail: nat)
    requires head < RX_BUFFER_SIZE && tail < RX_BUFFER_SIZE
    ensures (Next(head) == tail) <==> Occupancy(head, tail) == RX_BUFFER_SIZE - 1
  {
  }

  class SoftClockSerial {
    const rxBuffer: array<byte>
    const txBuffer: array<byte>
    var rxHead: nat
    var rxTail: nat
    var txHead: nat
    var txTail: nat
    var isReceiving: bool
    /** `_framingErrorCount`, a `uint16_t`. */
    var framingErrorCount: uint16
    /** Every bit driven onto the TX line, in order. */
    var wire: seq<bool>

    predicate Valid()
      reads this
    {
      rxBuffer.Length == RX_BUFFER_SIZE && txBuffer.Length == RX_BUFFER_SIZE && rxBuffer != txBuffer
      && rxHead < RX_BUFFER_SIZE && rxTail < RX_BUFFER_SIZE
      && txHead < RX_BUFFER_SIZE && txTail < RX_BUFFER_SIZE
    }

    /** The bytes waiting to be read, oldest first. */
    function RxContents(): seq<byte>
      reads this, rxBuffer
      requires Valid()
    {
      RingContents(rxBuffer[..], rxHead, rxTail)
    }

    /** The bytes waiting to be transmitted, oldest first. */
    function TxContents(): seq<byte>
      reads this, txBuffer
      requires Valid()
    {
      RingContents(txBuffer[..], txHead, txTail)
    }

    constructor ()
      ensures Valid() && fresh(rxBuffer) && fresh(txBuffer)
      ensures RxContents() == [] && TxContents() == []
      ensures !isReceiving && framingErrorCount == 0 && wire == []
    {
      rxBuffer := new byte[RX_BUFFER_SIZE];
      txBuffer := new byte[RX_BUFFER_SIZE];
      rxHead := 0;
      rxTail := 0;
      txHead := 0;
      txTail := 0;
      framingErrorCount := 0;
      isReceiving := false;
      wire := [];
    }

    /** `available`: the number of bytes waiting to be read. */
    method Available() returns (n: nat)
      requires Valid()
      ensures n == |RxContents()| && n < RX_BUFFER_SIZE
    {
      n := (rxHead - rxTail + RX_BUFFER_SIZE) % RX_BUFFER_SIZE;
    }

    /** `read`: -1 on an empty ring, else the oldest byte, which is removed. */
    method Read() returns (r: int)
      requires Valid()
      modifies this
      ensures Valid() && unchanged(rxBuffer)
      ensures old(RxContents()) == [] ==> r == -1 && RxContents() == old(RxContents())
      ensures old(RxContents()) != [] ==> r == Val(old(RxContents())[0]) && RxContents() == old(RxContents())[1..]
      ensures TxContents() == old(TxContents()) && wire == old(wire)
      ensures isReceiving == old(isReceiving) && framingErrorCount == old(framingErrorCount)
    {
      if rxHead == rxTail {
        return -1;
      }
      PopContents(rxBuffer[..], rxHead, rxTail);
      var b := rxBuffer[rxTail];
      rxTail := (rxTail + 1) % RX_BUFFER_SIZE;
      r := Val(b);
    }

    /** `txEmpty`. */
    method TxEmpty() returns (e: bool)
      requires Valid()
      ensures e <==> TxContents() == []
    {
      e := txHead == txTail;
    }

    /** `rxBufferFull`: the ring holds 127 bytes. */
    method RxBufferFull() returns (f: bool)
      requires Valid()
      ensures f <==> |RxContents()| == RX_BUFFER_SIZE - 1
    {
      FullContents(rxHead, rxTail);
      f := (rxHead + 1) % RX_BUFFER_SIZE == rxTail;
    }

    /** `txBufferFull`: the ring holds 127 bytes. */
    method TxBufferFull() returns (f: bool)
      requires Valid()
      ensures f <==> |TxContents()| == RX_BUFFER_SIZE - 1
    {
      FullContents(txHead, txTail);
      f := (txHead + 1) % RX_BUFFER_SIZE == txTail;
    }

    /** `rxBufferPush`: appends, or drops the byte when the ring is full. */
    method RxBufferPush(b: byte)
      requires Valid()
      modifies this, rxBuffer
      ensures Valid() && RxContents() == Pushed(old(RxContents()), b)
      ensures TxContents() == old(TxContents()) && wire == old(wire)
      ensures isReceiving == old(isReceiving) && framingErrorCount == old(framingErrorCount)
    {
      var full := RxBufferFull();
      if !full {
        PushContents(rxBuffer[..], rxHead, rxTail, b);
        rxBuffer[rxHead] := b;
        rxHead := (rxHead + 1) % RX_BUFFER_SIZE;
      }
    }

    /** `txBufferPush`: appends, or drops the byte when the ring is full. */
    method TxBufferPush(b: byte)
      requires Valid()
      modifies this, txBuffer
      ensures Valid() && TxContents() == Pushed(old(TxContents()), b)
      ensures RxContents() == old(RxContents()) && wire == old(wire)
      ensures isReceiving == old(isReceiving) && framingErrorCount == old(framingErrorCount)
    {
      var full := TxBufferFull();
      if !full {
        PushContents(txBuffer[..], txHead, txTail, b);
        txBuffer[txHead] := b;
        txHead := (txHead + 1) % RX_BUFFER_SIZE;
      }
    }

    /** `transmitByte`: start bit, data bits shifted out least significant
        first, stop bit. */
    method TransmitByte(b: byte)
      modifies this
      ensures wire == old(wire) + Frame(b)
      ensures rxHead == old(rxHead) && rxTail == old(rxTail) && txHead == old(txHead) && txTail == old(txTail)
      ensures isReceiving == old(isReceiving) && framingErrorCount == old(framingErrorCount)
    {
      wire := wire + [false];
      ghost var prefix := wire;
      var data := b;
      var i := 0;
      while i < 8
        invariant 0 <= i <= 8
        invariant data == Unsent(b, i)
        invariant wire == prefix + LsbBits(b)[..i]
        invariant rxHead == old(rxHead) && rxTail == old(rxTail) && txHead == old(txHead) && txTail == old(txTail)
        invariant isReceiving == old(isReceiving) && framingErrorCount == old(framingErrorCount)
      {
        SentBitsStep(prefix, b, i);
        var bit;
        bit, data := ShiftOut(data, b, i);
        wire := wire + [bit];
        i := i + 1;
      }
      assert LsbBits(b)[..8] == LsbBits(b);
      FrameAppend(old(wire), b);
      wire := wire + [true];
    }

    /** One step of `transmitByte`'s loop: the low bit of `data` goes out
        and `data` shifts right. */
    static method ShiftOut(data: byte, ghost b: byte, ghost i: nat) returns (bit: bool, rest: byte)
      requires i < 8 && data == Unsent(b, i)
      ensures bit == BitAt(b, i) && rest == Unsent(b, i + 1)
    {
      ShiftStep(b, i);
      bit := data & 0x01 == 0x01;
      rest := data >> 1;
    }

    /** `write(b)`: transmits at once, or queues the byte while a receive
        window is open (dropping it when the queue is full); returns 1 either way. */
    method Write(b: byte) returns (n: nat)
      requires Valid()
      modifies this, txBuffer
      ensures Valid() && n == 1 && isReceiving == old(isReceiving)
      ensures old(isReceiving) ==> TxContents() == Pushed(old(TxContents()), b) && wire == old(wire)
      ensures !old(isReceiving) ==> TxContents() == old(TxContents()) && wire == old(wire) + Frame(b)
      ensures RxContents() == old(RxContents()) && framingErrorCount == old(framingErrorCount)
    {
      if isReceiving {
        TxBufferPush(b);
        return 1;
      }
      TransmitByte(b);
      return 1;
    }

    /** `write(buffer, length)`: each byte in turn, returning the length. */
    method WriteAll(bs: seq<byte>) returns (n: nat)
      requires Valid()
      modifies this, txBuffer
      ensures Valid() && n == |bs| && isReceiving == old(isReceiving)
      ensures old(isReceiving) ==> TxContents() == PushedAll(old(TxContents()), bs) && wire == old(wire)
      ensures !old(isReceiving) ==> TxContents() == old(TxContents()) && wire == old(wire) + Frames(bs)
      ensures RxContents() == old(RxContents()) && framingErrorCount == old(framingErrorCount)
    {
      var i := 0;
      while i < |bs|
        invariant 0 <= i <= |bs| && Valid() && isReceiving == old(isReceiving)
        invariant old(isReceiving) ==> TxContents() == PushedAll(old(TxContents()), bs[..i]) && wire == old(wire)
        invariant !old(isReceiving) ==> TxContents() == old(TxContents()) && wire == old(wire) + Frames(bs[..i])
        invariant RxContents() == old(RxContents()) && framingErrorCount == old(framingErrorCount)
      {
        assert bs[..i + 1][..i] == bs[..i];
        FramesSnoc(bs[..i], bs[i]);
        assert bs[..i + 1] == bs[..i] + [bs[i]];
        var _ := Write(bs[i]);
        i := i + 1;
      }
      assert bs[..i] == bs;
      return |bs|;
    }

    /** `flushTxBuffer`: transmits the queued bytes oldest first and empties the queue. */
    method FlushTxBuffer()
      requires Valid()
      modifies this
      ensures Valid() && TxContents() == [] && wire == old(wire) + Frames(old(TxContents()))
      ensures RxContents() == old(RxContents()) && isReceiving == old(isReceiving)
      ensures framingErrorCount == old(framingErrorCount)
    {
      ghost var queued := TxContents();
      ghost var sent := 0;
      while txHead != txTail
        invariant Valid() && 0 <= sent <= |queued|
        invariant TxContents() == queued[sent..] && wire == old(wire) + Frames(queued[..sent])
        invariant RxContents() == old(RxContents()) && isReceiving == old(isReceiving)
        invariant framingErrorCount == old(framingErrorCount)
        decreases |queued| - sent
      {
        FlushNext(queued, sent, old(wire));
        sent := sent + 1;
      }
      assert queued[..sent] == queued;
    }

    /** The flush loop's body, stated the way the loop counts: byte `sent`
        of the queue is transmitted after the frames of those before it. */
    method FlushNext(ghost queued: seq<byte>, ghost sent: nat, ghost base: seq<bool>)
      requires Valid() && sent <= |queued| && txHead != txTail
      requires TxContents() == queued[sent..] && wire == base + Frames(queued[..sent])
      modifies this
      ensures Valid() && sent < |queued|
      ensures TxContents() == queued[sent + 1..] && wire == base + Frames(queued[..sent + 1])
      ensures RxContents() == old(RxContents()) && isReceiving == old(isReceiving)
      ensures framingErrorCount == old(framingErrorCount)
    {
      PopContents(txBuffer[..], txHead, txTail);
      FramesSnoc(queued[..sent], queued[sent]);
      assert queued[..sent + 1] == queued[..sent] + [queued[sent]];
      FlushOne();
    }

    /** One pass of the flush loop: the oldest queued byte is removed and transmitted. */
    method FlushOne()
      requires Valid() && TxContents() != []
      modifies this
      ensures Valid() && TxContents() == old(TxContents())[1..] && wire == old(wire) + Frame(old(TxContents())[0])
      ensures RxContents() == old(RxContents()) && isReceiving == old(isReceiving)
      ensures framingErrorCount == old(framingErrorCount)
    {
      PopContents(txBuffer[..], txHead, txTail);
      var b := txBuffer[txTail];
      txTail := (txTail + 1) % RX_BUFFER_SIZE;
      TransmitByte(b);
    }

    /** `framingErrors`. */
    method GetFramingErrors() returns (n: uint16)
      ensures n == framingErrorCount
    {
      n := framingErrorCount;
    }

    /** `parityErrors`: this port has no parity. */
    method ParityErrors() returns (n: uint16)
      ensures n == 0
    {
      n := 0;
    }

    /** `clearErrors`. */
    method ClearErrors()
      modifies this
      ensures framingErrorCount == 0
      ensures rxHead == old(rxHead) && rxTail == old(rxTail) && txHead == old(txHead) && txTail == old(txTail)
      ensures isReceiving == old(isReceiving) && wire == old(wire)
    {
      framingErrorCount := 0;
    }

    /** The data loop of `update`: bit `i` is set when sample `i` is high. */
    method AssembleByte(bits: seq<bool>) returns (data: byte)
      requires |bits| == 8
      ensures data == Decode(bits)
    {
      data := 0;
      var i := 0;
      while i < 8
        invariant 0 <= i <= 8
        invariant data == Assembled(bits, i)
      {
        ShiftedOne(i);
        if bits[i] {
          data := data | (1 << i);
        }
        i := i + 1;
      }
      AssembledAll(bits);
    }

    /** One frame of the receive loop: a false start is skipped; otherwise
        the byte is assembled, a low stop sample counts a framing error, and
        the byte is pushed. */
    method ReceiveFrame(samples: Samples)
      requires Valid()
      modifies this, rxBuffer
      ensures Valid()
      ensures RxContents() == (if FalseStart(samples) then old(RxContents()) else Pushed(old(RxContents()), FrameData(samples)))
      ensures framingErrorCount == if !FalseStart(samples) && StopBitLow(samples)
                                   then Counter16(old(framingErrorCount) + 1) else old(framingErrorCount)
      ensures TxContents() == old(TxContents()) && wire == old(wire) && isReceiving == old(isReceiving)
    {
      if samples[0] {
        return;
      }
      var data := AssembleByte(samples[1..9]);
      if !samples[9] {
        framingErrorCount := Counter16(framingErrorCount + 1);
      }
      RxBufferPush(data);
    }

    /** The receive loop of `update`: every frame that arrives before the timeout. */
    method ReceiveFrames(frames: seq<Samples>)
      requires Valid()
      modifies this, rxBuffer
      ensures Valid() && isReceiving == old(isReceiving)
      ensures RxContents() == ReceiveAll(old(RxContents()), frames)
      ensures framingErrorCount == Counter16(old(framingErrorCount) + FramingErrors(frames))
      ensures TxContents() == old(TxContents()) && wire == old(wire)
    {
      var i := 0;
      while i < |frames|
        invariant 0 <= i <= |frames| && Valid() && isReceiving == old(isReceiving)
        invariant RxContents() == ReceiveAll(old(RxContents()), frames[..i])
        invariant framingErrorCount == Counter16(old(framingErrorCount) + FramingErrors(frames[..i]))
        invariant TxContents() == old(TxContents()) && wire == old(wire)
      {
        ReceiveNext(frames, i, old(RxContents()), old(framingErrorCount));
        i := i + 1;
      }
      assert frames[..i] == frames;
    }

    /** One pass of `ReceiveFrames`' loop: frame `i` received on top of
        frames `0..i`. */
    method ReceiveNext(frames: seq<Samples>, i: nat, ghost rx0: seq<byte>, ghost errors0: nat)
      requires Valid() && i < |frames|
      requires RxContents() == ReceiveAll(rx0, frames[..i])
      requires framingErrorCount == Counter16(errors0 + FramingErrors(frames[..i]))
      modifies this, rxBuffer
      ensures Valid() && isReceiving == old(isReceiving)
      ensures RxContents() == ReceiveAll(rx0, frames[..i + 1])
      ensures framingErrorCount == Counter16(errors0 + FramingErrors(frames[..i + 1]))
      ensures TxContents() == old(TxContents()) && wire == old(wire)
    {
      var samples := frames[i];
      ghost var rxNext := ReceiveAll(rx0, frames[..i + 1]);
      ghost var countNext := Counter16(errors0 + FramingErrors(frames[..i + 1]));
      ReceiveStep(rx0, frames, i);
      CounterStep(errors0, frames, i);
      assert rxNext == if FalseStart(samples) then RxContents() else Pushed(RxContents(), FrameData(samples));
      assert countNext == if !FalseStart(samples) && StopBitLow(samples) then Counter16(framingErrorCount + 1) else framingErrorCount;
      ReceiveFrame(samples);
    }

    /** `update`: opens the receive window, takes every frame that arrives
        before the timeout, closes the window and sends what was queued. */
    method Update(frames: seq<Samples>)
      requires Valid()
      modifies this, rxBuffer, txBuffer
      ensures Valid() && !isReceiving && TxContents() == []
      ensures wire == old(wire) + Frames(old(TxContents()))
      ensures RxContents() == ReceiveAll(old(RxContents()), frames)
      ensures framingErrorCount == Counter16(old(framingErrorCount) + FramingErrors(frames))
    {
      isReceiving := true;
      ReceiveFrames(frames);
      isReceiving := false;
      FlushTxBuffer();
    }
  }

  /** The queue after several pushes. */
  function PushedAll(contents: seq<byte>, bs: seq<byte>): seq<byte>
    decreases |bs|
  {
    if bs == [] then contents else Pushed(PushedAll(contents, bs[..|bs| - 1]), bs[|bs| - 1])
  }

  /** One more frame, as the receive loop takes it. */
  lemma ReceiveStep(contents: seq<byte>, frames: seq<Samples>, i: nat)
    requires i < |frames|
    ensures ReceiveAll(contents, frames[..i + 1])
            == if FalseStart(frames[i]) then ReceiveAll(contents, frames[..i])
               else Pushed(ReceiveAll(contents, frames[..i]), FrameData(frames[i]))
    ensures FramingErrors(frames[..i + 1])
            == FramingErrors(frames[..i]) + if !FalseStart(frames[i]) && StopBitLow(frames[i]) then 1 else 0
  {
    assert frames[..i + 1][..i] == frames[..i];
  }

  /** The byte the data loop has built after `i` samples. */
  function Assembled(bits: seq<bool>, i: nat): byte
    requires |bits| == 8 && i <= 8
  {
    if i == 0 then 0 else Assembled(bits, i - 1) | (if bits[i - 1] then MASKS[i - 1] else 0)
  }

  /** `1 << i` for each bit position. */
  const MASKS: seq<byte> := [0x01, 0x02, 0x04, 0x08, 0x10, 0x20, 0x40, 0x80]

  lemma ShiftedOne(i: nat)
    requires i < 8
    ensures (1 as byte) << i == MASKS[i]
  {
    if i == 0 {} else if i == 1 {} else if i == 2 {} else if i == 3 {}
    else if i == 4 {} else if i == 5 {} else if i == 6 {} else {}
  }

  /** A start bit, the data bits and a stop bit appended one after the
      other append one frame. */
  lemma FrameAppend(w: seq<bool>, b: byte)
    ensures w + [false] + LsbBits(b) + [true] == w + Frame(b)
  {
    AppendAssoc(w, [false], LsbBits(b));
    AppendAssoc(w, [false] + LsbBits(b), [true]);
  }

  /** One more bit sent extends the sent prefix of `LsbBits(b)` by one. */
  lemma SentBitsStep(prefix: seq<bool>, b: byte, i: nat)
    requires i < 8
    ensures prefix + LsbBits(b)[..i] + [BitAt(b, i)] == prefix + LsbBits(b)[..i + 1]
  {
    assert LsbBits(b)[..i + 1] == LsbBits(b)[..i] + [BitAt(b, i)];
    AppendAssoc(prefix, LsbBits(b)[..i], [BitAt(b, i)]);
  }

  /** Shifting right once more moves to the next bit. */
  lemma ShiftStep(b: byte, i: nat)
    requires i < 8
    ensures (b >> i) >> 1 == b >> (i + 1)
  {
    if i == 0 {} else if i == 1 {} else if i == 2 {} else if i == 3 {}
    else if i == 4 {} else if i == 5 {} else if i == 6 {} else {}
  }

  /** After all eight samples the loop has built `Decode(bits)`. */
  lemma AssembledAll(bits: seq<bool>)
    requires |bits| == 8
    ensures Assembled(bits, 8) == Decode(bits)
  {
    var t0: byte := if bits[0] then 0x01 else 0;
    var t1: byte := if bits[1] then 0x02 else 0;
    var t2: byte := if bits[2] then 0x04 else 0;
    var t3: byte := if bits[3] then 0x08 else 0;
    var t4: byte := if bits[4] then 0x10 else 0;
    var t5: byte := if bits[5] then 0x20 else 0;
    var t6: byte := if bits[6] then 0x40 else 0;
    var t7: byte := if bits[7] then 0x80 else 0;
    assert Assembled(bits, 1) == t0;
    assert Assembled(bits, 2) == t0 | t1;
    assert Assembled(bits, 3) == t0 | t1 | t2;
    assert Assembled(bits, 4) == t0 | t1 | t2 | t3;
    assert Assembled(bits, 5) == t0 | t1 | t2 | t3 | t4;
    assert Assembled(bits, 6) == t0 | t1 | t2 | t3 | t4 | t5;
    assert Assembled(bits, 7) == t0 | t1 | t2 | t3 | t4 | t5 | t6;
    assert Assembled(bits, 8) == t0 | t1 | t2 | t3 | t4 | t5 | t6 | t7;
  }

  /** A count kept in a 16-bit unsigned counter, which wraps to 0. */
  function Counter16(n: nat): uint16
  {
    n % 0x1_0000
  }

  /** The 16-bit error counter after one more frame. */
  lemma CounterStep(start: nat, frames: seq<Samples>, i: nat)
    requires i < |frames|
    ensures Counter16(start + FramingErrors(frames[..i + 1]))
            == if !FalseStart(frames[i]) && StopBitLow(frames[i])
               then Counter16(Counter16(start + FramingErrors(frames[..i])) + 1)
               else Counter16(start + FramingErrors(frames[..i]))
  {
    assert frames[..i + 1][..i] == frames[..i];
  }

  lemma {:induction false} FramesSnoc(bs: seq<byte>, b: byte)
    ensures Frames(bs + [b]) == Frames(bs) + Frame(b)
    decreases |bs|
  {
    if bs == [] {
      assert Frames([b]) == Frame(b) + Frames([]);
    } else {
      assert (bs + [b])[1..] == bs[1..] + [b];
      FramesSnoc(bs[1..], b);
    }
  }

  /** Two bytes with the same data bits are equal. */
  lemma LsbBitsInjective(a: byte, b: byte)
    requires LsbBits(a) == LsbBits(b)
    ensures a == b
  {
    assert LsbBits(a)[0] == LsbBits(b)[0] && LsbBits(a)[1] == LsbBits(b)[1];
    assert LsbBits(a)[2] == LsbBits(b)[2] && LsbBits(a)[3] == LsbBits(b)[3];
    assert LsbBits(a)[4] == LsbBits(b)[4] && LsbBits(a)[5] == LsbBits(b)[5];
    assert LsbBits(a)[6] == LsbBits(b)[6] && LsbBits(a)[7] == LsbBits(b)[7];
  }

  /** Decoding a list of eight bits gives a byte with exactly those bits. */
  lemma DecodeLsbBits(bits: seq<bool>)
    requires |bits| == 8
    ensures LsbBits(Decode(bits)) == bits
  {
  }

  /** Decoding a byte's bits gives the byte back. */
  lemma DecodeOfLsbBits(b: byte)
    ensures Decode(LsbBits(b)) == b
  {
    DecodeLsbBits(LsbBits(b));
    LsbBitsInjective(Decode(LsbBits(b)), b);
  }

  /** A transmitted frame, sampled by the receive loop, is not a false
      start, carries its byte and has a high stop bit. */
  lemma FrameRoundTrip(b: byte)
    ensures !FalseStart(Frame(b)) && !StopBitLow(Frame(b))
    ensures FrameData(Frame(b)) == b
  {
    assert Frame(b)[1..9] == LsbBits(b);
    DecodeOfLsbBits(b);
  }

  /** A byte stream's frames, each sampled at the middle of every bit. */
  function SampledFrames(bs: seq<byte>): (r: seq<Samples>)
    ensures |r| == |bs| && forall i :: 0 <= i < |bs| ==> r[i] == Frame(bs[i])
  {
    seq(|bs|, i requires 0 <= i < |bs| => Frame(bs[i]))
  }

  /** Frames of a byte stream, each sampled exactly, are received as the
      stream with no framing error. */
  lemma {:induction false} StreamRoundTrip(bs: seq<byte>)
    ensures Received(SampledFrames(bs)) == bs
    ensures FramingErrors(SampledFrames(bs)) == 0
    decreases |bs|
  {
    var frames := SampledFrames(bs);
    if bs != [] {
      var init := bs[..|bs| - 1];
      assert frames[..|frames| - 1] == SampledFrames(init);
      StreamRoundTrip(init);
      FrameRoundTrip(bs[|bs| - 1]);
      assert bs == init + [bs[|bs| - 1]];
    }
  }

  /** Without drops, the receive ring ends with the bytes the frames carry. */
  lemma {:induction false} ReceiveAllAppends(contents: seq<byte>, frames: seq<Samples>)
    requires |contents| + |Received(frames)| < RX_BUFFER_SIZE
    ensures ReceiveAll(contents, frames) == contents + Received(frames)
    decreases |frames|
  {
    if frames != [] {
      var init := frames[..|frames| - 1];
      ReceivedLength(init, frames);
      ReceiveAllAppends(contents, init);
    }
  }

  lemma ReceivedLength(init: seq<Samples>, frames: seq<Samples>)
    requires frames != [] && init == frames[..|frames| - 1]
    ensures |Received(init)| <= |Received(frames)|
  {
  }

  /** The ring never holds more than 127 bytes, whatever arrives. */
  lemma {:induction false} ReceiveAllBounded(contents: seq<byte>, frames: seq<Samples>)
    requires |contents| < RX_BUFFER_SIZE
    ensures |ReceiveAll(contents, frames)| < RX_BUFFER_SIZE
    decreases |frames|
  {
    if frames != [] {
      ReceiveAllBounded(contents, frames[..|frames| - 1]);
    }
  }
}
