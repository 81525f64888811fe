/** The device's command handlers: each reads its arguments from the serial
    input, updates the scroll offset, the shared 64-byte text buffer or the
    544-byte pixel array, and calls the display.

    Serial input is the sequence of bytes that have arrived and not yet been
    read (`rx`); a handler is given at least the bytes it will read, since a
    read on the device waits until a byte is there. Display calls are not
    executed; they are appended to `draws`. */
module CommandHandler {
  import opened Bytes
  import opened Wrappers
  import opened SerialHelpers

  const SCREEN_VERTICAL_SIZE: nat := 136
  const ARRAY_SIZE: nat := 544

  /** The arguments of the display library's calls, in the order they are made. */
  datatype DisplayCall =
    | ScrollReset
    | ScrollArea(top: nat, height: nat, bottom: nat)
    | Fill(value: byte)
    | SetPosition(x: nat, y: nat, width: nat, height: nat)
    | WriteDataBlock(data: seq<byte>)
    | WriteString(x: nat, y: nat, text: seq<byte>, font: byte, fg: byte, bg: byte)
    | Scroll(pixels: byte)

  /** A y coordinate moved by the scroll offset: the 16-bit sum, modulo 136. */
  function AdjustY(y: uint16, pixelsScrolled: uint16): (r: nat)
    ensures r < SCREEN_VERTICAL_SIZE
    ensures y + pixelsScrolled < 0x1_0000 ==> r == (y + pixelsScrolled) % SCREEN_VERTICAL_SIZE
  {
    ((y + pixelsScrolled) % 0x1_0000) % SCREEN_VERTICAL_SIZE
  }

  /** The shared buffer after `handleWriteText` with text `data`: characters
      at indices below both 62 and the length, spaces from the length to 62,
      NUL at 63, and every other index as it was. */
  function WriteTextBuffer(before: seq<byte>, data: seq<byte>): (r: seq<byte>)
    requires |before| == BUFFER_SIZE
    ensures |r| == BUFFER_SIZE
  {
    seq(BUFFER_SIZE, j requires 0 <= j < BUFFER_SIZE =>
      if j == NUMBER_OF_CHARS_TO_POSSIBLY_RECEIVE then 0
      else if |data| <= j then 0x20
      else if j < NUMBER_OF_CHARS_TO_POSSIBLY_RECEIVE - 1 then data[j]
      else before[j])
  }

  const PROMPT_CHARS: nat := 5
  const PROMPT_BYTES: seq<byte> := [0x43, 0x4D, 0x44, 0x3E, 0x20]

  /** Where `handleWritePromptText` starts the spaces: `length + 5` in an
      8-bit counter, so it wraps for lengths from 251. */
  function PromptPadStart(length: nat): nat
  {
    (length + PROMPT_CHARS) % 256
  }

  /** The shared buffer after `handleWritePromptText` with text `data`:
      "CMD> ", then character `i` at `i + 5` for `i < 57`, then spaces from
      `PromptPadStart` to 62 written over whatever is there, NUL at 63. */
  function PromptTextBuffer(before: seq<byte>, data: seq<byte>): (r: seq<byte>)
    requires |before| == BUFFER_SIZE && |data| < 256
    ensures |r| == BUFFER_SIZE
  {
    var maxChars := NUMBER_OF_CHARS_TO_POSSIBLY_RECEIVE - 1 - PROMPT_CHARS;
    seq(BUFFER_SIZE, j requires 0 <= j < BUFFER_SIZE =>
      if j == NUMBER_OF_CHARS_TO_POSSIBLY_RECEIVE then 0
      else if PromptPadStart(|data|) <= j then 0x20
      else if j < PROMPT_CHARS then PROMPT_BYTES[j]
      else if j - PROMPT_CHARS < |data| && j - PROMPT_CHARS < maxChars then data[j - PROMPT_CHARS]
      else before[j])
  }

  /** `buffer` after the text loop: character `i` of `data` at `i + offset`
      for `i < maxChars`, every other index as it was. */
  function Received(before: seq<byte>, data: seq<byte>, offset: nat, maxChars: nat): (r: seq<byte>)
    requires |before| == BUFFER_SIZE
    ensures |r| == BUFFER_SIZE
  {
    seq(BUFFER_SIZE, k requires 0 <= k < BUFFER_SIZE =>
      if offset <= k && k - offset < |data| && k - offset < maxChars then data[k - offset] else before[k])
  }

  /** `buffer` after the padding loop from `start`, and the NUL at 63. */
  function PaddedFrom(s: seq<byte>, start: nat): (r: seq<byte>)
    requires |s| == BUFFER_SIZE
    ensures |r| == BUFFER_SIZE
  {
    seq(BUFFER_SIZE, k requires 0 <= k < BUFFER_SIZE =>
      if k == NUMBER_OF_CHARS_TO_POSSIBLY_RECEIVE then 0
      else if start <= k then 0x20
      else s[k])
  }

  function Repeat(v: byte, n: nat): (r: seq<byte>)
    ensures |r| == n && forall i :: 0 <= i < n ==> r[i] == v
  {
    seq(n, _ => v)
  }

  /** The trim check of `printBlockRle`, on unbounded integers: a run longer
      than the space left is cut to the space left. */
  function TrimRun(position: nat, count: nat): (n: nat)
    requires position <= ARRAY_SIZE
    ensures position + n <= ARRAY_SIZE
    ensures n <= count && (n < count ==> position + n == ARRAY_SIZE)
  {
    if position + count > ARRAY_SIZE then ARRAY_SIZE - position else count
  }

  /** The same check as the device computes it: `arrayPosition +
      timesToPrintIt` is a sum of two `uint16_t`, which on the device's 16-bit
      `int` is taken modulo 65536. */
  function TrimRunAsWritten(position: uint16, count: uint16): (n: nat)
    requires position <= ARRAY_SIZE
    ensures n <= count && (n < count ==> position + n == ARRAY_SIZE)
  {
    if (position + count) % 0x1_0000 > ARRAY_SIZE then ARRAY_SIZE - position else count
  }

  /** Decoding `(value, count_hi, count_lo)` runs until `remaining` bytes are
      filled: the filled bytes and the number of input bytes used, or None if
      the input ends first. */
  function RleFill(input: seq<byte>, remaining: nat): (r: Option<(seq<byte>, nat)>)
    requires remaining <= ARRAY_SIZE
    ensures r.Some? ==> |r.value.0| == remaining && r.value.1 <= |input| && r.value.1 % 3 == 0
    decreases remaining, |input|
  {
    if remaining == 0 then Some(([], 0))
    else if |input| < 3 then None
    else
      var n := TrimRun(ARRAY_SIZE - remaining, ReadUint16(input[1], input[2]));
      match RleFill(input[3..], remaining - n)
      case None => None
      case Some((rest, used)) => Some((Repeat(input[0], n) + rest, used + 3))
  }

  class SrxeCommandHandler {
    const arr: array<byte>
    /** The 64-byte `buffer` the serial helpers share with the handlers. */
    const buffer: array<byte>
    /** The global scroll offset `pixelsScrolled`. */
    var pixelsScrolled: uint16
    var rx: seq<byte>
    var draws: seq<DisplayCall>

    predicate Valid()
      reads this
    {
      arr.Length == ARRAY_SIZE && buffer.Length == BUFFER_SIZE && arr != buffer
      && pixelsScrolled < SCREEN_VERTICAL_SIZE
    }

    constructor (input: seq<byte>)
      ensures Valid() && fresh(arr) && fresh(buffer)
      ensures pixelsScrolled == 0 && rx == input && draws == []
    {
      arr := new byte[ARRAY_SIZE];
      buffer := new byte[BUFFER_SIZE];
      pixelsScrolled := 0;
      rx := input;
      draws := [];
    }

    /** `serialReadUint8`, given that a byte has arrived. */
    method ReadUint8() returns (b: byte)
      requires |rx| >= 1
      modifies this
      ensures b == old(rx)[0] && rx == old(rx)[1..]
      ensures pixelsScrolled == old(pixelsScrolled) && draws == old(draws)
    {
      b := rx[0];
      rx := rx[1..];
    }

    /** `serialReadUint16`: high byte first. */
    method ReadUint16Method() returns (n: uint16)
      requires |rx| >= 2
      modifies this
      ensures n == ReadUint16(old(rx)[0], old(rx)[1]) && rx == old(rx)[2..]
      ensures pixelsScrolled == old(pixelsScrolled) && draws == old(draws)
    {
      var high := ReadUint8();
      var low := ReadUint8();
      n := ReadUint16(high, low);
      assert old(rx)[2..] == old(rx)[1..][1..];
    }

    method HandleClearScreen()
      requires Valid()
      modifies this
      ensures Valid() && pixelsScrolled == 0 && rx == old(rx)
      ensures draws == old(draws) + [ScrollReset, ScrollArea(0, SCREEN_VERTICAL_SIZE, 24), Fill(0)]
    {
      draws := draws + [ScrollReset, ScrollArea(0, SCREEN_VERTICAL_SIZE, 24)];
      pixelsScrolled := 0;
      draws := draws + [Fill(0)];
    }

    method HandleScrollUp()
      requires Valid() && |rx| >= 1
      modifies this
      ensures Valid()
      ensures pixelsScrolled == (old(pixelsScrolled) + Val(old(rx)[0])) % SCREEN_VERTICAL_SIZE
      ensures rx == old(rx)[1..] && draws == old(draws) + [Scroll(old(rx)[0])]
    {
      var pixels := ReadUint8();
      pixelsScrolled := ((pixelsScrolled + Val(pixels)) % 0x1_0000) % SCREEN_VERTICAL_SIZE;
      draws := draws + [Scroll(pixels)];
    }

    /** The five header bytes of the text commands: `y, font, fg, bg, length`. */
    method ReadTextHeader() returns (y: byte, fontSize: byte, fgColor: byte, bgColor: byte, length: byte)
      requires |rx| >= 5
      modifies this
      ensures y == old(rx)[0] && fontSize == old(rx)[1] && fgColor == old(rx)[2] && bgColor == old(rx)[3]
      ensures length == old(rx)[4] && rx == old(rx)[5..]
      ensures pixelsScrolled == old(pixelsScrolled) && draws == old(draws)
    {
      y := ReadUint8();
      fontSize := ReadUint8();
      fgColor := ReadUint8();
      bgColor := ReadUint8();
      length := ReadUint8();
      assert old(rx)[5..] == old(rx)[1..][1..][1..][1..][1..];
    }

    /** The text loop of both text commands: read `length` bytes and keep
        character `i` at `i + offset` when `i < maxChars`. */
    method ReceiveText(length: nat, offset: nat, maxChars: nat)
      requires Valid() && |rx| >= length && offset + maxChars <= BUFFER_SIZE
      modifies this, buffer
      ensures Valid() && pixelsScrolled == old(pixelsScrolled) && draws == old(draws)
      ensures rx == old(rx)[length..]
      ensures buffer[..] == Received(old(buffer[..]), old(rx)[..length], offset, maxChars)
    {
      ghost var input := rx;
      ghost var data := input[..length];
      var i := 0;
      while i < length
        invariant 0 <= i <= length
        invariant rx == input[i..]
        invariant pixelsScrolled == old(pixelsScrolled) && draws == old(draws)
        invariant forall k :: 0 <= k < BUFFER_SIZE ==>
          buffer[k] == if offset <= k && k - offset < i && k - offset < maxChars then data[k - offset] else old(buffer[k])
      {
        var c := ReadUint8();
        if i < maxChars {
          buffer[i + offset] := c;
        }
        i := i + 1;
      }
      assert buffer[..] == Received(old(buffer[..]), data, offset, maxChars);
    }

    /** The padding loop of both text commands: spaces from `start` up to
        index 62 (none when `start` is past it), then the NUL at 63. */
    method PadWithSpaces(start: nat)
      requires Valid()
      modifies buffer
      ensures buffer[..] == PaddedFrom(old(buffer[..]), start)
    {
      var j := start;
      while j < NUMBER_OF_CHARS_TO_POSSIBLY_RECEIVE
        invariant start <= j && (j <= NUMBER_OF_CHARS_TO_POSSIBLY_RECEIVE || j == start)
        invariant forall k :: 0 <= k < BUFFER_SIZE ==>
          buffer[k] == if start <= k < j then 0x20 else old(buffer[k])
      {
        buffer[j] := 0x20;
        j := j + 1;
      }
      buffer[NUMBER_OF_CHARS_TO_POSSIBLY_RECEIVE] := 0;
      assert buffer[..] == PaddedFrom(old(buffer[..]), start);
    }

    /** The buffer part of `handleWriteText`: `length` text bytes, then the padding. */
    method ReceiveLine(length: byte)
      requires Valid() && |rx| >= Val(length)
      modifies this, buffer
      ensures Valid() && pixelsScrolled == old(pixelsScrolled) && draws == old(draws)
      ensures rx == old(rx)[Val(length)..]
      ensures buffer[..] == WriteTextBuffer(old(buffer[..]), old(rx)[..Val(length)])
    {
      ghost var before := buffer[..];
      ghost var data := rx[..Val(length)];
      ReceiveText(Val(length), 0, NUMBER_OF_CHARS_TO_POSSIBLY_RECEIVE - 1);
      PadWithSpaces(Val(length));
      WriteTextComposed(before, data);
    }

    /** The buffer part of `handleWritePromptText`: the prompt, `length` text
        bytes after it, then the padding. */
    method ReceivePromptLine(length: byte)
      requires Valid() && |rx| >= Val(length)
      modifies this, buffer
      ensures Valid() && pixelsScrolled == old(pixelsScrolled) && draws == old(draws)
      ensures rx == old(rx)[Val(length)..]
      ensures buffer[..] == PromptTextBuffer(old(buffer[..]), old(rx)[..Val(length)])
    {
      ghost var before := buffer[..];
      ghost var data := rx[..Val(length)];
      buffer[0] := 0x43;
      buffer[1] := 0x4D;
      buffer[2] := 0x44;
      buffer[3] := 0x3E;
      buffer[4] := 0x20;
      assert buffer[..] == PROMPT_BYTES + before[PROMPT_CHARS..];
      ReceiveText(Val(length), PROMPT_CHARS, NUMBER_OF_CHARS_TO_POSSIBLY_RECEIVE - 1 - PROMPT_CHARS);
      PadWithSpaces(PromptPadStart(Val(length)));
      PromptTextComposed(before, data);
    }

    /** `SRXEWriteString(0, (y + pixelsScrolled) % 136, buffer, ...)`: draws
        the buffer up to its NUL. */
    method DrawText(y: byte, fontSize: byte, fgColor: byte, bgColor: byte)
      modifies this
      ensures draws == old(draws) + [WriteString(0, AdjustY(Val(y), pixelsScrolled), CString(buffer[..]), fontSize, fgColor, bgColor)]
      ensures pixelsScrolled == old(pixelsScrolled) && rx == old(rx)
    {
      var yy := AdjustY(Val(y), pixelsScrolled);
      draws := draws + [WriteString(0, yy, CString(buffer[..]), fontSize, fgColor, bgColor)];
    }

    /** `handleWriteText`: five header bytes `y, font, fg, bg, length`, then
        `length` text bytes, all of them read whatever the length. */
    method HandleWriteText()
      requires Valid() && |rx| >= 5 && |rx| >= 5 + Val(rx[4])
      modifies this, buffer
      ensures Valid() && pixelsScrolled == old(pixelsScrolled)
      ensures rx == old(rx)[5 + Val(old(rx)[4])..]
      ensures buffer[..] == WriteTextBuffer(old(buffer[..]), old(rx)[5..5 + Val(old(rx)[4])])
      ensures draws == old(draws) + [WriteString(0, AdjustY(Val(old(rx)[0]), pixelsScrolled), CString(buffer[..]),
                                                 old(rx)[1], old(rx)[2], old(rx)[3])]
    {
      ghost var input := rx;
      var y, fontSize, fgColor, bgColor, length := ReadTextHeader();
      SliceOfSlice(input, 5, Val(length));
      ReceiveLine(length);
      DrawText(y, fontSize, fgColor, bgColor);
    }

    /** `handleWritePromptText`: like `handleWriteText`, with "CMD> " in front
        of the text. */
    method HandleWritePromptText()
      requires Valid() && |rx| >= 5 && |rx| >= 5 + Val(rx[4])
      modifies this, buffer
      ensures Valid() && pixelsScrolled == old(pixelsScrolled)
      ensures rx == old(rx)[5 + Val(old(rx)[4])..]
      ensures buffer[..] == PromptTextBuffer(old(buffer[..]), old(rx)[5..5 + Val(old(rx)[4])])
      ensures draws == old(draws) + [WriteString(0, AdjustY(Val(old(rx)[0]), pixelsScrolled), CString(buffer[..]),
                                                 old(rx)[1], old(rx)[2], old(rx)[3])]
    {
      ghost var input := rx;
      var y, fontSize, fgColor, bgColor, length := ReadTextHeader();
      SliceOfSlice(input, 5, Val(length));
      ReceivePromptLine(length);
      DrawText(y, fontSize, fgColor, bgColor);
    }

    /** `memset(arr + position, value, count)`. */
    method FillRun(position: nat, value: byte, count: nat)
      requires Valid() && position + count <= ARRAY_SIZE
      modifies arr
      ensures arr[..] == old(arr[..position]) + Repeat(value, count) + old(arr[position + count..])
      ensures arr[..position + count] == old(arr[..position]) + Repeat(value, count)
    {
      for k := 0 to count
        invariant forall m :: 0 <= m < ARRAY_SIZE ==>
          arr[m] == if position <= m < position + k then value else old(arr[m])
      {
        arr[position + k] := value;
      }
      assert arr[..] == old(arr[..position]) + Repeat(value, count) + old(arr[position + count..]);
      assert arr[..position + count] == old(arr[..position]) + Repeat(value, count);
    }

    /** One pass of the decompression loop: a value and a 16-bit count, and
        the value written over the next `n` bytes, the count cut to the space
        left. */
    method DecodeRun(arrayPosition: nat) returns (n: nat)
      requires Valid() && arrayPosition < ARRAY_SIZE
      requires RleFill(rx, ARRAY_SIZE - arrayPosition).Some?
      modifies this, arr
      ensures Valid() && pixelsScrolled == old(pixelsScrolled) && draws == old(draws)
      ensures arrayPosition + n <= ARRAY_SIZE && rx == old(rx)[3..]
      ensures RleFill(rx, ARRAY_SIZE - arrayPosition - n).Some?
      ensures arr[..arrayPosition + n] + RleFill(rx, ARRAY_SIZE - arrayPosition - n).value.0
              == old(arr[..arrayPosition]) + RleFill(old(rx), ARRAY_SIZE - arrayPosition).value.0
      ensures RleFill(old(rx), ARRAY_SIZE - arrayPosition).value.1 == RleFill(rx, ARRAY_SIZE - arrayPosition - n).value.1 + 3
    {
      ghost var cur := rx;
      ghost var prefix := arr[..arrayPosition];
      RleStepJoin(prefix, cur, ARRAY_SIZE - arrayPosition);
      var dataToPrint := ReadUint8();
      var timesToPrintIt := ReadUint16Method();
      assert rx == cur[3..] && dataToPrint == cur[0] && timesToPrintIt == ReadUint16(cur[1], cur[2]);
      n := TrimRun(arrayPosition, timesToPrintIt);
      FillRun(arrayPosition, dataToPrint, n);
    }

    /** The decompression loop of `printBlockRle`. */
    method DecodeRuns()
      requires Valid() && RleFill(rx, ARRAY_SIZE).Some?
      modifies this, arr
      ensures Valid() && pixelsScrolled == old(pixelsScrolled) && draws == old(draws)
      ensures arr[..] == RleFill(old(rx), ARRAY_SIZE).value.0
      ensures rx == old(rx)[RleFill(old(rx), ARRAY_SIZE).value.1..]
    {
      ghost var input := rx;
      ghost var wholeFill := RleFill(input, ARRAY_SIZE).value.0;
      ghost var wholeUsed := RleFill(input, ARRAY_SIZE).value.1;
      ghost var used := 0;
      var arrayPosition := 0;
      while arrayPosition < ARRAY_SIZE
        invariant arrayPosition <= ARRAY_SIZE && used <= |input|
        invariant rx == input[used..]
        invariant Valid() && pixelsScrolled == old(pixelsScrolled) && draws == old(draws)
        invariant RleFill(rx, ARRAY_SIZE - arrayPosition).Some?
        invariant arr[..arrayPosition] + RleFill(rx, ARRAY_SIZE - arrayPosition).value.0 == wholeFill
        invariant used + RleFill(rx, ARRAY_SIZE - arrayPosition).value.1 == wholeUsed
        decreases ARRAY_SIZE - arrayPosition, |rx|
      {
        var n := DecodeRun(arrayPosition);
        assert rx == input[used + 3..];
        arrayPosition := arrayPosition + n;
        used := used + 3;
      }
      assert arr[..] == arr[..ARRAY_SIZE];
      assert RleFill(rx, 0).value == ([], 0);
    }

    /** `printBlockRle`: `x` and `y` (16 bits each), then runs of a value
        and a 16-bit count until all 544 bytes are filled; a run too long
        for the space left is cut. The scroll offset is not added to `y`. */
    method PrintBlockRle()
      requires Valid() && |rx| >= 4 && RleFill(rx[4..], ARRAY_SIZE).Some?
      modifies this, arr
      ensures Valid() && pixelsScrolled == old(pixelsScrolled)
      ensures arr[..] == RleFill(old(rx)[4..], ARRAY_SIZE).value.0
      ensures rx == old(rx)[4 + RleFill(old(rx)[4..], ARRAY_SIZE).value.1..]
      ensures draws == old(draws) + [SetPosition(ReadUint16(old(rx)[0], old(rx)[1]), ReadUint16(old(rx)[2], old(rx)[3]), 48, 34),
                                     WriteDataBlock(arr[..])]
    {
      ghost var input := rx;
      var x := ReadUint16Method();
      var y := ReadUint16Method();
      assert rx == input[4..] && x == ReadUint16(input[0], input[1]) && y == ReadUint16(input[2], input[3]);
      DecodeRuns();
      assert input[4..][RleFill(input[4..], ARRAY_SIZE).value.1..] == input[4 + RleFill(input[4..], ARRAY_SIZE).value.1..];
      draws := draws + [SetPosition(x, y, 48, 34), WriteDataBlock(arr[..])];
    }

    /** `printBlock`: `x` and `y`, then exactly 544 raw bytes; the scroll
        offset is added to `y`. */
    method PrintBlock()
      requires Valid() && |rx| >= 4 + ARRAY_SIZE
      modifies this, arr
      ensures Valid() && pixelsScrolled == old(pixelsScrolled)
      ensures arr[..] == old(rx)[4..4 + ARRAY_SIZE]
      ensures rx == old(rx)[4 + ARRAY_SIZE..]
      ensures draws == old(draws) + [SetPosition(ReadUint16(old(rx)[0], old(rx)[1]),
                                                 AdjustY(ReadUint16(old(rx)[2], old(rx)[3]), pixelsScrolled), 48, 34),
                                     WriteDataBlock(arr[..])]
    {
      ghost var input := rx;
      var x := ReadUint16Method();
      var y := ReadUint16Method();
      assert rx == input[4..];
      var arrayPosition := 0;
      while arrayPosition < ARRAY_SIZE
        invariant arrayPosition <= ARRAY_SIZE
        invariant rx == input[4 + arrayPosition..]
        invariant pixelsScrolled == old(pixelsScrolled) && draws == old(draws)
        invariant arr[..arrayPosition] == input[4..4 + arrayPosition]
      {
        var dataToPrint := ReadUint8();
        arr[arrayPosition] := dataToPrint;
        assert arr[..arrayPosition + 1] == arr[..arrayPosition] + [dataToPrint];
        arrayPosition := arrayPosition + 1;
      }
      assert arr[..] == arr[..ARRAY_SIZE];
      var yy := AdjustY(y, pixelsScrolled);
      draws := draws + [SetPosition(x, yy, 48, 34), WriteDataBlock(arr[..])];
    }
  }

  /** The two loops of `handleWriteText` compose to `WriteTextBuffer`. */
  lemma WriteTextComposed(before: seq<byte>, data: seq<byte>)
    requires |before| == BUFFER_SIZE
    ensures PaddedFrom(Received(before, data, 0, NUMBER_OF_CHARS_TO_POSSIBLY_RECEIVE - 1), |data|)
            == WriteTextBuffer(before, data)
  {
  }

  /** The prompt, the two loops of `handleWritePromptText` and the NUL compose to `PromptTextBuffer`. */
  lemma PromptTextComposed(before: seq<byte>, data: seq<byte>)
    requires |before| == BUFFER_SIZE && |data| < 256
    ensures PaddedFrom(Received(PROMPT_BYTES + before[PROMPT_CHARS..], data, PROMPT_CHARS,
                                NUMBER_OF_CHARS_TO_POSSIBLY_RECEIVE - 1 - PROMPT_CHARS), PromptPadStart(|data|))
            == PromptTextBuffer(before, data)
  {
  }

  // ---------------------------------------------------------------------
  // Properties of the handlers

  /** The scroll offset stays below 136 whatever is added, and a clear resets it. */
  lemma ScrollOffsetBounded(pixelsScrolled: uint16, pixels: byte)
    requires pixelsScrolled < SCREEN_VERTICAL_SIZE
    ensures AdjustY(Val(pixels), pixelsScrolled) == (pixelsScrolled + Val(pixels)) % SCREEN_VERTICAL_SIZE
  {
  }

  /** Text at y = 120 with the screen scrolled by 24 is drawn at y = 8. */
  lemma WriteTextYExample()
    ensures AdjustY(120, 24) == 8
  {
  }

  /** For text shorter than 62 characters, the buffer holds the text, then
      spaces up to index 62, then NUL; what is drawn is the text padded with
      spaces to 63 columns when the text has no NUL in it. */
  lemma {:induction false} WriteTextShortLine(before: seq<byte>, data: seq<byte>)
    requires |before| == BUFFER_SIZE && |data| < NUMBER_OF_CHARS_TO_POSSIBLY_RECEIVE - 1
    requires forall i :: 0 <= i < |data| ==> data[i] != 0
    ensures WriteTextBuffer(before, data)[..|data|] == data
    ensures forall j :: |data| <= j < NUMBER_OF_CHARS_TO_POSSIBLY_RECEIVE ==> WriteTextBuffer(before, data)[j] == 0x20
    ensures WriteTextBuffer(before, data)[NUMBER_OF_CHARS_TO_POSSIBLY_RECEIVE] == 0
    ensures CString(WriteTextBuffer(before, data)) == data + Repeat(0x20, NUMBER_OF_CHARS_TO_POSSIBLY_RECEIVE - |data|)
  {
    var r := WriteTextBuffer(before, data);
    var expected := data + Repeat(0x20, NUMBER_OF_CHARS_TO_POSSIBLY_RECEIVE - |data|);
    assert r[..NUMBER_OF_CHARS_TO_POSSIBLY_RECEIVE] == expected;
    CStringUpToNul(r, NUMBER_OF_CHARS_TO_POSSIBLY_RECEIVE);
  }

  /** `strlen` stops at the first NUL. */
  lemma CStringUpToNul(s: seq<byte>, n: nat)
    requires n < |s| && s[n] == 0 && forall i :: 0 <= i < n ==> s[i] != 0
    ensures CString(s) == s[..n]
  {
  }

  /** One run of the decoder: its value repeated, cut to the space left,
      then the rest of the runs. */
  lemma RleStep(input: seq<byte>, remaining: nat)
    requires 0 < remaining <= ARRAY_SIZE && RleFill(input, remaining).Some?
    ensures |input| >= 3
    ensures var n := TrimRun(ARRAY_SIZE - remaining, ReadUint16(input[1], input[2]));
      && RleFill(input[3..], remaining - n).Some?
      && RleFill(input, remaining).value.0 == Repeat(input[0], n) + RleFill(input[3..], remaining - n).value.0
      && RleFill(input, remaining).value.1 == RleFill(input[3..], remaining - n).value.1 + 3
  {
  }

  /** `RleStep` with the bytes already filled in front: the prefix, the
      run and the rest of the runs are the prefix and all the runs. */
  lemma RleStepJoin(prefix: seq<byte>, input: seq<byte>, remaining: nat)
    requires 0 < remaining <= ARRAY_SIZE && RleFill(input, remaining).Some?
    ensures |input| >= 3
    ensures var n := TrimRun(ARRAY_SIZE - remaining, ReadUint16(input[1], input[2]));
      && RleFill(input[3..], remaining - n).Some?
      && (prefix + Repeat(input[0], n)) + RleFill(input[3..], remaining - n).value.0
         == prefix + RleFill(input, remaining).value.0
      && RleFill(input, remaining).value.1 == RleFill(input[3..], remaining - n).value.1 + 3
  {
    RleStep(input, remaining);
    var n := TrimRun(ARRAY_SIZE - remaining, ReadUint16(input[1], input[2]));
    var rest := RleFill(input[3..], remaining - n).value.0;
    assert (prefix + Repeat(input[0], n)) + rest == prefix + (Repeat(input[0], n) + rest);
  }

  /** A long text keeps only its first 62 characters; every byte of it is
      still read. Index 62 is then left as it was. */
  lemma WriteTextLongLine(before: seq<byte>, data: seq<byte>)
    requires |before| == BUFFER_SIZE && |data| >= NUMBER_OF_CHARS_TO_POSSIBLY_RECEIVE
    ensures WriteTextBuffer(before, data)[..62] == data[..62]
    ensures WriteTextBuffer(before, data)[62] == before[62]
    ensures WriteTextBuffer(before, data)[63] == 0
  {
    assert WriteTextBuffer(before, data)[..62] == data[..62];
  }

  /** The prompt line starts "CMD> " for every length below 251, character `i`
      sits at index `i + 5` for `i < 57`, spaces follow the text up to
      index 62, and NUL is at 63. */
  lemma PromptTextLayout(before: seq<byte>, data: seq<byte>)
    requires |before| == BUFFER_SIZE && |data| < 251
    ensures PromptTextBuffer(before, data)[..PROMPT_CHARS] == PROMPT_BYTES
    ensures forall i :: 0 <= i < |data| && i < 57 ==> PromptTextBuffer(before, data)[i + PROMPT_CHARS] == data[i]
    ensures forall j :: |data| + PROMPT_CHARS <= j < NUMBER_OF_CHARS_TO_POSSIBLY_RECEIVE ==> PromptTextBuffer(before, data)[j] == 0x20
    ensures PromptTextBuffer(before, data)[NUMBER_OF_CHARS_TO_POSSIBLY_RECEIVE] == 0
  {
    var r := PromptTextBuffer(before, data);
    assert PromptPadStart(|data|) == |data| + PROMPT_CHARS;
    assert forall j :: 0 <= j < PROMPT_CHARS ==> r[j] == PROMPT_BYTES[j];
  }

  /** From 251 characters on, the 8-bit start of the padding wraps below 5
      and the spaces overwrite the prompt and the text: the whole line up to
      index 62 is blank. */
  lemma PromptPadWraps(before: seq<byte>, data: seq<byte>)
    requires |before| == BUFFER_SIZE && 251 <= |data| < 256
    ensures forall j :: 0 <= j < NUMBER_OF_CHARS_TO_POSSIBLY_RECEIVE ==>
      (j >= PromptPadStart(|data|) ==> PromptTextBuffer(before, data)[j] == 0x20)
    ensures PromptPadStart(|data|) < PROMPT_CHARS
  {
  }

  /** `printBlockRle` fills exactly 544 bytes: the filled bytes are the runs in
      order, each cut at the end of the array. A first run of 544 or more
      fills everything with its value and uses three input bytes. */
  lemma RleSingleRun(input: seq<byte>)
    requires |input| >= 3 && ReadUint16(input[1], input[2]) >= ARRAY_SIZE
    ensures RleFill(input, ARRAY_SIZE) == Some((Repeat(input[0], ARRAY_SIZE), 3))
  {
    assert RleFill(input[3..], 0) == Some(([], 0));
    assert Repeat(input[0], ARRAY_SIZE) + [] == Repeat(input[0], ARRAY_SIZE);
  }

  /** Runs that exactly tile the array are used whole, in order. */
  lemma {:induction false} RleRunsFill(input: seq<byte>, remaining: nat, v: byte, count: uint16)
    requires remaining <= ARRAY_SIZE && 0 < count <= remaining && |input| >= 3
    requires input[0] == v && ReadUint16(input[1], input[2]) == count
    requires RleFill(input[3..], remaining - count).Some?
    ensures RleFill(input, remaining).Some?
    ensures RleFill(input, remaining).value.0 == Repeat(v, count) + RleFill(input[3..], remaining - count).value.0
  {
  }

  // ---------------------------------------------------------------------
  // The trim check's 16-bit wrap

  /** With 1 byte filled, a count of 65535 wraps the 16-bit sum to 0, which
      passes the check uncut: the run would then write 65535 bytes into the
      543 left. */
  lemma TrimRunWrapExample()
    ensures TrimRunAsWritten(1, 65535) == 65535
    ensures 1 + TrimRunAsWritten(1, 65535) > ARRAY_SIZE
    ensures TrimRun(1, 65535) == ARRAY_SIZE - 1
  {
  }

  /** The unbounded check never lets a run past the end of the array, and it
      agrees with the device's check whenever the sum fits in 16 bits. */
  lemma TrimRunAgrees(position: uint16, count: uint16)
    requires position <= ARRAY_SIZE
    ensures position + TrimRun(position, count) <= ARRAY_SIZE
    ensures position + count < 0x1_0000 ==> TrimRunAsWritten(position, count) == TrimRun(position, count)
  {
  }
}
