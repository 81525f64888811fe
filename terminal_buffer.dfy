/** The older host's screen sender. It reads the rows a font shows from the
    screen buffer and sends them to the device with 16-bit big-endian
    coordinates: after clearing the screen when the new output fills it,
    else after scrolling by the new lines' height, resending the rows at
    the bottom.

    The command codes this host imports from a module that is not part of
    this model are parameters. The serial link is the list of writes, in
    order; the waits for the device's ready packet are not modelled. */
module TerminalBuffer {
  import opened Bytes
  import opened Wrappers
  import opened Config
  import opened PyStr
  import opened ScreenBuffer

  /** The command codes `CMD_WRITE_CHAR`, `CMD_SCROLL_UP`, `CMD_CLEAR_SCREEN`. */
  datatype Codes = Codes(writeChar: byte, scrollUp: byte, clearScreen: byte)

  /** The text `send_line_to_arduino` sends: the line cut or padded to the
      font's columns, and with `forceTrim` stripped on both sides as well. */
  function LineText(line: string, fontId: FontId, forceTrim: bool): (r: string)
    ensures |r| <= SCREEN_BUFFER_FONTS[fontId].cols
    ensures !forceTrim ==> |r| == SCREEN_BUFFER_FONTS[fontId].cols
  {
    var cols := SCREEN_BUFFER_FONTS[fontId].cols;
    var fitted := LJust(Take(line, cols), cols);
    RStripShape(fitted);
    LStripSuffix(RStrip(fitted));
    if forceTrim then Strip(fitted) else fitted
  }

  /** The bytes of a line's text. */
  function LineBytes(line: string, fontId: FontId, forceTrim: bool): (r: seq<byte>)
    ensures |r| == |LineText(line, fontId, forceTrim)|
  {
    EncodeAscii(LineText(line, fontId, forceTrim))
  }

  /** `y = display_row * pixels_per_row + padding`. */
  function LineY(displayRow: nat, fontId: FontId): nat
  {
    displayRow * SCREEN_BUFFER_FONTS[fontId].pixelsPerRow + SCREEN_BUFFER_FONTS[fontId].padding
  }

  /** The command bytes of a line at a y that fits in 16 bits:
      `[write, x = 0, y, font, 3, 0, length] + text`, with x, y and length
      packed big-endian on two bytes each. */
  function LineCommand(codes: Codes, y: uint16, fontId: FontId, text: seq<byte>): seq<byte>
    requires |text| < 0x1_0000
  {
    [codes.writeChar] + Uint16BE(0) + Uint16BE(y)
    + [B(fontId)] + [3] + [0] + Uint16BE(|text|) + text
  }

  /** `send_line_to_arduino`'s write: none when `struct.pack('>H', y)`
      raises, that is when y does not fit in 16 bits. */
  function SendLine(codes: Codes, line: string, displayRow: nat, fontId: FontId, forceTrim: bool): Option<seq<byte>>
  {
    if LineY(displayRow, fontId) < 0x1_0000 then
      Some(LineCommand(codes, LineY(displayRow, fontId), fontId, LineBytes(line, fontId, forceTrim)))
    else None
  }

  /** The layout of a line command: ten header bytes, then the text, whose
      length the header gives. */
  lemma LineCommandLayout(codes: Codes, y: uint16, fontId: FontId, text: seq<byte>)
    requires |text| < 0x1_0000
    ensures var c := LineCommand(codes, y, fontId, text);
      |c| == 10 + |text|
      && c[0] == codes.writeChar && c[1] == 0 && c[2] == 0
      && Val(c[3]) * 256 + Val(c[4]) == y
      && Val(c[5]) == fontId && c[6] == 3 && c[7] == 0
      && Val(c[8]) * 256 + Val(c[9]) == |text|
      && c[10..] == text
  {
    var header := [codes.writeChar] + Uint16BE(0) + Uint16BE(y) + [B(fontId)] + [3] + [0] + Uint16BE(|text|);
    assert Uint16BE(0) == [0, 0];
    assert |header| == 10;
    assert LineCommand(codes, y, fontId, text) == header + text;
    assert (header + text)[10..] == text;
  }

  /** Every row a font shows has a y that fits. */
  lemma ShownRowsFit(displayRow: nat, fontId: FontId)
    requires displayRow < SCREEN_ROWS
    ensures LineY(displayRow, fontId) < 2 * VERTICAL_SCREEN_SIZE < 0x1_0000
  {
    assert SCREEN_BUFFER_FONTS[fontId].pixelsPerRow <= 16 && SCREEN_BUFFER_FONTS[fontId].padding <= 8;
  }

  /** The y of a shown row. */
  function ShownRowY(displayRow: nat, fontId: FontId): (y: uint16)
    requires displayRow < SCREEN_ROWS
    ensures y == LineY(displayRow, fontId)
  {
    ShownRowsFit(displayRow, fontId);
    LineY(displayRow, fontId)
  }

  /** `scroll_screen_up`'s write: `[scroll] + pixels` on two big-endian
      bytes; none when the pixel count does not fit in 16 bits. */
  function ScrollCommand(codes: Codes, pixels: int): (r: Option<seq<byte>>)
    ensures r.Some? <==> 0 <= pixels < 0x1_0000
    ensures r.Some? ==> |r.value| == 3 && r.value[0] == codes.scrollUp
                        && Val(r.value[1]) * 256 + Val(r.value[2]) == pixels
  {
    if 0 <= pixels < 0x1_0000 then Some([codes.scrollUp] + Uint16BE(pixels)) else None
  }

  /** The write for shown row `i`. */
  function RowCommand(codes: Codes, shown: seq<string>, fontId: FontId, forceTrim: bool, i: nat): seq<byte>
    requires i < |shown| <= SCREEN_ROWS
  {
    LineCommand(codes, ShownRowY(i, fontId), fontId, LineBytes(shown[i], fontId, forceTrim))
  }

  /** The writes of every shown row, in order. */
  function RowCommands(codes: Codes, shown: seq<string>, fontId: FontId, forceTrim: bool): (r: seq<seq<byte>>)
    requires |shown| <= SCREEN_ROWS
    ensures |r| == |shown|
  {
    seq(|shown|, i requires 0 <= i < |shown| => RowCommand(codes, shown, fontId, forceTrim, i))
  }

  /** Of the commands for rows `0..k`, those whose buffer row
      `start + row` is above `threshold`, in order. */
  function KeptRows(cmds: seq<seq<byte>>, start: nat, threshold: int, k: nat): seq<seq<byte>>
    requires k <= |cmds|
  {
    if k == 0 then []
    else KeptRows(cmds, start, threshold, k - 1) + if start + (k - 1) > threshold then [cmds[k - 1]] else []
  }

  /** The line writes for the shown rows `0..k`, keeping a row when its
      buffer row `start + row` is above `threshold`. */
  function RowWrites(codes: Codes, shown: seq<string>, start: nat, fontId: FontId, forceTrim: bool, threshold: int, k: nat): seq<seq<byte>>
    requires k <= |shown| <= SCREEN_ROWS
  {
    KeptRows(RowCommands(codes, shown, fontId, forceTrim), start, threshold, k)
  }

  /** One more row of the row writes. */
  lemma RowWritesNext(codes: Codes, shown: seq<string>, start: nat, fontId: FontId, forceTrim: bool, threshold: int, k: nat)
    requires k < |shown| <= SCREEN_ROWS
    ensures RowWrites(codes, shown, start, fontId, forceTrim, threshold, k + 1)
      == RowWrites(codes, shown, start, fontId, forceTrim, threshold, k)
         + if start + k > threshold then [RowCommand(codes, shown, fontId, forceTrim, k)] else []
  {
    assert RowCommands(codes, shown, fontId, forceTrim)[k] == RowCommand(codes, shown, fontId, forceTrim, k);
  }

  /** The number of new rows `send_screen_to_arduino` works with: the new
      output lines and the prompt. */
  function EffectiveNewLines(numNewLines: nat): nat
  {
    numNewLines + 1
  }

  /** A scroll by fewer rows than the font shows stays on the screen. */
  lemma ScrollFits(n: nat, fontId: FontId)
    requires n < SCREEN_BUFFER_FONTS[fontId].rowsVisible
    ensures n * SCREEN_BUFFER_FONTS[fontId].pixelsPerRow < VERTICAL_SCREEN_SIZE
  {
  }

  /** The redraw case: one clear, then every shown row, trimmed. */
  function RedrawWrites(codes: Codes, shown: seq<string>, start: nat, fontId: FontId): seq<seq<byte>>
    requires |shown| <= SCREEN_ROWS
  {
    [[codes.clearScreen]] + RowWrites(codes, shown, start, fontId, true, -1, |shown|)
  }

  /** The scroll case: one scroll by the new rows' height, then the shown
      rows whose buffer row is above `visible_rows - n - 2`, untrimmed. */
  function ScrollWrites(codes: Codes, shown: seq<string>, start: nat, fontId: FontId, n: nat): seq<seq<byte>>
    requires |shown| <= SCREEN_ROWS && n < SCREEN_BUFFER_FONTS[fontId].rowsVisible - 1
  {
    [ScrollCommand(codes, ScrollPixels(n, fontId)).value]
    + RowWrites(codes, shown, start, fontId, false, SCREEN_BUFFER_FONTS[fontId].rowsVisible - n - 1 - 1, |shown|)
  }

  /** The height of `n` rows of the font, in pixels. */
  function ScrollPixels(n: nat, fontId: FontId): (pixels: nat)
    requires n < SCREEN_BUFFER_FONTS[fontId].rowsVisible
    ensures pixels < VERTICAL_SCREEN_SIZE
  {
    ScrollFits(n, fontId);
    n * SCREEN_BUFFER_FONTS[fontId].pixelsPerRow
  }

  /** `send_screen_to_arduino`: every write, in order. */
  function ScreenWrites(codes: Codes, bufferLines: seq<string>, fontId: FontId, numNewLines: nat, forceFullRedraw: bool): seq<seq<byte>>
  {
    LinesForFontBounded(bufferLines, fontId);
    WritesFor(codes, LinesForFont(bufferLines, fontId), fontId, EffectiveNewLines(numNewLines), forceFullRedraw)
  }

  /** The writes for the first buffer row and shown rows `view`, with `n`
      new rows: a redraw when asked or when they fill the font's rows, else
      a scroll. */
  function WritesFor(codes: Codes, view: (nat, seq<string>), fontId: FontId, n: nat, forceFullRedraw: bool): seq<seq<byte>>
    requires |view.1| <= SCREEN_ROWS
  {
    if forceFullRedraw || n >= SCREEN_BUFFER_FONTS[fontId].rowsVisible - 1 then RedrawWrites(codes, view.1, view.0, fontId)
    else ScrollWrites(codes, view.1, view.0, fontId, n)
  }

  lemma LinesForFontBounded(bufferLines: seq<string>, fontId: FontId)
    ensures |LinesForFont(bufferLines, fontId).1| <= SCREEN_ROWS
    ensures LinesForFont(bufferLines, fontId).0 + |LinesForFont(bufferLines, fontId).1| <= SCREEN_ROWS
  {
  }

  /** Each row write is what `send_line_to_arduino` writes for that row. */
  lemma RowCommandIsSendLine(codes: Codes, shown: seq<string>, fontId: FontId, forceTrim: bool, i: nat)
    requires i < |shown| <= SCREEN_ROWS
    ensures SendLine(codes, shown[i], i, fontId, forceTrim) == Some(RowCommand(codes, shown, fontId, forceTrim, i))
  {
    ShownRowsFit(i, fontId);
  }

  /** The first of the rows `0..k` whose buffer row is above `threshold`;
      every row from it on is, because buffer rows grow with shown rows. */
  function FirstKept(start: nat, threshold: int, k: nat): (lo: nat)
    ensures lo <= k
    ensures lo > 0 ==> start + (lo - 1) <= threshold
    ensures lo < k ==> start + lo > threshold
  {
    if threshold - start + 1 <= 0 then 0
    else if threshold - start + 1 <= k then threshold - start + 1
    else k
  }

  /** The kept commands are those of the rows from `FirstKept` on, in order. */
  lemma {:induction false} KeptRowsFrom(cmds: seq<seq<byte>>, start: nat, threshold: int, k: nat)
    requires k <= |cmds|
    ensures var lo := FirstKept(start, threshold, k);
      KeptRows(cmds, start, threshold, k) == cmds[lo..k]
  {
    if k > 0 {
      KeptRowsFrom(cmds, start, threshold, k - 1);
      var lo := FirstKept(start, threshold, k);
      var lo' := FirstKept(start, threshold, k - 1);
      if start + (k - 1) > threshold {
        assert lo == lo' <= k - 1;
        assert cmds[lo..k] == cmds[lo..k - 1] + [cmds[k - 1]];
      } else {
        assert lo == k && lo' == k - 1;
      }
    }
  }

  /** The row writes are those of the rows from `FirstKept` on, in order. */
  lemma RowWritesKept(codes: Codes, shown: seq<string>, start: nat, fontId: FontId, forceTrim: bool, threshold: int, k: nat)
    requires k <= |shown| <= SCREEN_ROWS
    ensures RowWrites(codes, shown, start, fontId, forceTrim, threshold, k)
      == RowCommands(codes, shown, fontId, forceTrim)[FirstKept(start, threshold, k)..k]
  {
    KeptRowsFrom(RowCommands(codes, shown, fontId, forceTrim), start, threshold, k);
  }

  /** A redraw writes one clear, then every shown row trimmed, in order. */
  lemma RedrawSendsEveryRow(codes: Codes, shown: seq<string>, start: nat, fontId: FontId)
    requires |shown| <= SCREEN_ROWS
    ensures RedrawWrites(codes, shown, start, fontId) == [[codes.clearScreen]] + RowCommands(codes, shown, fontId, true)
  {
    RowWritesKept(codes, shown, start, fontId, true, -1, |shown|);
    assert RowCommands(codes, shown, fontId, true)[0..|shown|] == RowCommands(codes, shown, fontId, true);
  }

  /** The scroll case writes one scroll by the new rows' height, then the
      rows whose buffer row is above `visible_rows - n - 2`, untrimmed. */
  lemma ScrollSendsBottomRows(codes: Codes, shown: seq<string>, start: nat, fontId: FontId, n: nat)
    requires |shown| <= SCREEN_ROWS && n < SCREEN_BUFFER_FONTS[fontId].rowsVisible - 1
    ensures ScrollWrites(codes, shown, start, fontId, n)
      == [[codes.scrollUp] + Uint16BE(n * SCREEN_BUFFER_FONTS[fontId].pixelsPerRow)]
         + RowCommands(codes, shown, fontId, false)[FirstKept(start, SCREEN_BUFFER_FONTS[fontId].rowsVisible - n - 2, |shown|)..]
  {
    var threshold := SCREEN_BUFFER_FONTS[fontId].rowsVisible - n - 1 - 1;
    var cmds := RowCommands(codes, shown, fontId, false);
    var pixels := ScrollPixels(n, fontId);
    assert pixels == n * SCREEN_BUFFER_FONTS[fontId].pixelsPerRow;
    var rest := RowWrites(codes, shown, start, fontId, false, threshold, |shown|);
    assert ScrollWrites(codes, shown, start, fontId, n) == [ScrollCommand(codes, pixels).value] + rest;
    assert ScrollCommand(codes, pixels).value == [codes.scrollUp] + Uint16BE(pixels);
    RowWritesKept(codes, shown, start, fontId, false, threshold, |shown|);
    assert rest == cmds[FirstKept(start, threshold, |shown|)..];
  }

  /** `send_screen_to_arduino` clears and redraws exactly when asked to or
      when the new rows (output and prompt) are at least one fewer than the
      font shows; otherwise it scrolls. */
  lemma RedrawExactly(codes: Codes, bufferLines: seq<string>, fontId: FontId, numNewLines: nat, forceFullRedraw: bool)
    ensures var w := ScreenWrites(codes, bufferLines, fontId, numNewLines, forceFullRedraw);
      var redraw := forceFullRedraw || numNewLines + 1 >= SCREEN_BUFFER_FONTS[fontId].rowsVisible - 1;
      w != []
      && (redraw ==> w[0] == [codes.clearScreen])
      && (!redraw ==> w[0] == [codes.scrollUp] + Uint16BE((numNewLines + 1) * SCREEN_BUFFER_FONTS[fontId].pixelsPerRow))
  {
    LinesForFontBounded(bufferLines, fontId);
    var view := LinesForFont(bufferLines, fontId);
    assert ScreenWrites(codes, bufferLines, fontId, numNewLines, forceFullRedraw)
      == WritesFor(codes, view, fontId, numNewLines + 1, forceFullRedraw);
  }

  /** On a full buffer the large fonts show buffer rows 9..16, all above
      any scroll threshold, so a scroll still resends all eight rows. */
  lemma LargeFontScrollResendsAll(codes: Codes, bufferLines: seq<string>, fontId: FontId, numNewLines: nat)
    requires |bufferLines| == SCREEN_ROWS && fontId >= 2 && numNewLines + 1 < 7
    ensures var shown := LinesForFont(bufferLines, fontId).1;
      |shown| == 8
      && ScreenWrites(codes, bufferLines, fontId, numNewLines, false)
         == [[codes.scrollUp] + Uint16BE((numNewLines + 1) * 16)] + RowCommands(codes, shown, fontId, false)
  {
    var (start, shown) := LinesForFont(bufferLines, fontId);
    LinesForFontShape(bufferLines, fontId, 0);
    ScrollSendsBottomRows(codes, shown, start, fontId, numNewLines + 1);
    assert RowCommands(codes, shown, fontId, false)[0..] == RowCommands(codes, shown, fontId, false);
  }

  /** On a full buffer the small fonts resend only the bottom `n + 1`
      rows after a scroll by `n` rows, `n` counting the prompt. */
  lemma SmallFontScrollSendsBottom(codes: Codes, bufferLines: seq<string>, fontId: FontId, numNewLines: nat)
    requires |bufferLines| == SCREEN_ROWS && fontId < 2 && numNewLines + 1 < 16
    ensures var shown := LinesForFont(bufferLines, fontId).1;
      |shown| == SCREEN_ROWS
      && ScreenWrites(codes, bufferLines, fontId, numNewLines, false)
         == [[codes.scrollUp] + Uint16BE((numNewLines + 1) * 8)]
            + RowCommands(codes, shown, fontId, false)[SCREEN_ROWS - 1 - (numNewLines + 1)..]
  {
    var (start, shown) := LinesForFont(bufferLines, fontId);
    LinesForFontShape(bufferLines, fontId, 0);
    assert start == 0 && SCREEN_BUFFER_FONTS[fontId].rowsVisible == SCREEN_ROWS;
    assert ScreenWrites(codes, bufferLines, fontId, numNewLines, false)
      == ScrollWrites(codes, shown, start, fontId, numNewLines + 1);
    ScrollSendsBottomRows(codes, shown, start, fontId, numNewLines + 1);
    assert FirstKept(start, SCREEN_ROWS - (numNewLines + 1) - 2, |shown|) == SCREEN_ROWS - 1 - (numNewLines + 1);
  }

  /** The serial port as a log of the byte strings written to it. */
  class TerminalLink {
    var writes: seq<seq<byte>>

    constructor ()
      ensures writes == []
    {
      writes := [];
    }

    method ClearScreen(codes: Codes)
      modifies this
      ensures writes == old(writes) + [[codes.clearScreen]]
    {
      writes := writes + [[codes.clearScreen]];
    }

    /** Reports `false`, having written nothing, where `struct.pack` raises. */
    method ScrollScreenUp(codes: Codes, scrollPixels: int) returns (ok: bool)
      modifies this
      ensures ok == ScrollCommand(codes, scrollPixels).Some?
      ensures writes == old(writes) + ToSeq(ScrollCommand(codes, scrollPixels))
    {
      if !(0 <= scrollPixels < 0x1_0000) {
        return false;
      }
      var cmd := [codes.scrollUp];
      cmd := cmd + Uint16BE(scrollPixels);
      writes := writes + [cmd];
      return true;
    }

    /** Reports `false`, having written nothing, where `struct.pack` raises.
        The buffer row is only logged by the original. */
    method SendLineToArduino(codes: Codes, line: string, physicalRow: int, displayRow: nat, fontId: FontId, forceTrim: bool)
      returns (ok: bool)
      modifies this
      ensures ok == SendLine(codes, line, displayRow, fontId, forceTrim).Some?
      ensures writes == old(writes) + ToSeq(SendLine(codes, line, displayRow, fontId, forceTrim))
    {
      var textBytes := LineBytes(line, fontId, forceTrim);
      var y := LineY(displayRow, fontId);
      if y >= 0x1_0000 {
        return false;
      }
      var cmd := PackLine(codes, y, fontId, textBytes);
      writes := writes + [cmd];
      return true;
    }

    /** The packing of a line command, field by field. */
    static method PackLine(codes: Codes, y: uint16, fontId: FontId, textBytes: seq<byte>) returns (cmd: seq<byte>)
      requires |textBytes| < 0x1_0000
      ensures cmd == LineCommand(codes, y, fontId, textBytes)
    {
      var length := |textBytes|;
      cmd := [codes.writeChar];
      cmd := cmd + Uint16BE(0);
      cmd := cmd + Uint16BE(y);
      cmd := cmd + [B(fontId)];
      cmd := cmd + [3];
      cmd := cmd + [0];
      cmd := cmd + Uint16BE(length);
      cmd := cmd + textBytes;
    }

    /** One pass of a row loop: the row's write when its buffer row is
        above the threshold, extending the writes of the rows before it. */
    method SendRow(codes: Codes, shown: seq<string>, start: nat, fontId: FontId, forceTrim: bool, threshold: int,
                   displayRow: nat, ghost header: seq<seq<byte>>)
      requires displayRow < |shown| <= SCREEN_ROWS
      requires writes == header + RowWrites(codes, shown, start, fontId, forceTrim, threshold, displayRow)
      modifies this
      ensures writes == header + RowWrites(codes, shown, start, fontId, forceTrim, threshold, displayRow + 1)
    {
      ShownRowsFit(displayRow, fontId);
      RowWritesNext(codes, shown, start, fontId, forceTrim, threshold, displayRow);
      var physicalRow := start + displayRow;
      if physicalRow > threshold {
        var _ := SendLineToArduino(codes, shown[displayRow], physicalRow, displayRow, fontId, forceTrim);
      }
    }

    /** The redraw: clear, then every shown row, trimmed. */
    method Redraw(codes: Codes, shown: seq<string>, start: nat, fontId: FontId)
      requires |shown| <= SCREEN_ROWS
      modifies this
      ensures writes == old(writes) + RedrawWrites(codes, shown, start, fontId)
    {
      ghost var before := writes;
      ClearScreen(codes);
      SendRows(codes, shown, start, fontId, true, -1);
      AppendAssoc(before, [[codes.clearScreen]], RowWrites(codes, shown, start, fontId, true, -1, |shown|));
    }

    /** The scroll case: scroll by the new rows' height, then the bottom rows. */
    method ScrollAndSend(codes: Codes, shown: seq<string>, start: nat, fontId: FontId, n: nat)
      requires |shown| <= SCREEN_ROWS && n < SCREEN_BUFFER_FONTS[fontId].rowsVisible - 1
      modifies this
      ensures writes == old(writes) + ScrollWrites(codes, shown, start, fontId, n)
    {
      ghost var before := writes;
      var pixelsPerRow := SCREEN_BUFFER_FONTS[fontId].pixelsPerRow;
      var visibleRows := SCREEN_BUFFER_FONTS[fontId].rowsVisible;
      assert n * pixelsPerRow == ScrollPixels(n, fontId);
      var _ := ScrollScreenUp(codes, n * pixelsPerRow);
      ghost var scroll := ScrollCommand(codes, ScrollPixels(n, fontId)).value;
      assert writes == before + [scroll];
      SendRows(codes, shown, start, fontId, false, visibleRows - n - 1 - 1);
      AppendAssoc(before, [scroll], RowWrites(codes, shown, start, fontId, false, visibleRows - n - 1 - 1, |shown|));
    }

    /** `send_screen_to_arduino`. */
    method SendScreenToArduino(codes: Codes, screenBuffer: ScreenBuffer, fontId: FontId, numNewLines: nat, forceFullRedraw: bool)
      modifies this
      ensures writes == old(writes) + ScreenWrites(codes, screenBuffer.lines, fontId, numNewLines, forceFullRedraw)
    {
      var n := numNewLines + 1;
      var (startRow, lines) := LinesForFont(screenBuffer.lines, fontId);
      LinesForFontBounded(screenBuffer.lines, fontId);
      var visibleRows := SCREEN_BUFFER_FONTS[fontId].rowsVisible;
      assert ScreenWrites(codes, screenBuffer.lines, fontId, numNewLines, forceFullRedraw)
        == WritesFor(codes, (startRow, lines), fontId, n, forceFullRedraw);
      if forceFullRedraw {
        Redraw(codes, lines, startRow, fontId);
      } else if n >= visibleRows - 1 {
        Redraw(codes, lines, startRow, fontId);
      } else {
        ScrollAndSend(codes, lines, startRow, fontId, n);
      }
    }

    /** A row loop: the rows whose buffer row is above the threshold. */
    method SendRows(codes: Codes, shown: seq<string>, start: nat, fontId: FontId, forceTrim: bool, threshold: int)
      requires |shown| <= SCREEN_ROWS
      modifies this
      ensures writes == old(writes) + RowWrites(codes, shown, start, fontId, forceTrim, threshold, |shown|)
    {
      ghost var header := writes;
      for displayRow := 0 to |shown|
        invariant writes == header + RowWrites(codes, shown, start, fontId, forceTrim, threshold, displayRow)
      {
        SendRow(codes, shown, start, fontId, forceTrim, threshold, displayRow, header);
      }
    }

    /** `switch_font`: one clear. The returned columns and rows are what the
        original gives the terminal emulator it recreates. */
    method SwitchFont(codes: Codes, newFont: FontId) returns (font: FontId, cols: nat, rows: nat)
      modifies this
      ensures writes == old(writes) + [[codes.clearScreen]]
      ensures font == newFont && cols == SCREEN_BUFFER_FONTS[newFont].cols && rows == SCREEN_ROWS
    {
      cols := SCREEN_BUFFER_FONTS[newFont].cols;
      rows := SCREEN_ROWS;
      ClearScreen(codes);
      font := newFont;
    }
  }
}
