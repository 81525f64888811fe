/** The host's screen controller: it keeps the lines it has sent (at most
    100) and turns new output into display commands for the device, either
    scrolling and appending or comparing row by row.

    The serial link is the list of commands sent, in order; the waits for
    the device's ready packet are not modelled, since their results are
    ignored. `struct.pack('>B', v)` raises for a value outside 0..255, so a
    command with such a field is never sent: the methods report that as
    `ok == false`. */
module ScreenControl {
  import opened Bytes
  import opened Config
  import opened PyStr
  import opened Wrappers

  const FORE_COLOR: byte := 3
  const BACK_COLOR: byte := 0

  /** A command as the controller builds it. A text command holds the
      line it was built from; its text bytes are that line right-stripped
      and encoded. */
  datatype Command =
    | Text(command: byte, y: nat, fontId: nat, line: string)
    | ScrollUp(pixels: nat)
    | Clear

  /** The text bytes of a text command. */
  function TextBytes(line: string): (r: seq<byte>)
    ensures |r| == |RStrip(line)|
  {
    EncodeAscii(RStrip(line))
  }

  /** Every field of the command fits the byte `struct.pack('>B', ...)` makes of it. */
  predicate Packable(c: Command)
  {
    match c
    case Text(_, y, fontId, line) => y < 256 && fontId < 256 && |RStrip(line)| < 256
    case ScrollUp(pixels) => pixels < 256
    case Clear => true
  }

  /** The bytes of a command on the wire: a text command is
      `[command, y, font, 3, 0, length] + text`. */
  function Wire(c: Command): seq<byte>
    requires Packable(c)
  {
    match c
    case Text(command, y, fontId, line) =>
      [command, B(y), B(fontId), FORE_COLOR, BACK_COLOR, B(|TextBytes(line)|)] + TextBytes(line)
    case ScrollUp(pixels) => [CMD_SCROLL_UP, B(pixels)]
    case Clear => [CMD_CLEAR_SCREEN]
  }

  /** The length byte of a text command counts the text bytes that follow
      it, and the text is the line with no trailing whitespace. */
  lemma TextWire(c: Command)
    requires c.Text? && Packable(c)
    ensures |Wire(c)| == 6 + |RStrip(c.line)| && Val(Wire(c)[5]) == |RStrip(c.line)|
    ensures Wire(c)[6..] == EncodeAscii(RStrip(c.line))
    ensures Wire(c)[..5] == [c.command, B(c.y), B(c.fontId), FORE_COLOR, BACK_COLOR]
  {
  }

  /** `_send_line_raw`: the command exists only when every packed field
      fits in a byte. */
  function RawCommand(y: int, fontId: int, line: string, command: byte): (r: Option<Command>)
    ensures r.Some? <==> 0 <= y < 256 && 0 <= fontId < 256 && |RStrip(line)| < 256
    ensures r.Some? ==> Packable(r.value) && r.value.Text? && r.value.command == command
    ensures r.Some? ==> r.value.y == y && r.value.fontId == fontId && r.value.line == line
  {
    if 0 <= y < 256 && 0 <= fontId < 256 && |TextBytes(line)| < 256 then Some(Text(command, y, fontId, line))
    else None
  }

  /** The line `send_line` passes on: "_" for an empty line, one "_" more
      for a line of exactly 24 characters, then cut or padded to `cols`
      when `forcePad` is set. */
  function DisplayLine(line: string, cols: nat, forcePad: bool): string
  {
    if forcePad then LJust(Take(Patched(NonEmpty(line)), cols), cols) else Patched(NonEmpty(line))
  }

  /** An empty line shown as "_". */
  function NonEmpty(line: string): string
  {
    if |line| == 0 then "_" else line
  }

  /** A line of exactly 24 characters with one "_" more. */
  function Patched(line: string): string
  {
    if |line| == 24 then line + "_" else line
  }

  function RowsInScreen(fontId: FontId): nat
  {
    FONT_CONFIGURATION[fontId].rowsVisible - 1
  }

  /** The command `send_line` sends for a row on the screen. */
  function LineCommand(line: string, row: nat, fontId: FontId, forcePad: bool): Option<Command>
  {
    RawCommand(RowY(FONT_CONFIGURATION[fontId], row), fontId, DisplayLine(line, FONT_CONFIGURATION[fontId].cols, forcePad), CMD_WRITE_TEXT)
  }

  /** The command for a non-prompt line at a screen row, which always
      packs: its y is below 136 and its text no longer than the font's
      columns. */
  function WriteLine(line: string, row: nat, fontId: FontId): (c: Command)
    requires row < FONT_CONFIGURATION[fontId].rowsVisible
    ensures c.Text? && c.command == CMD_WRITE_TEXT
  {
    FontTableWellFormed(fontId);
    Text(CMD_WRITE_TEXT, RowY(FONT_CONFIGURATION[fontId], row), fontId, DisplayLine(line, FONT_CONFIGURATION[fontId].cols, true))
  }

  lemma PaddedLineFits(line: string, row: nat, fontId: FontId)
    requires row < FONT_CONFIGURATION[fontId].rowsVisible
    ensures LineCommand(line, row, fontId, true) == Some(WriteLine(line, row, fontId))
    ensures |RStrip(WriteLine(line, row, fontId).line)| <= FONT_CONFIGURATION[fontId].cols
  {
    var f := FONT_CONFIGURATION[fontId];
    FontTableWellFormed(fontId);
    assert RowY(f, row) < VERTICAL_SCREEN_SIZE;
    assert |DisplayLine(line, f.cols, true)| == f.cols;
  }

  /** What a padded line sends: the line cut to the font's columns, with
      the padding stripped again; an empty line sends "_". */
  lemma PaddedLineText(line: string, row: nat, fontId: FontId)
    requires row < FONT_CONFIGURATION[fontId].rowsVisible
    ensures RStrip(WriteLine(line, row, fontId).line) == RStrip(Take(Patched(NonEmpty(line)), FONT_CONFIGURATION[fontId].cols))
    ensures |line| == 0 ==> TextBytes(WriteLine(line, row, fontId).line) == EncodeAscii("_")
  {
    var f := FONT_CONFIGURATION[fontId];
    FontTableWellFormed(fontId);
    var cut := Take(Patched(NonEmpty(line)), f.cols);
    var padded := LJust(cut, f.cols);
    assert padded == cut + padded[|cut|..];
    RStripOfPadding(cut, padded[|cut|..]);
    if |line| == 0 {
      assert cut == "_";
      assert RStrip("_") == "_" by {
        assert !IsSpace('_');
      }
    }
  }

  /** `trim_trailing_empty`, taken to drop the empty strings at the end. */
  function TrimTrailingEmpty(lines: seq<string>): (r: seq<string>)
    ensures |r| <= |lines| && r == lines[..|r|]
    ensures r == [] || r[|r| - 1] != ""
    ensures forall i :: |r| <= i < |lines| ==> lines[i] == ""
  {
    if lines != [] && lines[|lines| - 1] == "" then TrimTrailingEmpty(lines[..|lines| - 1]) else lines
  }

  predicate IsPrompt(line: string)
  {
    StartsWith(line, PROMPT)
  }

  /** The writes of either case of `send_new_lines` after `k` passes:
      among the `k` newest lines, those flagged in `keep`, newest first,
      the newest at the row above the prompt. */
  function Writes(lines: seq<string>, keep: seq<bool>, fontId: FontId, k: nat): seq<Command>
    requires k <= |lines| == |keep| && k <= RowsInScreen(fontId)
  {
    if k == 0 then []
    else
      Writes(lines, keep, fontId, k - 1)
      + if keep[|lines| - k] then [WriteLine(lines[|lines| - k], RowsInScreen(fontId) - k, fontId)] else []
  }

  /** The lines the scroll-and-append case writes: all but prompt lines. */
  function NotPromptFlags(lines: seq<string>): (r: seq<bool>)
    ensures |r| == |lines|
  {
    seq(|lines|, p requires 0 <= p < |lines| => !IsPrompt(lines[p]))
  }

  /** The line compared with the `i`-th newest new line: the `i`-th newest
      old line, or "" when there is none. */
  function OldLine(oldLines: seq<string>, i: nat): string
  {
    if i < |oldLines| then oldLines[|oldLines| - 1 - i] else ""
  }

  /** The new line at position `p` is written in the compare case: it is
      no prompt, and its stripped text differs from that of the old line
      as far from the end. */
  predicate Changed(lines: seq<string>, oldLines: seq<string>, p: nat)
    requires p < |lines|
  {
    !IsPrompt(lines[p]) && Strip(lines[p]) != Strip(OldLine(oldLines, |lines| - 1 - p))
  }

  /** The lines the compare case writes. */
  function ChangedFlags(lines: seq<string>, oldLines: seq<string>): (r: seq<bool>)
    ensures |r| == |lines|
  {
    seq(|lines|, p requires 0 <= p < |lines| => Changed(lines, oldLines, p))
  }

  /** Everything `send_new_lines` sends. */
  function NewLinesSends(oldLines: seq<string>, linesToPrint: seq<string>, fontId: FontId, forceRedraw: bool): seq<Command>
  {
    var lines := TrimTrailingEmpty(linesToPrint);
    var olds := TrimTrailingEmpty(oldLines);
    var f := FONT_CONFIGURATION[fontId];
    if linesToPrint == [] || forceRedraw then []
    else if RowsInScreen(fontId) > |lines| then
      FontTableWellFormed(fontId);
      [ScrollUp(|lines| * f.pixelsPerRow)] + Writes(lines, NotPromptFlags(lines), fontId, |lines|)
    else Writes(lines, ChangedFlags(lines, olds), fontId, RowsInScreen(fontId))
  }

  /** The lines the controller keeps: the last 100 of the trimmed old and new lines. */
  function KeptLines(oldLines: seq<string>, linesToPrint: seq<string>): seq<string>
  {
    if linesToPrint == [] then oldLines
    else Last(TrimTrailingEmpty(oldLines) + TrimTrailingEmpty(linesToPrint), TERMINAL_HISTORY_ROWS)
  }

  /** The writes of `resend_screen` after `k` passes: the `k`-th newest kept
      line at row `rows_in_screen - k`, while there are lines left. */
  function ResendSends(lines: seq<string>, fontId: FontId, k: nat): seq<Command>
    requires k <= RowsInScreen(fontId)
  {
    if k == 0 then [] else ResendSends(lines, fontId, k - 1) + ResendStep(lines, fontId, k)
  }

  /** What pass `k` of `resend_screen` writes: the `k`-th newest line at
      row `rows_in_screen - k`, or nothing once the lines are used up. */
  function ResendStep(lines: seq<string>, fontId: FontId, k: nat): seq<Command>
    requires 0 < k <= RowsInScreen(fontId)
  {
    if k <= |lines| then [WriteLine(lines[|lines| - k], RowsInScreen(fontId) - k, fontId)] else []
  }

  class ScreenController {
    /** `_lines`: what the controller believes is on the screen. */
    var lines: seq<string>
    /** Every command handed to the serial link, in order. */
    var sent: seq<Command>

    constructor ()
      ensures lines == [] && sent == []
    {
      lines := [];
      sent := [];
    }

    /** `clear_screen`: sends `[0x06]`, and empties the lines when asked. */
    method ClearScreen(clearBuffer: bool)
      modifies this
      ensures lines == if clearBuffer then [] else old(lines)
      ensures sent == old(sent) + [Clear]
    {
      if clearBuffer {
        lines := [];
      }
      sent := sent + [Clear];
    }

    /** `scroll_screen_up`: `[0x03, pixels]`; a count outside a byte raises. */
    method ScrollScreenUp(pixels: int) returns (ok: bool)
      modifies this
      ensures ok <==> 0 <= pixels < 256
      ensures lines == old(lines)
      ensures sent == old(sent) + if ok then [ScrollUp(pixels)] else []
    {
      if !(0 <= pixels < 256) {
        return false;
      }
      sent := sent + [ScrollUp(pixels)];
      return true;
    }

    /** `_send_line_raw`. */
    method SendLineRaw(y: int, fontId: int, line: string, command: byte) returns (ok: bool)
      modifies this
      ensures ok <==> RawCommand(y, fontId, line, command).Some?
      ensures lines == old(lines) && sent == old(sent) + ToSeq(RawCommand(y, fontId, line, command))
    {
      var text := EncodeAscii(RStrip(line));
      if !(0 <= y < 256 && 0 <= fontId < 256 && |text| < 256) {
        return false;
      }
      sent := sent + [Text(command, y, fontId, line)];
      return true;
    }

    /** `update_prompt`: the prompt command at the last visible row. */
    method UpdatePrompt(text: string, fontId: FontId) returns (ok: bool)
      modifies this
      ensures ok <==> |RStrip(text)| < 256
      ensures lines == old(lines)
      ensures sent == old(sent) + ToSeq(RawCommand(PromptY(FONT_CONFIGURATION[fontId]), fontId, text, CMD_PRINT_PROMPT))
    {
      var f := FONT_CONFIGURATION[fontId];
      FontTableWellFormed(fontId);
      PromptIsLastRow(f);
      var y := f.rowsVisible * f.pixelsPerRow + f.padding - f.pixelsPerRow;
      ok := SendLineRaw(y, fontId, text, CMD_PRINT_PROMPT);
    }

    /** `send_line`: nothing for a negative row, else the display line at
        `y = row * pixels_per_row + padding`. */
    method SendLine(line: string, displayRow: int, fontId: FontId, forcePad: bool) returns (ok: bool)
      modifies this
      ensures lines == old(lines)
      ensures displayRow < 0 ==> ok && sent == old(sent)
      ensures displayRow >= 0 ==> (ok <==> LineCommand(line, displayRow, fontId, forcePad).Some?)
      ensures displayRow >= 0 ==> sent == old(sent) + ToSeq(LineCommand(line, displayRow, fontId, forcePad))
    {
      if displayRow < 0 {
        return true;
      }
      var l := line;
      if |l| == 0 {
        l := "_";
      }
      if |l| == 24 {
        l := l + "_";
      }
      assert l == Patched(NonEmpty(line));
      var f := FONT_CONFIGURATION[fontId];
      if forcePad {
        l := LJust(Take(l, f.cols), f.cols);
      }
      assert l == DisplayLine(line, FONT_CONFIGURATION[fontId].cols, forcePad);
      var y := displayRow * f.pixelsPerRow + f.padding;
      assert y == RowY(FONT_CONFIGURATION[fontId], displayRow);
      ok := SendLineRaw(y, fontId, l, CMD_WRITE_TEXT);
    }

    /** A padded line at a row on the screen is always sent. */
    method SendScreenLine(line: string, row: nat, fontId: FontId)
      requires row < FONT_CONFIGURATION[fontId].rowsVisible
      modifies this
      ensures lines == old(lines) && sent == old(sent) + [WriteLine(line, row, fontId)]
    {
      PaddedLineFits(line, row, fontId);
      var _ := SendLine(line, row, fontId, true);
    }

    /** One pass of the append loop: the `i`-th newest new line is
        written at its row unless it is a prompt line. */
    method AppendRow(newLines: seq<string>, fontId: FontId, i: nat)
      requires i < |newLines| < RowsInScreen(fontId)
      modifies this
      ensures lines == old(lines)
      ensures sent == old(sent)
                      + if NotPromptFlags(newLines)[|newLines| - 1 - i]
                        then [WriteLine(newLines[|newLines| - 1 - i], RowsInScreen(fontId) - (i + 1), fontId)]
                        else []
    {
      var rowsInScreen := FONT_CONFIGURATION[fontId].rowsVisible - 1;
      assert rowsInScreen == RowsInScreen(fontId);
      var newLine := newLines[|newLines| - i - 1];
      if !StartsWith(newLine, PROMPT) {
        SendScreenLine(newLine, rowsInScreen - i - 1, fontId);
      }
    }

    /** The first case of `send_new_lines`: scroll by the new lines' height,
        then write them from the bottom up. */
    method ScrollAndAppend(newLines: seq<string>, fontId: FontId)
      requires |newLines| < RowsInScreen(fontId)
      modifies this
      ensures lines == old(lines)
      ensures sent == old(sent) + [ScrollUp(|newLines| * FONT_CONFIGURATION[fontId].pixelsPerRow)]
                      + Writes(newLines, NotPromptFlags(newLines), fontId, |newLines|)
    {
      var f := FONT_CONFIGURATION[fontId];
      FontTableWellFormed(fontId);
      var n := |newLines|;
      var _ := ScrollScreenUp(n * f.pixelsPerRow);
      ghost var start := sent;
      ghost var keep := NotPromptFlags(newLines);
      for i := 0 to n
        invariant lines == old(lines)
        invariant sent == start + Writes(newLines, keep, fontId, i)
      {
        AppendRow(newLines, fontId, i);
        WritesNext(newLines, keep, fontId, i);
      }
    }

    /** One pass of the compare loop: the `i`-th newest new line is
        written at its row when it is no prompt and its stripped text
        differs from the old line as far from the end. */
    method CompareRow(newLines: seq<string>, fontId: FontId, i: nat)
      requires i < RowsInScreen(fontId) <= |newLines|
      modifies this
      ensures lines == old(lines)
      ensures sent == old(sent)
                      + if ChangedFlags(newLines, lines)[|newLines| - 1 - i]
                        then [WriteLine(newLines[|newLines| - 1 - i], RowsInScreen(fontId) - (i + 1), fontId)]
                        else []
    {
      var rowsInScreen := FONT_CONFIGURATION[fontId].rowsVisible - 1;
      assert rowsInScreen == RowsInScreen(fontId);
      var newLine := newLines[|newLines| - 1 - i];
      var oldLine := "";
      var oldLinePosition := |lines| - 1 - i;
      if |lines| > oldLinePosition >= 0 && |lines| > 0 {
        oldLine := lines[oldLinePosition];
      }
      ghost var p := |newLines| - 1 - i;
      assert oldLine == OldLine(lines, |newLines| - 1 - p);
      assert ChangedFlags(newLines, lines)[p] <==> !StartsWith(newLine, PROMPT) && Strip(newLine) != Strip(oldLine);
      if !StartsWith(newLine, PROMPT) {
        if Strip(newLine) != Strip(oldLine) {
          SendScreenLine(newLine, rowsInScreen - i - 1, fontId);
        }
      }
    }

    /** The second case of `send_new_lines`: compare the bottom rows and
        write those whose stripped text changed. */
    method CompareAndUpdate(newLines: seq<string>, fontId: FontId)
      requires RowsInScreen(fontId) <= |newLines|
      modifies this
      ensures lines == old(lines)
      ensures sent == old(sent) + Writes(newLines, ChangedFlags(newLines, old(lines)), fontId, RowsInScreen(fontId))
    {
      var rowsInScreen := FONT_CONFIGURATION[fontId].rowsVisible - 1;
      assert rowsInScreen == RowsInScreen(fontId);
      ghost var flags := ChangedFlags(newLines, lines);
      for i := 0 to rowsInScreen
        invariant lines == old(lines)
        invariant sent == old(sent) + Writes(newLines, flags, fontId, i)
      {
        CompareRow(newLines, fontId, i);
        WritesNext(newLines, flags, fontId, i);
      }
    }

    /** `send_new_lines`. */
    method SendNewLines(linesToPrint: seq<string>, fontId: FontId, forceRedraw: bool)
      modifies this
      ensures sent == old(sent) + NewLinesSends(old(lines), linesToPrint, fontId, forceRedraw)
      ensures lines == KeptLines(old(lines), linesToPrint)
    {
      if |linesToPrint| == 0 {
        return;
      }
      var f := FONT_CONFIGURATION[fontId];
      var rowsInScreen := f.rowsVisible - 1;
      assert rowsInScreen == RowsInScreen(fontId);
      var newLines := TrimTrailingEmpty(linesToPrint);
      ghost var sends := NewLinesSends(lines, linesToPrint, fontId, forceRedraw);
      lines := TrimTrailingEmpty(lines);
      if !forceRedraw {
        if rowsInScreen > |newLines| {
          ghost var scroll := ScrollUp(|newLines| * f.pixelsPerRow);
          ghost var writes := Writes(newLines, NotPromptFlags(newLines), fontId, |newLines|);
          assert sends == [scroll] + writes;
          ScrollAndAppend(newLines, fontId);
          AppendAssoc(old(sent), [scroll], writes);
        } else {
          assert sends == Writes(newLines, ChangedFlags(newLines, lines), fontId, RowsInScreen(fontId));
          CompareAndUpdate(newLines, fontId);
        }
      } else {
        assert sends == [];
      }
      lines := lines + newLines;
      lines := Last(lines, TERMINAL_HISTORY_ROWS);
    }

    /** `resend_screen`: the newest kept lines from the bottom row up. */
    method ResendScreen(fontId: FontId)
      modifies this
      ensures lines == old(lines)
      ensures sent == old(sent) + ResendSends(lines, fontId, RowsInScreen(fontId))
    {
      var rowsInScreen := FONT_CONFIGURATION[fontId].rowsVisible - 1;
      assert rowsInScreen == RowsInScreen(fontId);
      var lineIndex := 1;
      var row := rowsInScreen;
      ghost var start := sent;
      ghost var kept := lines;
      while row > 0
        invariant 0 <= row <= rowsInScreen && lineIndex == rowsInScreen - row + 1
        invariant lines == kept
        invariant sent == start + ResendSends(kept, fontId, lineIndex - 1)
      {
        ghost var before := sent;
        ResendRow(fontId, lineIndex, row);
        ResendSendsNext(start, before, sent, kept, fontId, lineIndex);
        lineIndex := lineIndex + 1;
        row := row - 1;
      }
    }

    /** One pass of `resend_screen`'s loop: the `lineIndex`-th newest line,
        if there is one, at row `row - 1`. */
    method ResendRow(fontId: FontId, lineIndex: nat, row: nat)
      requires 0 < lineIndex <= RowsInScreen(fontId) && row == RowsInScreen(fontId) - lineIndex + 1
      modifies this
      ensures lines == old(lines)
      ensures sent == old(sent) + ResendStep(lines, fontId, lineIndex)
    {
      if |lines| > 0 {
        var bufferIndex := |lines| - lineIndex;
        if bufferIndex >= 0 {
          SendScreenLine(lines[bufferIndex], row - 1, fontId);
        }
      }
    }
  }

  // ---------------------------------------------------------------------
  // Properties of what is sent

  /** The loop invariant of `resend_screen` carried over one pass. */
  lemma ResendSendsNext(start: seq<Command>, before: seq<Command>, after: seq<Command>,
                        lines: seq<string>, fontId: FontId, k: nat)
    requires 0 < k <= RowsInScreen(fontId)
    requires before == start + ResendSends(lines, fontId, k - 1)
    requires after == before + ResendStep(lines, fontId, k)
    ensures after == start + ResendSends(lines, fontId, k)
  {
    AppendAssoc(start, ResendSends(lines, fontId, k - 1), ResendStep(lines, fontId, k));
  }

  /** One pass adds the write of the line it looks at exactly when that
      line is flagged. */
  lemma WritesStep(lines: seq<string>, keep: seq<bool>, fontId: FontId, k: nat)
    requires 0 < k <= |lines| == |keep| && k <= RowsInScreen(fontId)
    ensures Writes(lines, keep, fontId, k)
            == Writes(lines, keep, fontId, k - 1)
               + if keep[|lines| - k] then [WriteLine(lines[|lines| - k], RowsInScreen(fontId) - k, fontId)] else []
  {
  }

  /** `WritesStep` in the form the loops use: pass `i` looks at the
      `i`-th newest line. */
  lemma WritesNext(lines: seq<string>, keep: seq<bool>, fontId: FontId, i: nat)
    requires i < |lines| == |keep| && i < RowsInScreen(fontId)
    ensures Writes(lines, keep, fontId, i + 1)
            == Writes(lines, keep, fontId, i)
               + if keep[|lines| - 1 - i] then [WriteLine(lines[|lines| - 1 - i], RowsInScreen(fontId) - (i + 1), fontId)] else []
  {
    WritesStep(lines, keep, fontId, i + 1);
    assert |lines| - (i + 1) == |lines| - 1 - i;
  }

  /** Every write of either case is a text command; so in the first case
      the scroll is the only scroll command, and it comes first. */
  lemma {:induction false} WritesAreText(lines: seq<string>, keep: seq<bool>, fontId: FontId, k: nat)
    requires k <= |lines| == |keep| && k <= RowsInScreen(fontId)
    ensures forall c :: c in Writes(lines, keep, fontId, k) ==> c.Text? && c.command == CMD_WRITE_TEXT
  {
    if k > 0 {
      WritesAreText(lines, keep, fontId, k - 1);
      WritesStep(lines, keep, fontId, k);
    }
  }

  /** Every flagged line among the `k` newest is written at its row:
      position `p` goes to row `rows_in_screen - |lines| + p`. */
  lemma {:induction false} WritesComplete(lines: seq<string>, keep: seq<bool>, fontId: FontId, k: nat)
    requires k <= |lines| == |keep| && k <= RowsInScreen(fontId)
    ensures forall p :: |lines| - k <= p < |lines| && keep[p] ==>
      WriteLine(lines[p], RowsInScreen(fontId) - |lines| + p, fontId) in Writes(lines, keep, fontId, k)
  {
    if k > 0 {
      WritesComplete(lines, keep, fontId, k - 1);
      var q := |lines| - k;
      var prev := Writes(lines, keep, fontId, k - 1);
      WritesStep(lines, keep, fontId, k);
      assert RowsInScreen(fontId) - |lines| + q == RowsInScreen(fontId) - k;
      forall p | |lines| - k <= p < |lines| && keep[p]
        ensures WriteLine(lines[p], RowsInScreen(fontId) - |lines| + p, fontId) in Writes(lines, keep, fontId, k)
      {
        if p != q {
          assert WriteLine(lines[p], RowsInScreen(fontId) - |lines| + p, fontId) in prev;
        }
      }
    }
  }

  /** ... and nothing else is written: every write is a flagged line
      among the `k` newest, at its row. */
  lemma {:induction false} WritesSound(lines: seq<string>, keep: seq<bool>, fontId: FontId, k: nat, c: Command)
    requires k <= |lines| == |keep| && k <= RowsInScreen(fontId)
    requires c in Writes(lines, keep, fontId, k)
    ensures exists p :: |lines| - k <= p < |lines| && keep[p]
                        && c == WriteLine(lines[p], RowsInScreen(fontId) - |lines| + p, fontId)
  {
    assert k > 0;
    var q := |lines| - k;
    var prev := Writes(lines, keep, fontId, k - 1);
    WritesStep(lines, keep, fontId, k);
    if c in prev {
      WritesSound(lines, keep, fontId, k - 1, c);
    } else {
      assert keep[q];
      assert RowsInScreen(fontId) - |lines| + q == RowsInScreen(fontId) - k;
    }
  }

  /** The flags of the two cases, spelled out: a prompt line is never
      written; in the compare case a line is written only when its stripped
      text differs from the old line at the same distance from the end
      (or from "" when the old lines are fewer). */
  lemma FlagsMeaning(lines: seq<string>, oldLines: seq<string>, p: nat)
    requires p < |lines|
    ensures NotPromptFlags(lines)[p] <==> !StartsWith(lines[p], PROMPT)
    ensures ChangedFlags(lines, oldLines)[p] <==>
            !StartsWith(lines[p], PROMPT)
            && Strip(lines[p]) != Strip(if |lines| - 1 - p < |oldLines| then oldLines[|oldLines| - |lines| + p] else "")
  {
  }

  /** When the new lines are the old ones, the compare case sends nothing. */
  lemma {:induction false} WritesUnchanged(lines: seq<string>, fontId: FontId, k: nat)
    requires k <= |lines| && k <= RowsInScreen(fontId)
    ensures Writes(lines, ChangedFlags(lines, lines), fontId, k) == []
  {
    if k > 0 {
      WritesUnchanged(lines, fontId, k - 1);
      WritesStep(lines, ChangedFlags(lines, lines), fontId, k);
      assert OldLine(lines, |lines| - 1 - (|lines| - k)) == lines[|lines| - k];
      assert !ChangedFlags(lines, lines)[|lines| - k];
    }
  }

  /** No new lines: nothing is sent and the kept lines are unchanged. */
  lemma NoNewLines(oldLines: seq<string>, fontId: FontId, forceRedraw: bool)
    ensures NewLinesSends(oldLines, [], fontId, forceRedraw) == []
    ensures KeptLines(oldLines, []) == oldLines
  {
  }

  /** With fewer trimmed lines than screen rows, exactly one scroll of their
      height is sent, first, followed by text writes only. */
  lemma ScrollCaseShape(oldLines: seq<string>, linesToPrint: seq<string>, fontId: FontId)
    requires linesToPrint != [] && |TrimTrailingEmpty(linesToPrint)| < RowsInScreen(fontId)
    ensures var n := |TrimTrailingEmpty(linesToPrint)|;
            var sends := NewLinesSends(oldLines, linesToPrint, fontId, false);
            sends != [] && sends[0] == ScrollUp(n * FONT_CONFIGURATION[fontId].pixelsPerRow)
            && forall i :: 1 <= i < |sends| ==> sends[i].Text? && sends[i].command == CMD_WRITE_TEXT
  {
    var lines := TrimTrailingEmpty(linesToPrint);
    var writes := Writes(lines, NotPromptFlags(lines), fontId, |lines|);
    WritesAreText(lines, NotPromptFlags(lines), fontId, |lines|);
    var sends := NewLinesSends(oldLines, linesToPrint, fontId, false);
    assert forall i :: 1 <= i < |sends| ==> sends[i] == writes[i - 1];
  }

  /** The kept lines: at most 100, ending with the trimmed new lines (their
      last 100 when there are more). */
  lemma KeptLinesBounded(oldLines: seq<string>, linesToPrint: seq<string>)
    requires linesToPrint != []
    ensures |KeptLines(oldLines, linesToPrint)| <= TERMINAL_HISTORY_ROWS
    ensures var n := TrimTrailingEmpty(linesToPrint);
            |n| <= TERMINAL_HISTORY_ROWS ==> KeptLines(oldLines, linesToPrint)[|KeptLines(oldLines, linesToPrint)| - |n|..] == n
  {
    var n := TrimTrailingEmpty(linesToPrint);
    var all := TrimTrailingEmpty(oldLines) + n;
    var r := KeptLines(oldLines, linesToPrint);
    if |n| <= TERMINAL_HISTORY_ROWS {
      assert r[|r| - |n|..] == all[|all| - |n|..];
      assert all[|all| - |n|..] == n;
    }
  }

  /** `update_prompt` targets the last visible row, whose y is the row formula there. */
  lemma PromptRow(text: string, fontId: FontId)
    requires |RStrip(text)| < 256
    ensures var f := FONT_CONFIGURATION[fontId];
            RawCommand(PromptY(f), fontId, text, CMD_PRINT_PROMPT).Some?
            && RawCommand(PromptY(f), fontId, text, CMD_PRINT_PROMPT).value.y == RowY(f, f.rowsVisible - 1)
  {
    var f := FONT_CONFIGURATION[fontId];
    FontTableWellFormed(fontId);
    PromptIsLastRow(f);
  }

  /** `resend_screen` writes the `k`-th newest line at row `rows_in_screen - k`
      for every `k` up to the kept lines' count or the screen's rows. */
  /** The writes for `k - 1` rows, then the one for row `k`, are in the
      order `ResendSendsShape` states. */
  lemma ResendShapeStep(lines: seq<string>, fontId: FontId, prev: seq<Command>, k: nat, cur: seq<Command>)
    requires 0 < k <= |lines| && k <= RowsInScreen(fontId) && |prev| == k - 1
    requires forall j :: 0 <= j < |prev| ==>
      prev[j] == WriteLine(lines[|lines| - 1 - j], RowsInScreen(fontId) - 1 - j, fontId)
    requires cur == prev + [WriteLine(lines[|lines| - k], RowsInScreen(fontId) - k, fontId)]
    ensures |cur| == k
    ensures forall j :: 0 <= j < |cur| ==>
      cur[j] == WriteLine(lines[|lines| - 1 - j], RowsInScreen(fontId) - 1 - j, fontId)
  {
    forall j | 0 <= j < k
      ensures cur[j] == WriteLine(lines[|lines| - 1 - j], RowsInScreen(fontId) - 1 - j, fontId)
    {
      if j < |prev| {
        assert cur[j] == prev[j];
      }
    }
  }

  lemma {:induction false} ResendSendsShape(lines: seq<string>, fontId: FontId, k: nat)
    requires k <= RowsInScreen(fontId)
    ensures |ResendSends(lines, fontId, k)| == if k < |lines| then k else |lines|
    ensures forall j :: 0 <= j < |ResendSends(lines, fontId, k)| ==>
      ResendSends(lines, fontId, k)[j] == WriteLine(lines[|lines| - 1 - j], RowsInScreen(fontId) - 1 - j, fontId)
  {
    if k > 0 {
      ResendSendsShape(lines, fontId, k - 1);
      var prev := ResendSends(lines, fontId, k - 1);
      if k <= |lines| {
        var w := WriteLine(lines[|lines| - k], RowsInScreen(fontId) - k, fontId);
        assert ResendStep(lines, fontId, k) == [w];
        ResendShapeStep(lines, fontId, prev, k, ResendSends(lines, fontId, k));
      } else {
        assert ResendSends(lines, fontId, k) == prev;
      }
    }
  }
}
