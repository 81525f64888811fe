/** The older host's screen buffer: a fixed number of rows, the last of
    which is always the prompt. New output scrolls the content rows up;
    each new line is padded with spaces so that it covers the old line it
    replaces on the device. The buffer also gives the rows one font can
    show, each cut or padded to the font's width. */
module ScreenBuffer {
  import opened Config
  import opened PyStr

  /** This buffer's own font table: `[id, cols, rows_visible,
      pixels_per_row, padding]`, where the padding puts the last row on
      the bottom of the 136-pixel screen. */
  const SCREEN_BUFFER_FONTS: seq<FontConfig> := [
    FontConfig(0, 52, 17, 8, 0),
    FontConfig(1, 64, 17, 8, 0),
    FontConfig(2, 32, 8, 16, 8),
    FontConfig(3, 25, 8, 16, 8)
  ]

  /** The device screen always shows 17 buffer rows at most. */
  const SCREEN_ROWS: nat := 17

  /** In this table every entry's id is its index, the last row's bottom
      is the screen's bottom, and columns and rows agree with the current
      host's table (only the line height and padding differ). */
  lemma ScreenBufferFontsWellFormed(i: int)
    requires 0 <= i < |SCREEN_BUFFER_FONTS|
    ensures SCREEN_BUFFER_FONTS[i].id == i
    ensures SCREEN_BUFFER_FONTS[i].rowsVisible * SCREEN_BUFFER_FONTS[i].pixelsPerRow + SCREEN_BUFFER_FONTS[i].padding
      == VERTICAL_SCREEN_SIZE
    ensures SCREEN_BUFFER_FONTS[i].cols == FONT_CONFIGURATION[i].cols
    ensures SCREEN_BUFFER_FONTS[i].rowsVisible == FONT_CONFIGURATION[i].rowsVisible <= SCREEN_ROWS
  {
  }

  /** `pad_line`: the new line without trailing newlines, padded with
      spaces to the old line's length when it is shorter. */
  function PadLine(newLine: string, oldLine: string): string
  {
    var t := RStripChar(newLine, '\n');
    if |t| < |oldLine| then t + Spaces(|oldLine| - |t|) else t
  }

  /** A padded line is the stripped new line followed by spaces only, and
      it is at least as long as the line it covers. */
  lemma PadLineCovers(newLine: string, oldLine: string)
    ensures var t := RStripChar(newLine, '\n');
      PadLine(newLine, oldLine) == LJust(t, |oldLine|)
      && |PadLine(newLine, oldLine)| >= |oldLine|
      && PadLine(newLine, oldLine)[..|t|] == t
      && forall i :: |t| <= i < |PadLine(newLine, oldLine)| ==> PadLine(newLine, oldLine)[i] == ' '
  {
  }

  /** Python's `s[-k:]`, which for `k == 0` is the whole of `s`. */
  function NegativeTail<T>(s: seq<T>, k: nat): seq<T>
  {
    if k == 0 then s else Last(s, k)
  }

  /** The content rows when the new lines fill them: the given window of
      new lines, each padded against an empty line. */
  function ReplacedContent(window: seq<string>): (r: seq<string>)
    ensures |r| == |window|
  {
    seq(|window|, i requires 0 <= i < |window| => PadLine(window[i], ""))
  }

  /** The content rows when fewer new lines come than there are content
      rows: the old content moved up by their number, then the new lines,
      each padded against the old line in its row. */
  function ScrolledContent(lines: seq<string>, contentRows: nat, newLines: seq<string>): (r: seq<string>)
    requires |newLines| < contentRows <= |lines|
    ensures |r| == contentRows
  {
    lines[|newLines|..contentRows]
    + seq(|newLines|, i requires 0 <= i < |newLines| => PadLine(newLines[i], lines[contentRows - |newLines| + i]))
  }

  /** `add_output_lines` on the buffer's lines, with the window of new
      lines the replacing case keeps passed in. */
  function AddWithWindow(lines: seq<string>, rows: nat, prompt: string, newLines: seq<string>, window: seq<string>): (r: seq<string>)
    requires 1 <= rows == |lines|
    requires |newLines| >= rows - 1 ==> |window| == |newLines| || |window| == rows - 1
  {
    if |newLines| == 0 then lines
    else Spliced(NewContent(lines, rows, newLines, window), lines, rows, prompt)
  }

  /** The content rows `add_output_lines` computes. */
  function NewContent(lines: seq<string>, rows: nat, newLines: seq<string>, window: seq<string>): (r: seq<string>)
    requires 1 <= rows == |lines|
    requires |newLines| >= rows - 1 ==> |window| == |newLines| || |window| == rows - 1
    ensures |r| >= rows - 1
  {
    if |newLines| >= rows - 1 then ReplacedContent(window) else ScrolledContent(lines, rows - 1, newLines)
  }

  /** `display` followed by the rows from the prompt row on, with the
      prompt written at index `rows - 1`. */
  function Spliced(display: seq<string>, lines: seq<string>, rows: nat, prompt: string): seq<string>
    requires 1 <= rows == |lines| && |display| >= rows - 1
  {
    (display + lines[rows - 1..])[rows - 1 := prompt]
  }

  /** `add_output_lines` as written: the window is `new_lines[-content_rows:]`,
      which with a single row (no content rows) is every new line. */
  function AfterAddAsWritten(lines: seq<string>, rows: nat, prompt: string, newLines: seq<string>): seq<string>
    requires 1 <= rows == |lines|
  {
    AddWithWindow(lines, rows, prompt, newLines, NegativeTail(newLines, rows - 1))
  }

  /** `add_output_lines` as intended: the window is the last `content_rows`
      new lines, none when there are no content rows. */
  function AfterAdd(lines: seq<string>, rows: nat, prompt: string, newLines: seq<string>): seq<string>
    requires 1 <= rows == |lines|
  {
    AddWithWindow(lines, rows, prompt, newLines, Last(newLines, rows - 1))
  }

  /** With a single row, two new lines put the buffer at three lines, with
      the prompt written over the first of them. */
  lemma AsWrittenGrowsWithOneRow()
    ensures AfterAddAsWritten([PROMPT], 1, PROMPT, ["a", "b"]) == [PROMPT, "b", PROMPT]
    ensures |AfterAddAsWritten([PROMPT], 1, PROMPT, ["a", "b"])| != 1
  {
    assert RStripChar("b", '\n') == "b";
    assert PadLine("b", "") == "b";
    assert ReplacedContent(["a", "b"])[1] == "b";
  }

  /** With two rows or more the code as written and the intended one agree. */
  lemma AsWrittenAgrees(lines: seq<string>, rows: nat, prompt: string, newLines: seq<string>)
    requires 2 <= rows == |lines|
    ensures AfterAddAsWritten(lines, rows, prompt, newLines) == AfterAdd(lines, rows, prompt, newLines)
  {
  }

  /** The buffer keeps its number of rows and the prompt as its last line;
      with a single row it is just the prompt, and no new lines change
      nothing. */
  lemma AddKeepsShape(lines: seq<string>, rows: nat, prompt: string, newLines: seq<string>)
    requires 1 <= rows == |lines|
    ensures |AfterAdd(lines, rows, prompt, newLines)| == rows
    ensures newLines != [] ==> AfterAdd(lines, rows, prompt, newLines)[rows - 1] == prompt
    ensures newLines == [] ==> AfterAdd(lines, rows, prompt, newLines) == lines
    ensures rows == 1 && newLines != [] ==> AfterAdd(lines, rows, prompt, newLines) == [prompt]
  {
    if newLines != [] && rows == 1 {
      assert Last(newLines, 0) == [];
    }
  }

  /** When the new lines fill the content rows, the content rows are the
      newest `rows - 1` of them, without trailing newlines. */
  lemma AddReplacesContent(lines: seq<string>, rows: nat, prompt: string, newLines: seq<string>, k: nat)
    requires 1 <= rows == |lines| && |newLines| >= rows - 1 && newLines != [] && k < rows - 1
    ensures AfterAdd(lines, rows, prompt, newLines)[k]
      == RStripChar(newLines[|newLines| - (rows - 1) + k], '\n')
  {
    var window := Last(newLines, rows - 1);
    assert window[k] == newLines[|newLines| - (rows - 1) + k];
    assert ReplacedContent(window)[k] == PadLine(window[k], "");
  }

  /** When fewer new lines come, the old content moves up by their number,
      and each new line lands in order at the bottom, covering the old
      line of its row. */
  lemma AddScrollsContent(lines: seq<string>, rows: nat, prompt: string, newLines: seq<string>, k: nat)
    requires 1 <= rows == |lines| && 0 < |newLines| < rows - 1 && k < rows - 1
    ensures var r := AfterAdd(lines, rows, prompt, newLines);
      var n := |newLines|;
      (k < rows - 1 - n ==> r[k] == lines[k + n])
      && (k >= rows - 1 - n ==>
            r[k] == PadLine(newLines[k - (rows - 1 - n)], lines[k]) && |r[k]| >= |lines[k]|)
  {
    var n := |newLines|;
    var r := AfterAdd(lines, rows, prompt, newLines);
    assert r[k] == ScrolledContent(lines, rows - 1, newLines)[k];
    if k >= rows - 1 - n {
      PadLineCovers(newLines[k - (rows - 1 - n)], lines[k]);
    }
  }

  /** Each shown line cut or padded to the font's columns. */
  function FitToColumns(lines: seq<string>, cols: nat): (r: seq<string>)
    ensures |r| == |lines|
    ensures forall i :: 0 <= i < |r| ==> |r[i]| == cols
  {
    seq(|lines|, i requires 0 <= i < |lines| => LJust(Take(lines[i], cols), cols))
  }

  /** `get_lines_for_font`: the first buffer row shown and the shown rows. */
  function LinesForFont(lines: seq<string>, fontId: FontId): (nat, seq<string>)
  {
    var f := SCREEN_BUFFER_FONTS[fontId];
    if f.rowsVisible >= SCREEN_ROWS then (0, FitToColumns(Slice(lines, 0, SCREEN_ROWS), f.cols))
    else (SCREEN_ROWS - f.rowsVisible, FitToColumns(Slice(lines, SCREEN_ROWS - f.rowsVisible, SCREEN_ROWS), f.cols))
  }

  /** On a 17-row buffer the two small fonts show every row from row 0,
      the two large fonts the last 8 rows from row 9; each shown row is the
      buffer row cut or padded to exactly the font's columns. */
  lemma LinesForFontShape(lines: seq<string>, fontId: FontId, i: nat)
    requires |lines| == SCREEN_ROWS
    ensures var (start, shown) := LinesForFont(lines, fontId);
      start == (if fontId < 2 then 0 else 9)
      && |shown| == SCREEN_ROWS - start
      && (i < |shown| ==> shown[i] == LJust(Take(lines[start + i], SCREEN_BUFFER_FONTS[fontId].cols), SCREEN_BUFFER_FONTS[fontId].cols)
                          && |shown[i]| == SCREEN_BUFFER_FONTS[fontId].cols)
  {
  }

  class ScreenBuffer {
    var maxCols: int
    var rows: nat
    var prompt: string
    var lines: seq<string>

    /** The buffer has its rows, and the last one is the prompt. */
    predicate Valid()
      reads this
    {
      1 <= rows == |lines| && lines[rows - 1] == prompt
    }

    constructor (maxCols: int, rows: nat, prompt: string)
      requires rows >= 1
      ensures Valid()
      ensures this.maxCols == maxCols && this.rows == rows && this.prompt == prompt
      ensures forall i :: 0 <= i < rows - 1 ==> lines[i] == ""
    {
      this.maxCols := maxCols;
      this.rows := rows;
      this.prompt := prompt;
      var blank := seq(rows, _ => "");
      lines := blank[rows - 1 := prompt];
    }

    method AddOutputLines(newLines: seq<string>)
      requires Valid()
      modifies this
      ensures Valid()
      ensures lines == AfterAdd(old(lines), old(rows), old(prompt), newLines)
      ensures rows == old(rows) && prompt == old(prompt) && maxCols == old(maxCols)
    {
      var n := |newLines|;
      if n == 0 {
        return;
      }
      var contentRows := rows - 1;
      var display: seq<string>;
      if n >= contentRows {
        display := ReplacedContent(Last(newLines, contentRows));
      } else {
        var current := lines;
        var oldLines := current[n..contentRows];
        display := [];
        for i := 0 to n
          invariant display == seq(i, k requires 0 <= k < i => PadLine(newLines[k], current[contentRows - n + k]))
        {
          var oldLine := current[contentRows - n + i];
          display := display + [PadLine(newLines[i], oldLine)];
        }
        display := oldLines + display;
      }
      lines := display + lines[contentRows..];
      lines := lines[rows - 1 := prompt];
      AddKeepsShape(old(lines), rows, prompt, newLines);
    }

    method AddReversedOutputLines(newLines: seq<string>)
      requires Valid()
      modifies this
      ensures Valid()
      ensures lines == AfterAdd(old(lines), old(rows), old(prompt), Reverse(newLines))
      ensures rows == old(rows) && prompt == old(prompt) && maxCols == old(maxCols)
    {
      AddOutputLines(Reverse(newLines));
    }

    function GetLinesForFont(fontId: FontId): (nat, seq<string>)
      reads this
    {
      LinesForFont(lines, fontId)
    }

    method UpdatePrompt(newPrompt: string)
      requires Valid()
      modifies this
      ensures Valid()
      ensures prompt == newPrompt && lines == old(lines)[old(rows) - 1 := newPrompt]
      ensures rows == old(rows) && maxCols == old(maxCols)
    {
      prompt := newPrompt;
      lines := lines[rows - 1 := newPrompt];
    }
  }

  /** On a 17-row buffer the last row shown in any font is the prompt, cut
      or padded to the font's width. */
  lemma PromptShownLast(b: ScreenBuffer, fontId: FontId)
    requires b.Valid() && b.rows == SCREEN_ROWS
    ensures var shown := b.GetLinesForFont(fontId).1;
      shown != [] && shown[|shown| - 1] == LJust(Take(b.prompt, SCREEN_BUFFER_FONTS[fontId].cols), SCREEN_BUFFER_FONTS[fontId].cols)
  {
    LinesForFontShape(b.lines, fontId, SCREEN_ROWS - 1 - (if fontId < 2 then 0 else 9));
  }
}
