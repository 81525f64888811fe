/** The current host's command runner. It keeps the output of the last
    command as lines no wider than the font's columns, and hands the
    screen the lines that follow the last separator line.

    `Wrap` says what `wrap_lines` returns, `None` standing for the
    `ValueError` that `range` raises on a zero step; the class's
    `WrapLines` is the source's nested loops, proved to compute it.
    Running the command itself is not modelled: its output lines are the
    input of `WrapLines`. */
module SubprocessTerminal {
  import opened Wrappers
  import opened Config
  import opened PyStr
  import opened Bytes

  /** The separator line `get_screen_new_lines` looks for: twenty-five `=`. */
  const SEPARATOR: string := "========================="

  /** The chunks `line[i:i + cols]` for `i` in `range(start, len(line), cols)`. */
  function ChunksFrom(line: string, cols: nat, start: nat): seq<string>
    requires cols > 0
    decreases |line| - start
  {
    if start >= |line| then [] else [Slice(line, start, start + cols)] + ChunksFrom(line, cols, start + cols)
  }

  /** One line through `wrap_lines`: itself when it fits, else its chunks;
      `None` when it does not fit and `cols` is 0. */
  function WrapLine(line: string, cols: nat): Option<seq<string>>
  {
    if |line| <= cols then Some([line])
    else if cols == 0 then None
    else Some(ChunksFrom(line, cols, 0))
  }

  /** Two partial results one after the other; `None` if either is. */
  function Join(a: Option<seq<string>>, b: Option<seq<string>>): Option<seq<string>>
  {
    if a.Some? && b.Some? then Some(a.value + b.value) else None
  }

  /** `wrap_lines`: every line wrapped, in input order. */
  function Wrap(lines: seq<string>, cols: nat): Option<seq<string>>
  {
    if lines == [] then Some([])
    else Join(Wrap(lines[..|lines| - 1], cols), WrapLine(lines[|lines| - 1], cols))
  }

  /** The strings one after the other. */
  function Concat(chunks: seq<string>): string
  {
    if chunks == [] then [] else chunks[0] + Concat(chunks[1..])
  }

  /** `[line.rstrip() for line in lines if line.rstrip()]`. */
  function StrippedLines(lines: seq<string>): (r: seq<string>)
    ensures |r| <= |lines|
    ensures forall i :: 0 <= i < |r| ==> r[i] != [] && RStrip(r[i]) == r[i]
  {
    if lines == [] then []
    else
      RStripIdempotent(lines[0]);
      (if RStrip(lines[0]) != [] then [RStrip(lines[0])] else []) + StrippedLines(lines[1..])
  }

  /** The index of the last `SEPARATOR` among `lines[..k]`, or -1: what
      `len(lines) - 1 - lines[::-1].index(separator)` computes, the
      `ValueError` of a missing separator being -1. */
  function LastSeparator(lines: seq<string>, k: nat): (r: int)
    requires k <= |lines|
    ensures -1 <= r < k
    ensures r >= 0 ==> lines[r] == SEPARATOR
    ensures forall i :: r < i < k ==> lines[i] != SEPARATOR
  {
    if k == 0 then -1
    else if lines[k - 1] == SEPARATOR then k - 1
    else LastSeparator(lines, k - 1)
  }

  /** The lines after the last separator, or all of them if there is none. */
  function AfterLastSeparator(lines: seq<string>): (r: seq<string>)
    ensures SEPARATOR !in r
    ensures |r| <= |lines| && r == lines[|lines| - |r|..]
    ensures SEPARATOR !in lines ==> r == lines
    ensures SEPARATOR in lines ==> lines[|lines| - |r| - 1] == SEPARATOR
  {
    var last := LastSeparator(lines, |lines|);
    if last == -1 then lines else lines[last + 1..]
  }

  class SubprocessTerminal {
    var fontSize: int
    var rows: nat
    var cols: nat
    var lastOutputLines: seq<string>

    /** `__init__`: the font's geometry, no output yet. */
    constructor (fontSize: int)
      ensures this.fontSize == fontSize
      ensures cols == GetFontConfig(fontSize).cols && rows == GetFontConfig(fontSize).rowsVisible
      ensures lastOutputLines == []
    {
      this.fontSize := fontSize;
      rows := 0;
      cols := 0;
      lastOutputLines := [];
      new;
      SwitchFont(fontSize);
    }

    /** `switch_font`: the columns and rows of the font `get_font_config`
        gives for the number, which need not be a table index. */
    method SwitchFont(newFontSize: int)
      modifies this
      ensures fontSize == newFontSize
      ensures cols == GetFontConfig(newFontSize).cols && rows == GetFontConfig(newFontSize).rowsVisible
      ensures lastOutputLines == old(lastOutputLines)
    {
      fontSize := newFontSize;
      var fontConfig := GetFontConfig(newFontSize);
      var newCols := fontConfig.cols;
      var newRows := fontConfig.rowsVisible;
      cols := newCols;
      rows := newRows;
    }

    /** `clear`. */
    method Clear()
      modifies this
      ensures lastOutputLines == []
      ensures fontSize == old(fontSize) && rows == old(rows) && cols == old(cols)
    {
      lastOutputLines := [];
    }

    /** `wrap_lines`, reporting `None` where `range` raises. */
    method WrapLines(lines: seq<string>) returns (r: Option<seq<string>>)
      ensures r == Wrap(lines, cols)
    {
      var newList: seq<string> := [];
      for k := 0 to |lines|
        invariant Wrap(lines[..k], cols) == Some(newList)
      {
        var line := lines[k];
        assert lines[..k + 1][..k] == lines[..k];
        assert Wrap(lines[..k + 1], cols) == Join(Wrap(lines[..k], cols), WrapLine(line, cols));
        if |line| <= cols {
          newList := newList + [line];
        } else {
          if cols == 0 {
            WrapFailsOnLongLine(lines, cols, k);
            return None;
          }
          ghost var before := newList;
          var i := 0;
          while i < |line|
            invariant newList + ChunksFrom(line, cols, i) == before + ChunksFrom(line, cols, 0)
            decreases |line| - i
          {
            AppendAssoc(newList, [Slice(line, i, i + cols)], ChunksFrom(line, cols, i + cols));
            newList := newList + [Slice(line, i, i + cols)];
            i := i + cols;
          }
          assert newList + [] == newList;
        }
      }
      assert lines[..|lines|] == lines;
      return Some(newList);
    }

    /** `get_screen_new_lines`: the stripped non-empty output lines after
        the last separator line, or all of them if there is none. */
    function GetScreenNewLines(): (r: seq<string>)
      reads this
      ensures forall i :: 0 <= i < |r| ==> r[i] != [] && RStrip(r[i]) == r[i]
      ensures SEPARATOR !in r
      ensures var lines := StrippedLines(lastOutputLines);
        |r| <= |lines| && r == lines[|lines| - |r|..]
        && (SEPARATOR !in lines ==> r == lines)
        && (SEPARATOR in lines ==> lines[|lines| - |r| - 1] == SEPARATOR)
    {
      AfterLastSeparator(StrippedLines(lastOutputLines))
    }
  }

  lemma JoinAssoc(a: Option<seq<string>>, b: Option<seq<string>>, c: Option<seq<string>>)
    ensures Join(Join(a, b), c) == Join(a, Join(b, c))
  {
    if a.Some? && b.Some? && c.Some? {
      AppendAssoc(a.value, b.value, c.value);
    }
  }

  /** A line too long for zero columns makes the whole wrap fail. */
  lemma {:induction false} WrapFailsOnLongLine(lines: seq<string>, cols: nat, k: nat)
    requires k < |lines| && cols == 0 && |lines[k]| > 0
    ensures Wrap(lines, cols) == None
    decreases |lines|
  {
    if k < |lines| - 1 {
      assert lines[..|lines| - 1][k] == lines[k];
      WrapFailsOnLongLine(lines[..|lines| - 1], cols, k);
    }
  }

  /** With zero columns the wrap fails exactly when some line is not empty. */
  lemma {:induction false} WrapZeroColumns(lines: seq<string>)
    ensures Wrap(lines, 0) == None <==> exists i :: 0 <= i < |lines| && |lines[i]| > 0
    decreases |lines|
  {
    if lines != [] {
      var init := lines[..|lines| - 1];
      WrapZeroColumns(init);
      if exists i :: 0 <= i < |lines| && |lines[i]| > 0 {
        var i :| 0 <= i < |lines| && |lines[i]| > 0;
        WrapFailsOnLongLine(lines, 0, i);
      } else {
        assert forall i :: 0 <= i < |init| ==> init[i] == lines[i];
      }
    }
  }

  /** Every chunk is at most `cols` wide, and at least one character. */
  lemma {:induction false} ChunksFit(line: string, cols: nat, start: nat)
    requires cols > 0
    ensures forall c :: c in ChunksFrom(line, cols, start) ==> 0 < |c| <= cols
    decreases |line| - start
  {
    if start < |line| {
      ChunksFit(line, cols, start + cols);
    }
  }

  /** The chunks from `start` on give back the line from `start` on. */
  lemma {:induction false} ChunksConcat(line: string, cols: nat, start: nat)
    requires cols > 0 && start <= |line|
    ensures Concat(ChunksFrom(line, cols, start)) == line[start..]
    decreases |line| - start
  {
    if start < |line| {
      var next := if start + cols < |line| then start + cols else |line|;
      ChunksConcat(line, cols, next);
      if start + cols >= |line| {
        assert ChunksFrom(line, cols, start + cols) == [];
        assert ChunksFrom(line, cols, next) == [];
      }
      var chunks := ChunksFrom(line, cols, start);
      assert chunks[1..] == ChunksFrom(line, cols, start + cols);
      assert Slice(line, start, start + cols) == line[start..next];
      assert line[start..] == line[start..next] + line[next..];
    }
  }

  /** For a positive width the wrap never fails and every line it gives is
      at most `cols` wide. */
  lemma {:induction false} WrapFits(lines: seq<string>, cols: nat)
    requires cols > 0
    ensures Wrap(lines, cols).Some?
    ensures forall l :: l in Wrap(lines, cols).value ==> |l| <= cols
    decreases |lines|
  {
    if lines != [] {
      WrapFits(lines[..|lines| - 1], cols);
      ChunksFit(lines[|lines| - 1], cols, 0);
    }
  }

  /** A line that fits passes through unchanged, as one line; a longer one
      comes out as chunks that give it back. */
  lemma WrapLineShape(line: string, cols: nat)
    ensures |line| <= cols ==> WrapLine(line, cols) == Some([line])
    ensures cols > 0 ==> WrapLine(line, cols).Some? && Concat(WrapLine(line, cols).value) == line
  {
    if cols > 0 {
      if |line| <= cols {
        assert Concat([line]) == line + Concat([]);
      } else {
        ChunksConcat(line, cols, 0);
      }
    }
  }

  /** Wrapping is line by line, in input order: the wrap of two runs of
      lines is the wrap of the first followed by the wrap of the second. */
  lemma {:induction false} WrapAppend(a: seq<string>, b: seq<string>, cols: nat)
    ensures Wrap(a + b, cols) == Join(Wrap(a, cols), Wrap(b, cols))
    decreases |b|
  {
    if b == [] {
      assert a + b == a;
      if Wrap(a, cols).Some? {
        assert Wrap(a, cols).value + [] == Wrap(a, cols).value;
      }
    } else {
      var b' := b[..|b| - 1];
      WrapAppend(a, b', cols);
      JoinAssoc(Wrap(a, cols), Wrap(b', cols), WrapLine(b[|b| - 1], cols));
      assert (a + b)[..|a + b| - 1] == a + b';
      assert (a + b)[|a + b| - 1] == b[|b| - 1];
    }
  }

  /** A font number in the table gives that font's geometry; any other
      gives the NORMAL font's. Every entry has a positive width, so the
      terminal's wrap never fails. */
  lemma SwitchFontGeometry(newFontSize: int)
    ensures GetFontConfig(newFontSize).cols > 0
    ensures 0 <= newFontSize < 4 ==> GetFontConfig(newFontSize) == FONT_CONFIGURATION[newFontSize]
    ensures !(0 <= newFontSize < 4) ==> GetFontConfig(newFontSize).cols == 52 && GetFontConfig(newFontSize).rowsVisible == 17
  {
  }
}
