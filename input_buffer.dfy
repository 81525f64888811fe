/** The device's line editor: up to 128 typed characters in a fixed array,
    a cursor, a horizontal view offset, the prompt line it draws, and the
    line packet it sends to the host.

    `Editor` is the editor's state as a value and `HandleKeyModel`,
    `AdjustView` and `RenderLine` are the operations on it; the class
    `SrxeInputBuffer` keeps the characters in an array and each of its
    methods is proved to do what the corresponding function says. */
module InputBuffer {
  import opened Bytes
  import opened Config

  const MAX_INPUT: nat := 128
  const PROMPT_WIDTH: nat := 5

  const KEY_ENTER: byte := 0x08
  const KEY_BACKSPACE: byte := 0x7F
  const KEY_LEFT: byte := 0xE3
  const KEY_RIGHT: byte := 0xE2

  /** The block character drawn over the character under the cursor. */
  const CURSOR_BLOCK: byte := 0xDB

  /** The device's own copy of the font table: `{cols, rows_visible, pixels_per_row, padding}`. */
  const DEVICE_FONT_CONFIG: seq<seq<nat>> := [
    [52, 17, 8, 0],
    [64, 17, 8, 0],
    [32, 8, 17, 0],
    [25, 8, 17, 0]
  ]

  /** The bytes of "CMD> ". */
  const PROMPT_BYTES: seq<byte> := [0x43, 0x4D, 0x44, 0x3E, 0x20]

  datatype Editor = Editor(text: seq<byte>, cursor: nat, view: nat, fontId: byte, cursorVisible: bool)

  predicate Printable(b: byte)
  {
    0x20 <= b <= 0x7E
  }

  /** What the editor maintains: `0 <= view <= cursor <= length <= 128`, and
      only printable characters are ever stored. */
  predicate EditorValid(e: Editor)
  {
    && e.view <= e.cursor <= |e.text| <= MAX_INPUT
    && forall i :: 0 <= i < |e.text| ==> Printable(e.text[i])
  }

  /** `getCols` and `getYPosition` reset an out-of-range font id to 0. */
  function NormalFont(id: byte): (r: byte)
    ensures Val(r) < 4
    ensures Val(id) < 4 ==> r == id
  {
    if id > 3 then 0 else id
  }

  function Cols(id: byte): (n: nat)
    ensures 25 <= n <= 64
  {
    DEVICE_FONT_CONFIG[Val(NormalFont(id))][0]
  }

  /** `getUsableWidth`: the columns left after the prompt. */
  function UsableWidth(id: byte): (n: nat)
    ensures n + PROMPT_WIDTH == Cols(id)
  {
    Cols(id) - PROMPT_WIDTH
  }

  /** The width `adjustViewOffset` keeps the cursor within: the usable width,
      less two for the `<<` indicator when the view is already scrolled. */
  function VisibleChars(e: Editor): nat
  {
    UsableWidth(e.fontId) - (if e.view > 0 then 2 else 0)
  }

  /** `adjustViewOffset`: move the view as little as needed to put the cursor
      within `VisibleChars` of it. */
  function AdjustView(e: Editor): (r: Editor)
    ensures r.text == e.text && r.cursor == e.cursor && r.cursorVisible == e.cursorVisible
    ensures r.fontId == NormalFont(e.fontId)
    ensures r.view <= r.cursor <= r.view + VisibleChars(e)
    ensures e.view <= e.cursor <= e.view + VisibleChars(e) <==> r.view == e.view
    ensures r.view != e.view ==> r.cursor == r.view || r.cursor == r.view + VisibleChars(e)
  {
    e.(view := RaiseView(e.cursor, LowerView(e.cursor, e.view), VisibleChars(e)), fontId := NormalFont(e.fontId))
  }

  /** The view moved back to a cursor before it. */
  function LowerView(cursor: nat, view: nat): nat
  {
    if cursor < view then cursor else view
  }

  /** The view moved forward until a cursor past its `visible` characters is on its last place. */
  function RaiseView(cursor: nat, view: nat, visible: nat): nat
  {
    if cursor > view + visible then cursor - visible else view
  }

  function InsertAt(s: seq<byte>, i: nat, b: byte): seq<byte>
    requires i <= |s|
  {
    s[..i] + [b] + s[i..]
  }

  function RemoveAt(s: seq<byte>, i: nat): seq<byte>
    requires i < |s|
  {
    s[..i] + s[i + 1..]
  }

  /** `handleKey`: the new editor and whether the line is ready to send. */
  function HandleKeyModel(e: Editor, key: byte, shiftPressed: bool): (Editor, bool)
    requires EditorValid(e)
  {
    if key == KEY_ENTER && !shiftPressed then (e.(cursorVisible := true), true)
    else (EditKey(e.(cursorVisible := true), key), false)
  }

  /** Every key but an unshifted Enter, applied to the editor with its
      cursor already drawn. */
  function EditKey(e: Editor, key: byte): Editor
    requires EditorValid(e)
  {
    if key == KEY_ENTER then
      if e.cursor > 0 then AdjustView(e.(text := RemoveAt(e.text, e.cursor - 1), cursor := e.cursor - 1)) else e
    else if key == KEY_BACKSPACE then e
    else if key == KEY_LEFT then
      if e.cursor > 0 then AdjustView(e.(cursor := e.cursor - 1)) else e
    else if key == KEY_RIGHT then
      if e.cursor < |e.text| then AdjustView(e.(cursor := e.cursor + 1)) else e
    else if Printable(key) then
      if |e.text| < MAX_INPUT then AdjustView(e.(text := InsertAt(e.text, e.cursor, key), cursor := e.cursor + 1)) else e
    else e
  }

  // ---------------------------------------------------------------------
  // The prompt line

  /** Where the typed characters start: after "CMD> ", and after "<<" too
      when the view is scrolled. */
  function WindowStart(e: Editor): nat
  {
    if e.view > 0 then PROMPT_WIDTH + 2 else PROMPT_WIDTH
  }

  /** `charsAvailable` after the indicators are placed. */
  function CharsAvailable(e: Editor): (n: nat)
    ensures n >= 18
  {
    Cols(e.fontId) - WindowStart(e)
  }

  /** Whether the characters after the view offset need more room than the line has. */
  predicate Clamped(e: Editor)
    requires e.view <= |e.text|
  {
    |e.text| - e.view > CharsAvailable(e) - 2
  }

  function CharsToShow(e: Editor): (n: nat)
    requires e.view <= |e.text|
    ensures n <= CharsAvailable(e) - 2 && e.view + n <= |e.text|
  {
    if Clamped(e) then CharsAvailable(e) - 2 else |e.text| - e.view
  }

  predicate RightOverflow(e: Editor)
    requires e.view <= |e.text|
  {
    Clamped(e) && e.view + CharsToShow(e) < |e.text|
  }

  /** The character shown `i` places into the window: the block where the
      cursor is drawn, else the text's character. */
  function WindowCell(e: Editor, i: nat): byte
    requires EditorValid(e) && i < CharsToShow(e)
  {
    if e.view + i == e.cursor && e.cursorVisible then CURSOR_BLOCK else e.text[e.view + i]
  }

  /** Whether `_` is drawn after the shown characters for a cursor at the end. */
  predicate EndCursorDrawn(e: Editor)
    requires EditorValid(e)
  {
    && e.cursor == |e.text| && e.cursorVisible
    && WindowStart(e) + CharsToShow(e) < Cols(e.fontId) - (if RightOverflow(e) then 2 else 0)
  }

  /** The byte `render` leaves at column `j` of the prompt line: the
      overflow marks and the end cursor over what `BaseCell` lays out. */
  function DisplayCell(e: Editor, j: nat): byte
    requires EditorValid(e) && j < Cols(e.fontId)
  {
    if RightOverflow(e) && j >= Cols(e.fontId) - 2 then 0x3E
    else if j == WindowStart(e) + CharsToShow(e) && EndCursorDrawn(e) then 0x5F
    else BaseCell(e, j)
  }

  /** Column `j` once the prompt, the "<<" indicator and the window are
      copied over the spaces. */
  function BaseCell(e: Editor, j: nat): byte
    requires EditorValid(e)
  {
    if j < PROMPT_WIDTH then PROMPT_BYTES[j]
    else if j < WindowStart(e) then 0x3C
    else if j < WindowStart(e) + CharsToShow(e) then WindowCell(e, j - WindowStart(e))
    else 0x20
  }

  /** The laid-out columns `copied` with the end cursor at `writePos` and
      the overflow marks drawn over them. */
  function Marked(copied: seq<byte>, writePos: nat, endCursor: bool, overflow: bool): (r: seq<byte>)
    requires |copied| >= 2
    ensures |r| == |copied|
  {
    seq(|copied|, k requires 0 <= k < |copied| =>
      if overflow && k >= |copied| - 2 then 0x3E
      else if endCursor && k == writePos && writePos < |copied| - (if overflow then 2 else 0) then 0x5F
      else copied[k])
  }

  /** The prompt line `render` builds, one byte per column. */
  function RenderLine(e: Editor): (line: seq<byte>)
    requires EditorValid(e)
    ensures |line| == Cols(e.fontId)
  {
    seq(Cols(e.fontId), j requires 0 <= j < Cols(e.fontId) => DisplayCell(e, j))
  }

  /** `getYPosition`: the last visible row, moved by the scroll offset
      (`pixelsScrolled` is 16 bits wide, so the sum is taken modulo 65536 on
      the device's 16-bit `int`). */
  function PromptRowY(fontId: byte, pixelsScrolled: uint16): (y: nat)
    ensures y < VERTICAL_SCREEN_SIZE
  {
    var f := DEVICE_FONT_CONFIG[Val(NormalFont(fontId))];
    var y0 := f[1] * f[2] + f[3] - f[2];
    ((y0 + pixelsScrolled) % 0x1_0000) % VERTICAL_SCREEN_SIZE
  }

  // ---------------------------------------------------------------------
  // The line packet

  /** `sendLine`: `F8, length, data..., checksum, F9`. */
  function LinePacket(data: seq<byte>): seq<byte>
    requires |data| < 256
  {
    [LINE_START_MARKER, B(|data|)] + data + [LineChecksum(B(|data|), data), LINE_END_MARKER]
  }

  class SrxeInputBuffer {
    const buffer: array<byte>
    var length: nat
    var cursorPos: nat
    var viewOffset: nat
    var fontId: byte
    var cursorVisible: bool

    /** The array has room for 128 characters and a NUL, the NUL follows the
        printable text, and the cursor is within the text. */
    predicate Stored()
      reads this, buffer
    {
      && buffer.Length == MAX_INPUT + 1
      && cursorPos <= length <= MAX_INPUT
      && buffer[length] == 0
      && forall i :: 0 <= i < length ==> Printable(buffer[i])
    }

    /** The stored text with the view offset at or before the cursor: what
        every public operation keeps. */
    predicate Valid()
      reads this, buffer
    {
      Stored() && viewOffset <= cursorPos
    }

    function Model(): (e: Editor)
      reads this, buffer
      requires Stored()
      ensures Valid() ==> EditorValid(e)
    {
      Editor(buffer[..length], cursorPos, viewOffset, fontId, cursorVisible)
    }

    constructor ()
      ensures Valid() && fresh(buffer)
      ensures Model() == Editor([], 0, 0, 0, true)
    {
      buffer := new byte[MAX_INPUT + 1];
      new;
      Clear();
      fontId := 0;
    }

    /** `init`: sets the font id as given (not range-checked), then clears. */
    method Init(id: byte)
      requires Valid()
      modifies this, buffer
      ensures Valid()
      ensures Model() == Editor([], 0, 0, id, true)
    {
      fontId := id;
      Clear();
    }

    /** `clear`: no characters, cursor and view at 0, cursor drawn. */
    method Clear()
      requires buffer.Length == MAX_INPUT + 1
      modifies this, buffer
      ensures Valid()
      ensures Model() == Editor([], 0, 0, old(fontId), true)
    {
      length := 0;
      cursorPos := 0;
      viewOffset := 0;
      buffer[0] := 0;
      cursorVisible := true;
    }

    /** `setFont`: ids above 3 are ignored; otherwise the view is re-fitted. */
    method SetFont(id: byte)
      requires Valid()
      modifies this
      ensures Valid()
      ensures Model() == if id <= 3 then AdjustView(old(Model()).(fontId := id)) else old(Model())
    {
      if id <= 3 {
        fontId := id;
        AdjustViewOffset();
      }
    }

    /** `getCols` (also resets an out-of-range font id). */
    method GetCols() returns (cols: nat)
      requires Stored()
      modifies this
      ensures Stored() && viewOffset == old(viewOffset)
      ensures Model() == old(Model()).(fontId := NormalFont(old(fontId)))
      ensures cols == Cols(fontId)
    {
      if fontId > 3 {
        fontId := 0;
      }
      cols := DEVICE_FONT_CONFIG[fontId as int][0];
    }

    method GetYPosition(pixelsScrolled: uint16) returns (y: nat)
      requires Stored()
      modifies this
      ensures Stored() && viewOffset == old(viewOffset)
      ensures Model() == old(Model()).(fontId := NormalFont(old(fontId)))
      ensures y == PromptRowY(fontId, pixelsScrolled)
    {
      if fontId > 3 {
        fontId := 0;
      }
      var rows := DEVICE_FONT_CONFIG[fontId as int][1];
      var pixelsPerRow := DEVICE_FONT_CONFIG[fontId as int][2];
      var padding := DEVICE_FONT_CONFIG[fontId as int][3];
      y := rows * pixelsPerRow + padding - pixelsPerRow;
      y := ((y + pixelsScrolled) % 0x1_0000) % VERTICAL_SCREEN_SIZE;
    }

    method GetUsableWidth() returns (usable: nat)
      requires Stored()
      modifies this
      ensures Stored() && viewOffset == old(viewOffset)
      ensures Model() == old(Model()).(fontId := NormalFont(old(fontId)))
      ensures usable == UsableWidth(fontId)
    {
      var cols := GetCols();
      usable := cols - PROMPT_WIDTH;
    }

    /** Called after a cursor move, so the view may be past the cursor on entry. */
    method AdjustViewOffset()
      requires Stored()
      modifies this
      ensures Valid()
      ensures Model() == AdjustView(old(Model()))
    {
      var usable := GetUsableWidth();
      var visibleChars := usable;
      if viewOffset > 0 {
        visibleChars := visibleChars - 2;
      }
      if cursorPos < viewOffset {
        viewOffset := cursorPos;
      }
      if cursorPos > viewOffset + visibleChars {
        viewOffset := cursorPos - visibleChars;
      }
    }

    /** `calculateChecksum`: `F8 ^ length`, then every character XOR-ed in. */
    method CalculateChecksum() returns (checksum: byte)
      requires Valid()
      ensures checksum == LineChecksum(B(length), Model().text)
    {
      checksum := LINE_START_MARKER ^ B(length);
      for i := 0 to length
        invariant checksum == LINE_START_MARKER ^ B(length) ^ XorAll(buffer[..i])
      {
        XorAllStep(buffer[..], i);
        checksum := checksum ^ buffer[i];
      }
    }

    /** `sendLine`: the bytes written to serial, in order. */
    method SendLine() returns (out: seq<byte>)
      requires Valid()
      ensures out == LinePacket(Model().text)
    {
      out := [LINE_START_MARKER, B(length)];
      for i := 0 to length
        invariant out == [LINE_START_MARKER, B(length)] + buffer[..i]
      {
        assert buffer[..i + 1] == buffer[..i] + [buffer[i]];
        out := out + [buffer[i]];
      }
      var checksum := CalculateChecksum();
      out := out + [checksum, LINE_END_MARKER];
    }

    /** Shift `buffer[cursorPos..length]` right by one, then store `key` at the cursor. */
    method InsertAtCursor(key: byte)
      requires Valid() && Printable(key) && length < MAX_INPUT
      modifies this, buffer
      ensures Valid()
      ensures Model() == old(Model()).(text := InsertAt(old(Model()).text, old(cursorPos), key), cursor := old(cursorPos) + 1)
    {
      ghost var before := buffer[..];
      ShiftRight(buffer, cursorPos, length);
      ghost var len, cur := length, cursorPos;
      buffer[cursorPos] := key;
      length := length + 1;
      cursorPos := cursorPos + 1;
      buffer[length] := 0;
      ghost var t := InsertAt(before[..len], cur, key);
      forall k | 0 <= k < length
        ensures buffer[k] == t[k] && Printable(buffer[k])
      {
        if k < cur {
          assert t[k] == before[k];
        } else if k == cur {
          assert t[k] == key;
        } else {
          assert t[k] == before[k - 1];
        }
      }
      assert buffer[..length] == t;
    }

    /** The shifting loop of `handleKey`'s delete branch: `a[lo + 1..hi + 1]`
        moves one place left, over `a[lo]`. */
    static method ShiftLeft(a: array<byte>, lo: nat, hi: nat)
      requires lo <= hi < a.Length
      modifies a
      ensures forall k :: 0 <= k < lo ==> a[k] == old(a[k])
      ensures forall k :: lo <= k < hi ==> a[k] == old(a[k + 1])
      ensures forall k :: hi <= k < a.Length ==> a[k] == old(a[k])
    {
      var i := lo;
      while i < hi
        invariant lo <= i <= hi
        invariant forall k :: 0 <= k < lo ==> a[k] == old(a[k])
        invariant forall k :: lo <= k < i ==> a[k] == old(a[k + 1])
        invariant forall k :: i <= k < a.Length ==> a[k] == old(a[k])
        decreases hi - i
      {
        a[i] := a[i + 1];
        i := i + 1;
      }
    }

    /** The shifting loop of `handleKey`'s insert branch: `a[lo..hi]` moves
        one place right, over `a[hi]`. */
    static method ShiftRight(a: array<byte>, lo: nat, hi: nat)
      requires lo <= hi < a.Length
      modifies a
      ensures forall k :: 0 <= k <= lo ==> a[k] == old(a[k])
      ensures forall k :: lo < k <= hi ==> a[k] == old(a[k - 1])
      ensures forall k :: hi < k < a.Length ==> a[k] == old(a[k])
    {
      var i := hi;
      while i > lo
        invariant lo <= i <= hi
        invariant forall k :: 0 <= k <= i ==> a[k] == old(a[k])
        invariant forall k :: i < k <= hi ==> a[k] == old(a[k - 1])
        invariant forall k :: hi < k < a.Length ==> a[k] == old(a[k])
        decreases i
      {
        a[i] := a[i - 1];
        i := i - 1;
      }
    }

    /** Shift `buffer[cursorPos..length]` left by one over the character before the cursor. */
    method RemoveBeforeCursor()
      requires Stored() && cursorPos > 0
      modifies this, buffer
      ensures Stored()
      ensures Model() == old(Model()).(text := RemoveAt(old(Model()).text, old(cursorPos) - 1), cursor := old(cursorPos) - 1)
    {
      ghost var before := buffer[..];
      ShiftLeft(buffer, cursorPos - 1, length - 1);
      length := length - 1;
      cursorPos := cursorPos - 1;
      buffer[length] := 0;
      assert buffer[..length] == before[..cursorPos] + before[cursorPos + 1..length + 1];
    }

    /** `handleKey`: the edit `HandleKeyModel` describes, with `true` only for Enter. */
    method HandleKey(key: byte, shiftPressed: bool) returns (ready: bool)
      requires Valid()
      modifies this, buffer
      ensures Valid()
      ensures (Model(), ready) == HandleKeyModel(old(Model()), key, shiftPressed)
    {
      cursorVisible := true;
      ready := false;
      if key == KEY_ENTER && !shiftPressed {
        ready := true;
      } else {
        EditKeyInPlace(key);
      }
    }

    /** Every branch of `handleKey` but the unshifted Enter, on the array. */
    method EditKeyInPlace(key: byte)
      requires Valid()
      modifies this, buffer
      ensures Valid()
      ensures Model() == EditKey(old(Model()), key)
    {
      ghost var e := Model();
      if key == KEY_ENTER {
        if cursorPos > 0 {
          RemoveBeforeCursor();
          AdjustViewOffset();
        }
      } else if key == KEY_BACKSPACE {
      } else if key == KEY_LEFT {
        if cursorPos > 0 {
          cursorPos := cursorPos - 1;
          AdjustViewOffset();
        }
      } else if key == KEY_RIGHT {
        if cursorPos < length {
          cursorPos := cursorPos + 1;
          AdjustViewOffset();
        }
      } else if 0x20 <= key <= 0x7E {
        if length < MAX_INPUT {
          InsertAtCursor(key);
          AdjustViewOffset();
          assert Model() == EditKey(e, key);
        }
      }
    }

    /** The start of `render`'s line: `cols` spaces and a NUL, "CMD> ", and
        "<<" when the view (at `viewOffset`) is scrolled. */
    static method StartDisplayLine(cols: nat, viewOffset: nat) returns (display: array<byte>, writePos: nat)
      requires PROMPT_WIDTH + 2 < cols < 65
      ensures fresh(display) && display.Length == 65
      ensures writePos == if viewOffset > 0 then PROMPT_WIDTH + 2 else PROMPT_WIDTH
      ensures forall k :: 0 <= k < PROMPT_WIDTH ==> display[k] == PROMPT_BYTES[k]
      ensures forall k :: PROMPT_WIDTH <= k < writePos ==> display[k] == 0x3C
      ensures forall k :: writePos <= k < cols ==> display[k] == 0x20
    {
      display := new byte[65];
      for j := 0 to cols
        invariant forall k :: 0 <= k < j ==> display[k] == 0x20
      {
        display[j] := 0x20;
      }
      display[cols] := 0;
      display[0] := 0x43;
      display[1] := 0x4D;
      display[2] := 0x44;
      display[3] := 0x3E;
      display[4] := 0x20;
      writePos := PROMPT_WIDTH;
      if viewOffset > 0 {
        display[writePos] := 0x3C;
        writePos := writePos + 1;
        display[writePos] := 0x3C;
        writePos := writePos + 1;
      }
    }

    /** `render`'s copy loop: the window's characters from `start` on, the
        block over the cursor when it is drawn. */
    method CopyWindow(display: array<byte>, start: nat, charsToShow: nat, cols: nat) returns (writePos: nat)
      requires Valid() && cols == Cols(fontId) && display.Length == 65
      requires start == WindowStart(Model()) && charsToShow == CharsToShow(Model())
      modifies display
      ensures writePos == start + charsToShow
      ensures forall k :: 0 <= k < start ==> display[k] == old(display[k])
      ensures forall k :: start <= k < writePos ==> display[k] == WindowCell(Model(), k - start)
      ensures forall k :: writePos <= k < display.Length ==> display[k] == old(display[k])
    {
      ghost var e := Model();
      writePos := start;
      var i := 0;
      while i < charsToShow && writePos < cols - 2
        invariant 0 <= i <= charsToShow && writePos == start + i
        invariant start + charsToShow <= cols - 2
        invariant forall k :: 0 <= k < start ==> display[k] == old(display[k])
        invariant forall k :: start <= k < writePos ==> display[k] == WindowCell(e, k - start)
        invariant forall k :: writePos <= k < display.Length ==> display[k] == old(display[k])
        decreases charsToShow - i
      {
        var bufIdx := viewOffset + i;
        if bufIdx < length {
          if bufIdx == cursorPos && cursorVisible {
            display[writePos] := CURSOR_BLOCK;
          } else {
            display[writePos] := buffer[bufIdx];
          }
          writePos := writePos + 1;
        }
        i := i + 1;
      }
    }

    /** The `displayLine` `render` fills in: spaces, the prompt, the
        indicators, the visible characters with the cursor. */
    method BuildDisplayLine() returns (line: seq<byte>)
      requires Valid()
      ensures line == RenderLine(Model())
    {
      ghost var e := Model();
      var cols := Cols(fontId);
      var display, writePos := StartDisplayLine(cols, viewOffset);
      assert writePos == WindowStart(e);
      var charsAvailable := cols - writePos;
      var hasRightOverflow := false;
      var charsToShow := length - viewOffset;
      if charsToShow > charsAvailable - 2 {
        charsToShow := charsAvailable - 2;
        hasRightOverflow := viewOffset + charsToShow < length;
      }
      assert charsToShow == CharsToShow(e) && hasRightOverflow == RightOverflow(e);
      writePos := CopyWindow(display, writePos, charsToShow, cols);
      ghost var copied := display[..cols];
      assert forall k :: 0 <= k < cols ==> copied[k] == BaseCell(e, k);
      line := MarkLine(display, writePos, cols, cursorPos == length && cursorVisible, hasRightOverflow);
      MarkedIsRendered(e, copied, writePos);
    }

    /** The end of `render`'s line: `_` at `writePos` for a cursor at the
        end when it fits before the marks, then ">>" in the last two
        columns when the text runs past the right edge. */
    static method MarkLine(display: array<byte>, writePos: nat, cols: nat, endCursor: bool, hasRightOverflow: bool)
      returns (line: seq<byte>)
      requires 2 <= cols <= display.Length
      modifies display
      ensures line == Marked(old(display[..cols]), writePos, endCursor, hasRightOverflow)
    {
      if endCursor {
        if writePos < cols - (if hasRightOverflow then 2 else 0) {
          display[writePos] := 0x5F;
        }
      }
      if hasRightOverflow {
        display[cols - 2] := 0x3E;
        display[cols - 1] := 0x3E;
      }
      line := display[..cols];
    }

    /** `render`: toggle the blink when its interval has elapsed, build the
        line, and draw it at the prompt row. The clock is replaced by
        `blinkDue`, which stands for `millis() - _lastBlinkTime >= 500`. */
    method Render(blinkDue: bool, pixelsScrolled: uint16) returns (y: nat, line: seq<byte>)
      requires Valid()
      modifies this
      ensures Valid()
      ensures Model() == old(Model()).(fontId := NormalFont(old(fontId)),
                                       cursorVisible := if blinkDue then !old(cursorVisible) else old(cursorVisible))
      ensures y == PromptRowY(fontId, pixelsScrolled)
      ensures line == RenderLine(Model())
    {
      if blinkDue {
        cursorVisible := !cursorVisible;
      }
      var cols := GetCols();
      y := GetYPosition(pixelsScrolled);
      line := BuildDisplayLine();
    }
  }

  // ---------------------------------------------------------------------
  // Properties of the editor

  /** The device's table agrees with the host's, entry by entry. */
  lemma DeviceFontTableMatchesHost(i: int)
    requires 0 <= i < 4
    ensures DEVICE_FONT_CONFIG[i] == [FONT_CONFIGURATION[i].cols, FONT_CONFIGURATION[i].rowsVisible,
                                      FONT_CONFIGURATION[i].pixelsPerRow, FONT_CONFIGURATION[i].padding]
  {
  }

  /** Every key keeps `0 <= view <= cursor <= length <= 128` and a text of printable characters. */
  lemma HandleKeyPreservesValid(e: Editor, key: byte, shiftPressed: bool)
    requires EditorValid(e)
    ensures EditorValid(HandleKeyModel(e, key, shiftPressed).0)
  {
    if key != KEY_ENTER && key != KEY_BACKSPACE && key != KEY_LEFT && key != KEY_RIGHT && Printable(key) && |e.text| < MAX_INPUT {
      InsertKeepsPrintable(e.text, e.cursor, key);
    } else if key == KEY_ENTER && shiftPressed && e.cursor > 0 {
      RemoveKeepsPrintable(e.text, e.cursor - 1);
    }
  }

  lemma InsertKeepsPrintable(s: seq<byte>, i: nat, b: byte)
    requires i <= |s| && Printable(b)
    requires forall j :: 0 <= j < |s| ==> Printable(s[j])
    ensures forall j :: 0 <= j < |InsertAt(s, i, b)| ==> Printable(InsertAt(s, i, b)[j])
  {
    var t := InsertAt(s, i, b);
    assert forall j :: 0 <= j < |t| ==> t[j] == (if j < i then s[j] else if j == i then b else s[j - 1]);
  }

  lemma RemoveKeepsPrintable(s: seq<byte>, i: nat)
    requires i < |s|
    requires forall j :: 0 <= j < |s| ==> Printable(s[j])
    ensures forall j :: 0 <= j < |RemoveAt(s, i)| ==> Printable(RemoveAt(s, i)[j])
  {
    var t := RemoveAt(s, i);
    assert forall j :: 0 <= j < |t| ==> t[j] == (if j < i then s[j] else s[j + 1]);
  }

  /** A printable key with fewer than 128 characters goes in at the cursor,
      the rest of the text moves right by one and the cursor advances. At
      128 characters nothing changes but the cursor being drawn. */
  lemma InsertPrintable(e: Editor, key: byte, shiftPressed: bool)
    requires EditorValid(e) && Printable(key) && key != KEY_BACKSPACE
    ensures var (r, ready) := HandleKeyModel(e, key, shiftPressed);
      && !ready
      && (|e.text| < MAX_INPUT ==>
            && |r.text| == |e.text| + 1 && r.cursor == e.cursor + 1
            && r.text[..e.cursor] == e.text[..e.cursor]
            && r.text[e.cursor] == key
            && r.text[e.cursor + 1..] == e.text[e.cursor..])
      && (|e.text| == MAX_INPUT ==> r == e.(cursorVisible := true))
  {
    if |e.text| < MAX_INPUT {
      var t := InsertAt(e.text, e.cursor, key);
      assert t[..e.cursor] == e.text[..e.cursor];
      assert t[e.cursor + 1..] == e.text[e.cursor..];
    }
  }

  /** Shift+Enter removes the character left of the cursor, the rest moves
      left by one and the cursor steps back; at cursor 0 nothing changes. */
  lemma ShiftEnterDeletes(e: Editor)
    requires EditorValid(e)
    ensures var (r, ready) := HandleKeyModel(e, KEY_ENTER, true);
      && !ready
      && (e.cursor > 0 ==>
            && |r.text| == |e.text| - 1 && r.cursor == e.cursor - 1
            && r.text[..e.cursor - 1] == e.text[..e.cursor - 1]
            && r.text[e.cursor - 1..] == e.text[e.cursor..])
      && (e.cursor == 0 ==> r == e.(cursorVisible := true))
  {
    if e.cursor > 0 {
      var t := RemoveAt(e.text, e.cursor - 1);
      assert t[..e.cursor - 1] == e.text[..e.cursor - 1];
      assert t[e.cursor - 1..] == e.text[e.cursor..];
    }
  }

  /** Left and Right move the cursor by one, clamped to `[0, length]`, and
      leave the characters alone. */
  lemma ArrowsMoveCursor(e: Editor)
    requires EditorValid(e)
    ensures var (r, ready) := HandleKeyModel(e, KEY_LEFT, false);
      !ready && r.text == e.text && r.cursor == if e.cursor > 0 then e.cursor - 1 else 0
    ensures var (r, ready) := HandleKeyModel(e, KEY_RIGHT, false);
      !ready && r.text == e.text && r.cursor == if e.cursor < |e.text| then e.cursor + 1 else |e.text|
  {
  }

  /** Only Enter without shift returns true, and it leaves text, cursor and
      view alone; 0x7F and every key that is not an edit change nothing but
      the cursor being drawn, and return false. */
  lemma HandleKeyResult(e: Editor, key: byte, shiftPressed: bool)
    requires EditorValid(e)
    ensures HandleKeyModel(e, key, shiftPressed).1 <==> key == KEY_ENTER && !shiftPressed
    ensures key == KEY_ENTER && !shiftPressed ==> HandleKeyModel(e, key, shiftPressed).0 == e.(cursorVisible := true)
    ensures key == KEY_BACKSPACE || (key !in {KEY_ENTER, KEY_LEFT, KEY_RIGHT} && !Printable(key))
            ==> HandleKeyModel(e, key, shiftPressed) == (e.(cursorVisible := true), false)
  {
  }

  /** `clear` followed by anything rebuilds from an empty editor; the
      editor it leaves is valid and draws "CMD> " followed by the cursor. */
  lemma ClearedEditorRenders(id: byte)
    ensures EditorValid(Editor([], 0, 0, id, true))
    ensures RenderLine(Editor([], 0, 0, id, true))[..PROMPT_WIDTH] == PROMPT_BYTES
    ensures RenderLine(Editor([], 0, 0, id, true))[PROMPT_WIDTH] == 0x5F
  {
    var e := Editor([], 0, 0, id, true);
    assert RenderLine(e)[PROMPT_WIDTH] == DisplayCell(e, PROMPT_WIDTH);
  }

  /** The prompt line is exactly `cols` wide and starts with "CMD> "; `<<`
      sits at columns 5 and 6 when the view is scrolled, `>>` in the last two
      columns when the shown window ends before the text does, and the
      characters from the view offset fill the window in order, the one under
      a drawn cursor replaced by the block. */
  lemma RenderLineLayout(e: Editor)
    requires EditorValid(e)
    ensures var line := RenderLine(e); var cols := Cols(e.fontId);
      && |line| == cols
      && line[..PROMPT_WIDTH] == PROMPT_BYTES
      && (e.view > 0 ==> line[5] == 0x3C && line[6] == 0x3C)
      && (RightOverflow(e) ==> line[cols - 2] == 0x3E && line[cols - 1] == 0x3E)
      && (RightOverflow(e) <==> e.view + CharsToShow(e) < |e.text|)
      && (forall k :: WindowStart(e) <= k < WindowStart(e) + CharsToShow(e) ==> line[k] == WindowCell(e, k - WindowStart(e)))
  {
    var line := RenderLine(e);
    assert forall k :: 0 <= k < PROMPT_WIDTH ==> line[k] == PROMPT_BYTES[k];
  }

  /** Marking the laid-out columns gives the rendered line. */
  lemma MarkedIsRendered(e: Editor, copied: seq<byte>, writePos: nat)
    requires EditorValid(e) && |copied| == Cols(e.fontId)
    requires forall k :: 0 <= k < |copied| ==> copied[k] == BaseCell(e, k)
    requires writePos == WindowStart(e) + CharsToShow(e)
    ensures Marked(copied, writePos, e.cursor == |e.text| && e.cursorVisible, RightOverflow(e)) == RenderLine(e)
  {
    var m := Marked(copied, writePos, e.cursor == |e.text| && e.cursorVisible, RightOverflow(e));
    forall k | 0 <= k < |copied|
      ensures m[k] == DisplayCell(e, k)
    {
    }
  }

  /** The prompt row lies on screen and, unscrolled, is the host's prompt row. */
  lemma PromptRowMatchesHost(id: byte)
    requires Val(id) < 4
    ensures PromptRowY(id, 0) == PromptY(FONT_CONFIGURATION[Val(id)])
    ensures PromptRowY(id, 0) + FONT_CONFIGURATION[Val(id)].pixelsPerRow == VERTICAL_SCREEN_SIZE
  {
  }
}
