/** The host's shared constants: protocol markers, command codes, the font
    geometry table with its lookup, the prompt literal and the history bound. */
module Config {
  import opened Bytes

  const VERTICAL_SCREEN_SIZE: nat := 136

  // Commands, host to device.
  const CMD_WRITE_TEXT: byte := 0x02
  const CMD_SCROLL_UP: byte := 0x03
  const CMD_PRINT_BLOCK_RLE: byte := 0x04
  const CMD_PRINT_BLOCK: byte := 0x05
  const CMD_CLEAR_SCREEN: byte := 0x06
  const CMD_PRINT_PROMPT: byte := 0x07
  const CMD_PRINT_BATCH: byte := 0x08

  // Markers, device to host.
  const CMD_PADDING_MARKER: byte := 0xFF
  const CMD_READY_FOR_NEXT_COMMAND: byte := 0xFC
  const DEBUG_START_MARKER: byte := 0xFA
  const DEBUG_END_MARKER: byte := 0xFB
  const KEY_START_MARKER: byte := 0xFD
  const KEY_END_MARKER: byte := 0xFE
  const LINE_START_MARKER: byte := 0xF8
  const LINE_END_MARKER: byte := 0xF9

  const KEY_MODIFIER_SHIFT: byte := 0x10
  const KEY_MODIFIER_SYM: byte := 0x11

  /** One row of the font table: `[font_id, cols, rows_visible, pixels_per_row, padding]`. */
  datatype FontConfig = FontConfig(id: nat, cols: nat, rowsVisible: nat, pixelsPerRow: nat, padding: nat)

  const FONT_NORMAL: nat := 0
  const FONT_SMALL: nat := 1
  const FONT_MEDIUM: nat := 2
  const FONT_LARGE: nat := 3

  const FONT_CONFIGURATION: seq<FontConfig> := [
    FontConfig(FONT_NORMAL, 52, 17, 8, 0),
    FontConfig(FONT_SMALL, 64, 17, 8, 0),
    FontConfig(FONT_MEDIUM, 32, 8, 17, 0),
    FontConfig(FONT_LARGE, 25, 8, 17, 0)
  ]

  /** A font id that indexes the table. */
  type FontId = x: int | 0 <= x < 4

  const PROMPT: string := "CMD> "
  const TERMINAL_HISTORY_ROWS: nat := 100

  /** `get_font_config`: the table entry for an id in range, else the NORMAL entry. */
  function GetFontConfig(fontId: int): (f: FontConfig)
    ensures f in FONT_CONFIGURATION
    ensures f.id == if 0 <= fontId < |FONT_CONFIGURATION| then fontId else FONT_NORMAL
    ensures f.rowsVisible * f.pixelsPerRow == VERTICAL_SCREEN_SIZE
  {
    if 0 <= fontId < |FONT_CONFIGURATION| then FONT_CONFIGURATION[fontId]
    else FONT_CONFIGURATION[FONT_NORMAL]
  }

  /** A key packet's checksum: `KEY_START ^ KEY`. */
  function KeyChecksum(key: byte): byte
  {
    KEY_START_MARKER ^ key
  }

  /** A line packet's checksum: `LINE_START ^ LENGTH ^ (XOR of all data bytes)`. */
  function LineChecksum(length: byte, data: seq<byte>): byte
  {
    LINE_START_MARKER ^ length ^ XorAll(data)
  }

  /** `y = row * pixels_per_row + padding`. */
  function RowY(f: FontConfig, row: int): int
  {
    row * f.pixelsPerRow + f.padding
  }

  /** `y = rows_visible * pixels_per_row + padding - pixels_per_row`. */
  function PromptY(f: FontConfig): int
  {
    f.rowsVisible * f.pixelsPerRow + f.padding - f.pixelsPerRow
  }

  /** Every entry's id is its index, and each font tiles the 136-pixel screen exactly. */
  lemma FontTableWellFormed(i: int)
    requires 0 <= i < |FONT_CONFIGURATION|
    ensures FONT_CONFIGURATION[i].id == i
    ensures FONT_CONFIGURATION[i].rowsVisible * FONT_CONFIGURATION[i].pixelsPerRow == VERTICAL_SCREEN_SIZE
    ensures 25 <= FONT_CONFIGURATION[i].cols <= 64 && FONT_CONFIGURATION[i].rowsVisible >= 8
  {
  }

  /** The prompt row is the row formula taken at the last visible row. */
  lemma PromptIsLastRow(f: FontConfig)
    requires f.rowsVisible >= 1
    ensures PromptY(f) == RowY(f, f.rowsVisible - 1)
    ensures f in FONT_CONFIGURATION ==> PromptY(f) + f.pixelsPerRow == VERTICAL_SCREEN_SIZE
  {
  }

  /** The device-to-host markers, in the order the protocol lists them. */
  const MARKERS: seq<byte> := [LINE_START_MARKER, LINE_END_MARKER, DEBUG_START_MARKER, DEBUG_END_MARKER,
                               CMD_READY_FOR_NEXT_COMMAND, KEY_START_MARKER, KEY_END_MARKER, CMD_PADDING_MARKER]

  /** The markers are pairwise distinct and none is a command code. */
  lemma MarkersDistinct()
    ensures forall i, j :: 0 <= i < j < |MARKERS| ==> MARKERS[i] != MARKERS[j]
    ensures forall i :: 0 <= i < |MARKERS| ==> !(CMD_WRITE_TEXT <= MARKERS[i] <= CMD_PRINT_BATCH)
  {
  }
}
