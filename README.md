# Smart Response XE terminal: a verified model

The system has two sides:

- **Host.** A Raspberry Pi runs shell commands.
- **Device.** A Smart Response XE (SRXE) handheld, an AVR board with a 384×136 monochrome screen and a keyboard, acts as the host's screen and keyboard. The two talk over a bit-banged serial link.

The model covers the core of both sides, in Dafny.

**Host side** (Python; the current host in `RaspberryPiZero2wSide/`, the older one in `RaspeberryPiSide/`):

- `Config`: the shared constants, the font table and the prompt geometry.
- `Protocol`: the packet decoder, a byte-at-a-time state machine. It turns device bytes into ready, key, line, debug, error and unknown packets.
- `ScreenControl`: the current host's screen controller. It sends text, prompt, scroll and clear commands and decides between scrolling and comparing rows.
- `KeyHandler` and `LegacyKeyHandler`: the current and older key interpreters, with their shift and sym modifiers.
- `SubprocessTerminal`: the current command runner's line wrapping and its selection of new screen lines.
- `ScreenBuffer`, `TerminalBuffer` and `Utilities`: the older host's 17-row screen buffer, its command writer and its output trimming.

**Device side** (Arduino C++ in `ArduinoSide/`):

- `InputBuffer`: the line editor, on a byte array. It covers key handling, the view window, rendering of the prompt line and sending the line.
- `CommandHandler`: the display command handlers. They cover text and prompt text, scrolling, clearing, and raw and RLE-compressed pixel blocks.
- `SerialHelpers`: the packet writers and the big-endian reads.
- `SoftSerial`: the clocked software serial port. It has receive and transmit rings, bit framing, framing-error counting and the deferred transmit queue.
- `SrxeKeyboard`: the key filter, the reverse key-map lookup, modifier packets and the repeat rule.

**Cross-side lemmas** (`Link`): every packet the device writes is decoded by the host's parser as the packet it stands for. This holds one packet at a time and for whole streams.

**Modelling conventions**

- Bytes are `bv8`.
- Stateful objects are classes: the parser, the editor, the handlers, the serial port, the screen controllers and the keyboard handlers.
- A serial link is a log of what was written (`sent`, `writes`, `wire`) or a sequence of bytes still to be read (`rx`).
- The command handlers append their display calls to a `draws` log. `InputBuffer.SrxeInputBuffer.Render` instead returns the y and the line of its single `SRXEWriteString` call. Its font and colour arguments (`_fontId`, 3, 0) are fixed, so they are not returned.
- Each method's contract ties its new state to a specification function of the old state. The properties are proved as lemmas about those functions.

**Two consequences of the code worth stating:**

- The line packet for "ls" ends with checksum `E5`, which is `F8 ^ 02 ^ 6C ^ 73`. See `Link.LsLinePacket`.
- In IDLE, any unexpected byte other than the padding byte `FF` returns an `unknown` packet carrying the byte. See `Protocol.IdleSingleBytes`.
- With a prompt text of 251 bytes or more, `handleWritePromptText` pads from `(uint8_t)(length + 5)`. That index wraps below 5, so the padding overwrites "CMD> ". The model keeps this 8-bit arithmetic as the code has it; `CommandHandler.PromptPadWraps` states the effect.

## Model

| member | source | states |
|---|---|---|
| Config.GetFontConfig | RaspberryPiZero2wSide/config.py:122-126 | the entry returned is in the font table; its id is the requested one when that is a table index, else NORMAL; its rows times its row height is the 136-pixel screen |
| Config.FontTableWellFormed | RaspberryPiZero2wSide/config.py:112-118 | every entry's id is its index, rows × pixels per row = 136, columns lie between 25 and 64, and there are at least 8 rows |
| Config.PromptIsLastRow | RaspberryPiZero2wSide/config.py:101-105 | the prompt's y is the row formula at the last visible row, and for a table font it is exactly one row height above the bottom of the screen |
| Config.MarkersDistinct | RaspberryPiZero2wSide/config.py:44-87 | the packet markers are pairwise distinct and none is a display command code 0x02..0x08 |
| Protocol.PacketParser.constructor | RaspberryPiZero2wSide/protocol.py:71-76 | a new parser is in IDLE with an empty buffer and zeroed fields |
| Protocol.PacketParser.Reset | RaspberryPiZero2wSide/protocol.py:78-84 | from any state, back to IDLE with an empty buffer and zeroed fields |
| Protocol.PacketParser.ExpectedLineChecksum | RaspberryPiZero2wSide/protocol.py:156-159 | the checksum loop computes `F8 ^ length ^` the XOR of the buffered bytes |
| Protocol.PacketParser.Feed | RaspberryPiZero2wSide/protocol.py:86-191 | the parser's new state and the returned packet are the transition function `Step` applied to the old state and the byte |
| Protocol.PacketParser.FinishKey | RaspberryPiZero2wSide/protocol.py:121-130 | at a key packet's end byte the parser returns to IDLE and returns the key outcome: missing end marker, checksum failure or the key |
| Protocol.PacketParser.FinishLine | RaspberryPiZero2wSide/protocol.py:153-170 | at a line packet's end byte the parser returns to IDLE (keeping the buffer) and returns the line outcome |
| Protocol.PacketParser.HandleIdle | RaspberryPiZero2wSide/protocol.py:193-229 | the IDLE dispatch is the IDLE transition function |
| Protocol.IdleSingleBytes | RaspberryPiZero2wSide/protocol.py:193-229 | in IDLE, `FC` returns ready, `FF` returns nothing, and any other non-start byte returns an unknown packet carrying it; the parser is unchanged in all three cases |
| Protocol.RunCons | RaspberryPiZero2wSide/protocol.py:86-191 | feeding a byte then the rest is the byte's packet followed by the rest's packets |
| Protocol.RunQuiet | RaspberryPiZero2wSide/protocol.py:86-191 | a byte that returns nothing contributes nothing to the output |
| Protocol.RunLast | RaspberryPiZero2wSide/protocol.py:86-191 | feeding a single byte gives its state and its packet, if any |
| Protocol.RunAppend | RaspberryPiZero2wSide/protocol.py:86-191 | feeding bytes in two pieces gives the same state and the same packets, in order, as feeding them at once |
| Protocol.KeyPacketOutcome | RaspberryPiZero2wSide/protocol.py:111-130 | `FD k c e` in IDLE records k and c and returns: end-marker error if e ≠ FE, else the key if c = FD^k, else a checksum error for k |
| Protocol.KeyRoundTrip | RaspberryPiZero2wSide/protocol.py:111-126 | `FD k FD^k FE` in IDLE returns key k, for every byte k |
| Protocol.RunLineData | RaspberryPiZero2wSide/protocol.py:142-146 | in the data state bytes are appended until the expected length is reached, and then the parser waits for the checksum, returning nothing |
| Protocol.LineHeaderAndData | RaspberryPiZero2wSide/protocol.py:133-146 | `F8 n d` with n = length of d sets the length, buffers d and waits for the checksum; n = 0 skips the data state |
| Protocol.LineLengthAndData | RaspberryPiZero2wSide/protocol.py:133-146 | after `F8`, the length byte and the data buffer the data and wait for the checksum |
| Protocol.LinePacketOutcome | RaspberryPiZero2wSide/protocol.py:133-170 | a whole line packet gives, checked in this order: end-marker error, checksum error, decode error for non-ASCII data, else the line; the data stays buffered |
| Protocol.LineRoundTrip | RaspberryPiZero2wSide/protocol.py:133-164 | a well-formed packet with ASCII data returns exactly that line |
| Protocol.RunDebugData | RaspberryPiZero2wSide/protocol.py:184-186 | in the debug state, bytes other than `FB` are buffered and nothing is returned |
| Protocol.DebugRoundTrip | RaspberryPiZero2wSide/protocol.py:173-219 | `FA m FB` in IDLE first flushes a non-empty leftover buffer as a debug packet, then returns m as a debug packet and leaves the buffer empty |
| Protocol.DebugBody | RaspberryPiZero2wSide/protocol.py:173-186 | after `FA`, the bytes up to `FB` become one debug message, and the parser returns to IDLE with an empty buffer |
| Protocol.LineLeftoverBecomesDebug | RaspberryPiZero2wSide/protocol.py:153-217 | a line packet's bytes stay buffered, so a debug start right after it returns the line's data again as a debug packet |
| Protocol.ResetThenReady | RaspberryPiZero2wSide/protocol.py:78-84 | after a reset, `FC` returns ready and leaves the parser as reset |
| SerialHelpers.CString | ArduinoSide/SerialHelpers.cpp:98 | `strlen`: the prefix up to but not including the first NUL, with no NUL in it |
| SerialHelpers.ReadUint16 | ArduinoSide/SerialHelpers.cpp:127-131 | `serialReadUint16` is big-endian: high byte × 256 + low byte |
| SerialHelpers.ReadUint16OfBigEndian | ArduinoSide/SerialHelpers.cpp:127-131 | reading back host's `struct.pack('>H', n)` bytes gives n |
| Link.ReadyPacketParsed | ArduinoSide/SerialHelpers.cpp:75-82 | the device's `FF FF FC` is decoded as exactly one ready packet and leaves the parser unchanged |
| Link.KeyPacketParsed | ArduinoSide/SerialHelpers.cpp:107-118 | the device's key packet for k is decoded as key k and leaves the parser in IDLE |
| Link.DebugPacketParsed | ArduinoSide/SerialHelpers.cpp:88-105 | with debugging on, the message up to its NUL comes back as a debug packet, after any leftover buffer; with it off nothing is written |
| Link.EditorTextFits | ArduinoSide/SrxeInputBuffer.h:102-108 | the editor's text is always shorter than 256 bytes and ASCII |
| Link.LinePacketParsed | ArduinoSide/SrxeInputBuffer.h:374-388 | `sendLine` for any reachable editor state is decoded as that line and leaves the parser in IDLE |
| Link.LsLinePacket | ArduinoSide/SrxeInputBuffer.h:374-383 | "ls" is sent as `F8 02 6C 73 E5 F9` |
| Link.ExpectedAll | RaspberryPiZero2wSide/protocol.py:86-229 | the expected packets of a stream, one for each device packet, in order |
| Link.OnePacket | RaspberryPiZero2wSide/protocol.py:86-229 | any ready, key or line packet fed in IDLE returns its own packet and ends in IDLE |
| Link.StreamRoundTrip | RaspberryPiZero2wSide/protocol.py:86-229 | any stream of ready, key and line packets fed in IDLE is decoded packet for packet, in order, whatever the buffer held |
| InputBuffer.NormalFont | ArduinoSide/SrxeInputBuffer.h:119-122 | an out-of-range font id is reset to 0; an id below 4 is kept |
| InputBuffer.Cols | ArduinoSide/SrxeInputBuffer.h:119-122 | the columns of every font lie between 25 and 64 |
| InputBuffer.UsableWidth | ArduinoSide/SrxeInputBuffer.h:146-151 | the usable width plus the 5-column prompt is the font's columns |
| InputBuffer.AdjustView | ArduinoSide/SrxeInputBuffer.h:156-174 | text and cursor unchanged; afterwards the cursor lies inside the view window; the view moves only when the cursor was outside it, and then it moves just far enough to reach the cursor (at the window's left or right edge) |
| InputBuffer.CharsAvailable | ArduinoSide/SrxeInputBuffer.h:316-326 | at least 18 columns are left for characters after the prompt and the indicators |
| InputBuffer.CharsToShow | ArduinoSide/SrxeInputBuffer.h:329-333 | the characters shown fit in the columns left (minus the right indicator) and do not run past the text |
| InputBuffer.Marked | ArduinoSide/SrxeInputBuffer.h:349-361 | the end-cursor and overflow marks keep the line's width |
| InputBuffer.RenderLine | ArduinoSide/SrxeInputBuffer.h:300-364 | the rendered prompt line has exactly the font's columns |
| InputBuffer.PromptRowY | ArduinoSide/SrxeInputBuffer.h:129-141 | the prompt row's y lies on the 136-pixel screen |
| InputBuffer.SrxeInputBuffer.Model | ArduinoSide/SrxeInputBuffer.h:102-114 | the editor value of the fields; a valid buffer gives a valid editor |
| InputBuffer.SrxeInputBuffer.constructor | ArduinoSide/SrxeInputBuffer.h:189-192 | a new editor is empty, with cursor and view at 0, font 0 and the cursor drawn |
| InputBuffer.SrxeInputBuffer.Init | ArduinoSide/SrxeInputBuffer.h:197-200 | `init` stores the font id as given and clears the editor |
| InputBuffer.SrxeInputBuffer.Clear | ArduinoSide/SrxeInputBuffer.h:222-229 | no characters, cursor and view at 0, cursor drawn, font kept |
| InputBuffer.SrxeInputBuffer.SetFont | ArduinoSide/SrxeInputBuffer.h:205-210 | an id above 3 is ignored; otherwise it is stored and the view is refitted |
| InputBuffer.SrxeInputBuffer.GetCols | ArduinoSide/SrxeInputBuffer.h:119-122 | the font's columns, after resetting an out-of-range font id; nothing else changes |
| InputBuffer.SrxeInputBuffer.GetYPosition | ArduinoSide/SrxeInputBuffer.h:129-141 | the prompt row's y, after the same reset; nothing else changes |
| InputBuffer.SrxeInputBuffer.GetUsableWidth | ArduinoSide/SrxeInputBuffer.h:146-151 | the usable width, after the same reset; nothing else changes |
| InputBuffer.SrxeInputBuffer.AdjustViewOffset | ArduinoSide/SrxeInputBuffer.h:156-174 | the buffer becomes valid again, with the view `AdjustView` gives |
| InputBuffer.SrxeInputBuffer.CalculateChecksum | ArduinoSide/SrxeInputBuffer.h:180-186 | the checksum is `F8 ^ length ^` the XOR of the text |
| InputBuffer.SrxeInputBuffer.SendLine | ArduinoSide/SrxeInputBuffer.h:374-383 | the bytes written are `F8`, the length, the text, the checksum and `F9` |
| InputBuffer.SrxeInputBuffer.InsertAtCursor | ArduinoSide/SrxeInputBuffer.h:273-282 | the shift and store insert the key at the cursor and advance the cursor |
| InputBuffer.SrxeInputBuffer.ShiftLeft | ArduinoSide/SrxeInputBuffer.h:246-248 | the array slice moves one place left; everything outside it is unchanged |
| InputBuffer.SrxeInputBuffer.ShiftRight | ArduinoSide/SrxeInputBuffer.h:275-277 | the array slice moves one place right; everything outside it is unchanged |
| InputBuffer.SrxeInputBuffer.RemoveBeforeCursor | ArduinoSide/SrxeInputBuffer.h:243-254 | the character before the cursor is removed and the cursor steps back |
| InputBuffer.SrxeInputBuffer.HandleKey | ArduinoSide/SrxeInputBuffer.h:235-287 | the array edit is the editor transition `HandleKeyModel`; validity is kept; the result is true only for Enter |
| InputBuffer.SrxeInputBuffer.EditKeyInPlace | ArduinoSide/SrxeInputBuffer.h:243-284 | every branch but the unshifted Enter, done on the array, is the editor edit |
| InputBuffer.SrxeInputBuffer.StartDisplayLine | ArduinoSide/SrxeInputBuffer.h:304-326 | the line starts as "CMD> ", then "<<" when the view is scrolled, then spaces; the write position follows them |
| InputBuffer.SrxeInputBuffer.CopyWindow | ArduinoSide/SrxeInputBuffer.h:336-347 | the visible characters are copied from the window start, with the block over a drawn cursor; nothing outside changes |
| InputBuffer.SrxeInputBuffer.BuildDisplayLine | ArduinoSide/SrxeInputBuffer.h:300-364 | the line built is the rendered line |
| InputBuffer.SrxeInputBuffer.MarkLine | ArduinoSide/SrxeInputBuffer.h:349-364 | the end cursor and the ">>" overflow marks are put on the laid-out columns |
| InputBuffer.SrxeInputBuffer.Render | ArduinoSide/SrxeInputBuffer.h:293-367 | the font id is reset if out of range; the cursor flips exactly when the blink is due; the line drawn is the rendered line, at the prompt row |
| InputBuffer.DeviceFontTableMatchesHost | ArduinoSide/SrxeInputBuffer.h:93-98 | the device's font table equals the host's entry by entry |
| InputBuffer.HandleKeyPreservesValid | ArduinoSide/SrxeInputBuffer.h:235-287 | every key keeps view ≤ cursor ≤ length ≤ 128, with printable text |
| InputBuffer.InsertPrintable | ArduinoSide/SrxeInputBuffer.h:271-284 | a printable key is inserted at the cursor and the rest shifts right; when 128 characters are already held, nothing changes but the cursor being drawn |
| InputBuffer.ShiftEnterDeletes | ArduinoSide/SrxeInputBuffer.h:243-254 | Shift+Enter removes the character left of the cursor and shifts the rest left; at cursor 0 nothing changes |
| InputBuffer.ArrowsMoveCursor | ArduinoSide/SrxeInputBuffer.h:259-270 | Left and Right move the cursor by one, clamped to [0, length], and leave the text alone |
| InputBuffer.HandleKeyResult | ArduinoSide/SrxeInputBuffer.h:240-286 | the result is true exactly for the unshifted Enter, which changes nothing else; backspace and non-printable keys change nothing but the cursor being drawn |
| InputBuffer.ClearedEditorRenders | ArduinoSide/SrxeInputBuffer.h:222-229 | a cleared editor is valid and renders "CMD> " followed by the cursor block |
| InputBuffer.RenderLineLayout | ArduinoSide/SrxeInputBuffer.h:300-364 | the rendered line starts with the prompt; "<<" is shown when scrolled; ">>" is shown exactly when text lies beyond the window; the window's characters are in place |
| InputBuffer.MarkedIsRendered | ArduinoSide/SrxeInputBuffer.h:349-364 | marking the laid-out columns gives the rendered line |
| InputBuffer.PromptRowMatchesHost | ArduinoSide/SrxeInputBuffer.h:129-141 | unscrolled, the device's prompt row is the host's prompt row, one row height above the bottom |
| CommandHandler.AdjustY | ArduinoSide/SrxeCommandHandler.h:179 | the scrolled y is below 136, and it is the sum modulo 136 when the 16-bit sum does not wrap |
| CommandHandler.WriteTextBuffer | ArduinoSide/SrxeCommandHandler.h:164-177 | the 64-byte text buffer after `handleWriteText`'s loops (see the layout lemmas) |
| CommandHandler.PromptTextBuffer | ArduinoSide/SrxeCommandHandler.h:117-136 | the 64-byte text buffer after `handleWritePromptText`'s loops (see the layout lemmas) |
| CommandHandler.Received | ArduinoSide/SrxeCommandHandler.h:164-170 | the text loop keeps the buffer's 64 bytes |
| CommandHandler.PaddedFrom | ArduinoSide/SrxeCommandHandler.h:173-177 | the padding loop keeps the buffer's 64 bytes |
| CommandHandler.TrimRun | ArduinoSide/SrxeCommandHandler.h:70-74 | corrected (see Findings): a run never goes past the 544-byte array, and it is cut only to fill the array exactly |
| CommandHandler.TrimRunAsWritten | ArduinoSide/SrxeCommandHandler.h:71-74 | the device's trim with the 16-bit sum as written: the count is never increased, and a cut run ends exactly at the end of the array |
| CommandHandler.RleFill | ArduinoSide/SrxeCommandHandler.h:65-78 | with the corrected trim, the decoded runs fill exactly the space left, using whole 3-byte triples |
| CommandHandler.SrxeCommandHandler.constructor | ArduinoSide/SrxeCommandHandler.h:20 | no scroll offset, nothing drawn |
| CommandHandler.SrxeCommandHandler.ReadUint8 | ArduinoSide/SerialHelpers.cpp:120-125 | consumes and returns the next byte |
| CommandHandler.SrxeCommandHandler.ReadUint16Method | ArduinoSide/SerialHelpers.cpp:127-131 | consumes two bytes and returns them big-endian |
| CommandHandler.SrxeCommandHandler.HandleClearScreen | ArduinoSide/SrxeCommandHandler.h:22-27 | the scroll offset is reset to 0; the scroll reset, scroll area and fill are drawn |
| CommandHandler.SrxeCommandHandler.HandleScrollUp | ArduinoSide/SrxeCommandHandler.h:185-195 | reads one byte; the offset grows by it modulo 136; the scroll is drawn |
| CommandHandler.SrxeCommandHandler.ReadTextHeader | ArduinoSide/SrxeCommandHandler.h:146-150 | the five header bytes y, font, fg, bg and length, in order |
| CommandHandler.SrxeCommandHandler.ReceiveText | ArduinoSide/SrxeCommandHandler.h:164-170 | all `length` bytes are consumed, and only those that fit are kept, at their offset |
| CommandHandler.SrxeCommandHandler.PadWithSpaces | ArduinoSide/SrxeCommandHandler.h:173-177 | spaces up to index 62, then a NUL at 63 |
| CommandHandler.SrxeCommandHandler.ReceiveLine | ArduinoSide/SrxeCommandHandler.h:164-177 | the text loop and the padding together produce `WriteTextBuffer` |
| CommandHandler.SrxeCommandHandler.ReceivePromptLine | ArduinoSide/SrxeCommandHandler.h:117-136 | the prompt, the text loop and the padding produce `PromptTextBuffer` |
| CommandHandler.SrxeCommandHandler.DrawText | ArduinoSide/SrxeCommandHandler.h:179-180 | draws the buffer up to its NUL at the scrolled y |
| CommandHandler.SrxeCommandHandler.HandleWriteText | ArduinoSide/SrxeCommandHandler.h:145-183 | consumes the header and all the text; the buffer and the single draw are as specified |
| CommandHandler.SrxeCommandHandler.HandleWritePromptText | ArduinoSide/SrxeCommandHandler.h:107-143 | the same, with "CMD> " in front of the text |
| CommandHandler.SrxeCommandHandler.FillRun | ArduinoSide/SrxeCommandHandler.h:76 | `memset` writes `count` copies of the value at the position and nothing else |
| CommandHandler.SrxeCommandHandler.DecodeRun | ArduinoSide/SrxeCommandHandler.h:67-77 | one triple is read and its trimmed run written; the rest of the decoding is unchanged |
| CommandHandler.SrxeCommandHandler.DecodeRuns | ArduinoSide/SrxeCommandHandler.h:65-78 | the array becomes the decoded runs and exactly their triples are consumed |
| CommandHandler.SrxeCommandHandler.PrintBlockRle | ArduinoSide/SrxeCommandHandler.h:57-82 | x and y are read, the runs are decoded into the array, and the block is drawn at unscrolled y |
| CommandHandler.SrxeCommandHandler.PrintBlock | ArduinoSide/SrxeCommandHandler.h:84-105 | x, y and exactly 544 raw bytes are read; the block is drawn at scrolled y |
| CommandHandler.WriteTextComposed | ArduinoSide/SrxeCommandHandler.h:164-177 | the text loop followed by the padding is `WriteTextBuffer` |
| CommandHandler.PromptTextComposed | ArduinoSide/SrxeCommandHandler.h:117-136 | the prompt, the text loop and the padding are `PromptTextBuffer` |
| CommandHandler.ScrollOffsetBounded | ArduinoSide/SrxeCommandHandler.h:186-188 | with an offset below 136, adding a byte's worth of scroll is addition modulo 136 |
| CommandHandler.WriteTextYExample | ArduinoSide/SrxeCommandHandler.h:179 | text at y 120 with 24 pixels scrolled is drawn at y 8 |
| CommandHandler.WriteTextShortLine | ArduinoSide/SrxeCommandHandler.h:164-177 | a text shorter than 62 bytes with no NUL is drawn as itself padded with spaces to 63 columns |
| CommandHandler.CStringUpToNul | ArduinoSide/SrxeCommandHandler.h:177 | `strlen` stops at the first NUL |
| CommandHandler.RleStep | ArduinoSide/SrxeCommandHandler.h:66-77 | one triple decodes as its value repeated (trimmed), followed by the rest of the runs |
| CommandHandler.RleStepJoin | ArduinoSide/SrxeCommandHandler.h:66-77 | the same step with the bytes already filled in front |
| CommandHandler.WriteTextLongLine | ArduinoSide/SrxeCommandHandler.h:164-177 | a text of 63 bytes or more keeps its first 62; index 62 keeps its old byte; the NUL is at 63 |
| CommandHandler.PromptTextLayout | ArduinoSide/SrxeCommandHandler.h:117-136 | for a text shorter than 251 bytes: "CMD> ", then up to 57 text bytes, then spaces, then the NUL at 63 |
| CommandHandler.PromptPadWraps | ArduinoSide/SrxeCommandHandler.h:132-134 | for 251..255 text bytes the 8-bit pad start wraps below 5, so spaces overwrite the prompt |
| CommandHandler.RleSingleRun | ArduinoSide/SrxeCommandHandler.h:66-78 | a single run of 544 or more fills the array and uses three bytes |
| CommandHandler.RleRunsFill | ArduinoSide/SrxeCommandHandler.h:66-78 | runs that tile the array exactly are used whole, in order |
| CommandHandler.TrimRunWrapExample | ArduinoSide/SrxeCommandHandler.h:71 | with the 16-bit sum, position 1 and count 65535 pass the trim uncut and overflow the array; the corrected trim cuts the run to 543 |
| CommandHandler.TrimRunAgrees | ArduinoSide/SrxeCommandHandler.h:70-74 | the corrected trim never overflows, and it agrees with the device's trim whenever the sum fits in 16 bits |
| SoftSerial.LsbBits | ArduinoSide/SoftClockSerial.cpp:181-185 | a byte's eight data bits |
| SoftSerial.Frames | ArduinoSide/SoftClockSerial.cpp:172-192 | ten wire bits per byte |
| SoftSerial.Slot | ArduinoSide/SoftClockSerial.cpp:38-50 | ring positions stay below 128 |
| SoftSerial.Occupancy | ArduinoSide/SoftClockSerial.cpp:38-40 | `available`'s arithmetic: head − tail, wrapping by 128, always below 128 |
| SoftSerial.RingContents | ArduinoSide/SoftClockSerial.cpp:42-50 | the bytes between tail and head, as many as the occupancy |
| SoftSerial.Next | ArduinoSide/SoftClockSerial.cpp:48 | an index advances by one, wrapping from 127 to 0 |
| SoftSerial.PushContents | ArduinoSide/SoftClockSerial.cpp:226-231 | storing at head and advancing appends to a ring that is not full |
| SoftSerial.PopContents | ArduinoSide/SoftClockSerial.cpp:42-50 | reading at tail gives the oldest byte, and advancing drops it |
| SoftSerial.FullContents | ArduinoSide/SoftClockSerial.cpp:222-224 | the full test holds exactly when 127 bytes are held |
| SoftSerial.SoftClockSerial.constructor | ArduinoSide/SoftClockSerial.cpp:3-11 | empty rings, not receiving, no errors, nothing sent |
| SoftSerial.SoftClockSerial.Available | ArduinoSide/SoftClockSerial.cpp:38-40 | the number of bytes waiting |
| SoftSerial.SoftClockSerial.Read | ArduinoSide/SoftClockSerial.cpp:42-50 | −1 for an empty ring, otherwise the oldest byte, which is removed |
| SoftSerial.SoftClockSerial.TxEmpty | ArduinoSide/SoftClockSerial.cpp:71-73 | true exactly when nothing is queued |
| SoftSerial.SoftClockSerial.RxBufferFull | ArduinoSide/SoftClockSerial.cpp:222-224 | true exactly when 127 bytes are held |
| SoftSerial.SoftClockSerial.TxBufferFull | ArduinoSide/SoftClockSerial.cpp:233-235 | true exactly when 127 bytes are queued |
| SoftSerial.SoftClockSerial.RxBufferPush | ArduinoSide/SoftClockSerial.cpp:226-231 | appends, or drops the byte when full |
| SoftSerial.SoftClockSerial.TxBufferPush | ArduinoSide/SoftClockSerial.cpp:237-242 | appends, or drops the byte when full |
| SoftSerial.SoftClockSerial.TransmitByte | ArduinoSide/SoftClockSerial.cpp:172-192 | the wire gets a start bit, the data bits least significant first, and a stop bit |
| SoftSerial.SoftClockSerial.ShiftOut | ArduinoSide/SoftClockSerial.cpp:182-183 | the next bit goes out, and the data shifts right |
| SoftSerial.SoftClockSerial.Write | ArduinoSide/SoftClockSerial.cpp:52-62 | while receiving, queues the byte (dropping it when full); otherwise transmits it at once; returns 1 |
| SoftSerial.SoftClockSerial.WriteAll | ArduinoSide/SoftClockSerial.cpp:64-69 | each byte in turn, returning the length |
| SoftSerial.SoftClockSerial.FlushTxBuffer | ArduinoSide/SoftClockSerial.cpp:152-158 | the queued bytes are transmitted oldest first, and the queue is emptied |
| SoftSerial.SoftClockSerial.FlushNext | ArduinoSide/SoftClockSerial.cpp:153-157 | one pass of the flush loop extends the transmitted prefix by one byte |
| SoftSerial.SoftClockSerial.FlushOne | ArduinoSide/SoftClockSerial.cpp:154-156 | the oldest queued byte is removed and transmitted |
| SoftSerial.SoftClockSerial.GetFramingErrors | ArduinoSide/SoftClockSerial.cpp:79-81 | the framing error count |
| SoftSerial.SoftClockSerial.ParityErrors | ArduinoSide/SoftClockSerial.cpp:75-77 | always 0 |
| SoftSerial.SoftClockSerial.ClearErrors | ArduinoSide/SoftClockSerial.cpp:83-85 | the count becomes 0 and nothing else changes |
| SoftSerial.SoftClockSerial.AssembleByte | ArduinoSide/SoftClockSerial.cpp:118-125 | bit i of the byte is set exactly when sample i is high |
| SoftSerial.SoftClockSerial.ReceiveFrame | ArduinoSide/SoftClockSerial.cpp:99-138 | a false start is ignored; otherwise the byte is pushed, and a low stop bit also counts a framing error, with 16-bit wrap |
| SoftSerial.SoftClockSerial.ReceiveFrames | ArduinoSide/SoftClockSerial.cpp:96-140 | every frame, in order, as `ReceiveAll`, with the error count it implies |
| SoftSerial.SoftClockSerial.ReceiveNext | ArduinoSide/SoftClockSerial.cpp:96-140 | one pass of the receive loop extends the received prefix of frames by one |
| SoftSerial.SoftClockSerial.Update | ArduinoSide/SoftClockSerial.cpp:87-150 | receives every frame, closes the window, and transmits the whole queue, leaving it empty |
| SoftSerial.ReceiveStep | ArduinoSide/SoftClockSerial.cpp:96-140 | one more frame is either ignored (false start) or pushed, and counted when its stop bit is low |
| SoftSerial.ShiftedOne | ArduinoSide/SoftClockSerial.cpp:121 | `1 << i` is the mask of bit i |
| SoftSerial.FrameAppend | ArduinoSide/SoftClockSerial.cpp:176-189 | start bit, data bits and stop bit put one after the other form one frame |
| SoftSerial.SentBitsStep | ArduinoSide/SoftClockSerial.cpp:181-185 | one more bit sent extends the prefix of the data bits |
| SoftSerial.ShiftStep | ArduinoSide/SoftClockSerial.cpp:183 | shifting once more reaches the next bit |
| SoftSerial.AssembledAll | ArduinoSide/SoftClockSerial.cpp:118-125 | after eight samples the loop has built the decoded byte |
| SoftSerial.CounterStep | ArduinoSide/SoftClockSerial.cpp:129 | the 16-bit error counter after one more frame |
| SoftSerial.FramesSnoc | ArduinoSide/SoftClockSerial.cpp:153-157 | the frames of one more byte extend the wire by that byte's frame |
| SoftSerial.LsbBitsInjective | ArduinoSide/SoftClockSerial.cpp:181-185 | different bytes send different bits |
| SoftSerial.DecodeLsbBits | ArduinoSide/SoftClockSerial.cpp:118-125 | any eight samples give a byte with exactly those bits |
| SoftSerial.DecodeOfLsbBits | ArduinoSide/SoftClockSerial.cpp:118-125 | decoding a byte's bits gives the byte back |
| SoftSerial.FrameRoundTrip | ArduinoSide/SoftClockSerial.cpp:118-130 | a transmitted frame is not a false start, carries its byte and has a high stop bit |
| SoftSerial.SampledFrames | ArduinoSide/SoftClockSerial.cpp:172-192 | one exactly sampled frame per byte of a stream |
| SoftSerial.StreamRoundTrip | ArduinoSide/SoftClockSerial.cpp:96-140 | a transmitted stream, sampled exactly, is received as the same bytes with no framing error |
| SoftSerial.ReceiveAllAppends | ArduinoSide/SoftClockSerial.cpp:135 | without drops, the ring ends with the bytes received |
| SoftSerial.ReceiveAllBounded | ArduinoSide/SoftClockSerial.cpp:226-231 | the ring never holds more than 127 bytes |
| ScreenControl.TextBytes | RaspberryPiZero2wSide/screen_controller.py:146-147 | one byte per character of the right-stripped line |
| ScreenControl.TextWire | RaspberryPiZero2wSide/screen_controller.py:146-158 | a text command is its 5-byte header (command, y, font, fg, bg), then a length byte counting the text, then the stripped text in ASCII with `?` for others |
| ScreenControl.RawCommand | RaspberryPiZero2wSide/screen_controller.py:135-158 | the command exists exactly when y, font and text length each fit in a byte, and then carries them |
| ScreenControl.WriteLine | RaspberryPiZero2wSide/screen_controller.py:110-133 | a screen line becomes a write-text command |
| ScreenControl.PaddedLineFits | RaspberryPiZero2wSide/screen_controller.py:122-133 | a padded line on screen is always sendable and its text fits the font's columns |
| ScreenControl.PaddedLineText | RaspberryPiZero2wSide/screen_controller.py:114-127 | a padded line sends the line cut to the font's columns; an empty line sends "_" |
| ScreenControl.TrimTrailingEmpty | RaspberryPiZero2wSide/screen_controller.py:196-197 | a prefix of the lines, without a trailing empty string, and only empty strings were dropped |
| ScreenControl.NotPromptFlags | RaspberryPiZero2wSide/screen_controller.py:212 | one flag per line |
| ScreenControl.ChangedFlags | RaspberryPiZero2wSide/screen_controller.py:220-230 | one flag per line |
| ScreenControl.ScreenController.constructor | RaspberryPiZero2wSide/screen_controller.py:33-41 | no lines, nothing sent |
| ScreenControl.ScreenController.ClearScreen | RaspberryPiZero2wSide/screen_controller.py:53-65 | sends one clear, and empties the lines exactly when asked |
| ScreenControl.ScreenController.ScrollScreenUp | RaspberryPiZero2wSide/screen_controller.py:67-80 | sends the scroll exactly when the pixel count fits in a byte |
| ScreenControl.ScreenController.SendLineRaw | RaspberryPiZero2wSide/screen_controller.py:135-165 | sends the command exactly when it can be packed, and reports whether it did |
| ScreenControl.ScreenController.UpdatePrompt | RaspberryPiZero2wSide/screen_controller.py:82-98 | the prompt command is sent at the prompt row, exactly when its text fits |
| ScreenControl.ScreenController.SendLine | RaspberryPiZero2wSide/screen_controller.py:100-133 | a negative row sends nothing and succeeds; otherwise the line command is sent exactly when it can be packed |
| ScreenControl.ScreenController.SendScreenLine | RaspberryPiZero2wSide/screen_controller.py:110-133 | a padded line on a screen row is always sent |
| ScreenControl.ScreenController.AppendRow | RaspberryPiZero2wSide/screen_controller.py:208-213 | the i-th newest line is written at its row unless it is a prompt line |
| ScreenControl.ScreenController.ScrollAndAppend | RaspberryPiZero2wSide/screen_controller.py:203-213 | one scroll by the new lines' height, then the non-prompt lines from the bottom up |
| ScreenControl.ScreenController.CompareRow | RaspberryPiZero2wSide/screen_controller.py:217-231 | the i-th newest line is written exactly when its stripped text differs from the old line at the same place |
| ScreenControl.ScreenController.CompareAndUpdate | RaspberryPiZero2wSide/screen_controller.py:216-231 | the changed bottom rows are written, from the bottom up |
| ScreenControl.ScreenController.SendNewLines | RaspberryPiZero2wSide/screen_controller.py:167-237 | the commands sent and the lines kept are those `send_new_lines` computes |
| ScreenControl.ScreenController.ResendScreen | RaspberryPiZero2wSide/screen_controller.py:239-263 | the newest kept lines are written from the bottom row up |
| ScreenControl.ScreenController.ResendRow | RaspberryPiZero2wSide/screen_controller.py:256-263 | one pass of the resend loop |
| ScreenControl.ResendSendsNext | RaspberryPiZero2wSide/screen_controller.py:256-263 | the resend loop's invariant is kept by one pass |
| ScreenControl.WritesStep | RaspberryPiZero2wSide/screen_controller.py:208-231 | each pass adds the write of its line exactly when the line is flagged |
| ScreenControl.WritesNext | RaspberryPiZero2wSide/screen_controller.py:208-231 | the same, counted from the newest line |
| ScreenControl.WritesAreText | RaspberryPiZero2wSide/screen_controller.py:208-231 | every write of either case is a write-text command |
| ScreenControl.WritesComplete | RaspberryPiZero2wSide/screen_controller.py:208-231 | every flagged line among the k newest is written at its row |
| ScreenControl.WritesSound | RaspberryPiZero2wSide/screen_controller.py:208-231 | every write is a flagged line among the k newest, at its row |
| ScreenControl.FlagsMeaning | RaspberryPiZero2wSide/screen_controller.py:212-230 | a line is written in the scroll case exactly when it is not a prompt line; in the compare case exactly when it is not a prompt line and its stripped text differs from the old line (or from "") |
| ScreenControl.WritesUnchanged | RaspberryPiZero2wSide/screen_controller.py:230 | comparing lines with themselves writes nothing |
| ScreenControl.NoNewLines | RaspberryPiZero2wSide/screen_controller.py:182-186 | no new lines: nothing is sent and the lines kept are unchanged |
| ScreenControl.ScrollCaseShape | RaspberryPiZero2wSide/screen_controller.py:199-213 | fewer trimmed lines than rows: a single scroll by their height comes first, followed only by text writes |
| ScreenControl.KeptLinesBounded | RaspberryPiZero2wSide/screen_controller.py:234-235 | at most 100 lines are kept, and they end with the trimmed new lines |
| ScreenControl.PromptRow | RaspberryPiZero2wSide/screen_controller.py:92-98 | the prompt's y is the last visible row's y |
| ScreenControl.ResendShapeStep | RaspberryPiZero2wSide/screen_controller.py:254-263 | one pass keeps the shape: the j-th write is the j-th newest line at the j-th row from the bottom |
| ScreenControl.ResendSendsShape | RaspberryPiZero2wSide/screen_controller.py:239-263 | the resend writes min(rows, lines) lines, the j-th newest at the j-th row from the bottom |
| KeyHandler.PrintableOrNothing | RaspberryPiZero2wSide/keyboard_handler.py:79 | a character exactly for 32..126, and it is that key's character |
| KeyHandler.Run | RaspberryPiZero2wSide/keyboard_handler.py:22-59 | one result per key |
| KeyHandler.KeyboardHandler.constructor | RaspberryPiZero2wSide/keyboard_handler.py:19-20 | no modifier active |
| KeyHandler.KeyboardHandler.ProcessKey | RaspberryPiZero2wSide/keyboard_handler.py:22-59 | the new modifier and the result are the key transition function applied to the old modifier and the key |
| KeyHandler.ModifierKeys | RaspberryPiZero2wSide/keyboard_handler.py:39-45 | the two modifier keys set their modifier and return nothing; any other key leaves no modifier |
| KeyHandler.ModifierAppliesOnce | RaspberryPiZero2wSide/keyboard_handler.py:48-56 | a modifier changes the next key only, and the key after that is read plainly |
| KeyHandler.RunFinalModifier | RaspberryPiZero2wSide/keyboard_handler.py:39-56 | after any stream, the modifier active is the one the last key names, if it was a modifier key |
| KeyHandler.FontChangeExactly | RaspberryPiZero2wSide/keyboard_handler.py:65-72 | a font change f exactly for shift then '0'+f |
| KeyHandler.ActionsExactly | RaspberryPiZero2wSide/keyboard_handler.py:74-100 | Enter exactly for plain 0x08; Backspace exactly for shift 0x08 or plain 0x7F; clear-buffer exactly for sym 'c' |
| KeyHandler.CharacterExactly | RaspberryPiZero2wSide/keyboard_handler.py:79-107 | a character exactly for a printable key that no modifier turns into an action, and it is the key's own |
| LegacyKeyHandler.LegacyKeyboardHandler.constructor | RaspeberryPiSide/keyboardHandler.py:8-9 | no modifier active |
| LegacyKeyHandler.LegacyKeyboardHandler.ProcessKey | RaspeberryPiSide/keyboardHandler.py:11-41 | the older key transition function |
| LegacyKeyHandler.SameConstants | RaspeberryPiSide/keyboardHandler.py:2-5 | the older markers and modifier codes are the current ones |
| LegacyKeyHandler.AgreesWithCurrent | RaspeberryPiSide/keyboardHandler.py:65-66 | the two handlers differ exactly on sym 'C': the older one clears the buffer, the current one types 'C' |
| SrxeKeyboard.KeyPositionFrom | ArduinoSide/SrxeKeyboard.h:113-121 | −1 or a position at or after the start |
| SrxeKeyboard.KeyPosition | ArduinoSide/SrxeKeyboard.h:113-121 | −1 or one of the 60 positions |
| SrxeKeyboard.SrxeKeyboard.constructor | ArduinoSide/SrxeKeyboard.h:18-19 | no last key, time 0, nothing sent |
| SrxeKeyboard.SrxeKeyboard.IsBadKey | ArduinoSide/SrxeKeyboard.h:45-54 | true exactly when the bad-keyboard setting is on and the key is listed |
| SrxeKeyboard.SrxeKeyboard.IsValidKey | ArduinoSide/SrxeKeyboard.h:30-43 | the key filter |
| SrxeKeyboard.SrxeKeyboard.FindKeyPosition | ArduinoSide/SrxeKeyboard.h:113-121 | the loop stops at the first position that matches |
| SrxeKeyboard.SrxeKeyboard.SendKeyPacket | ArduinoSide/SrxeKeyboard.h:56-66 | appends the key packet and nothing else |
| SrxeKeyboard.SrxeKeyboard.SendModifierAndKey | ArduinoSide/SrxeKeyboard.h:124-138 | the modifier packet the key needs, if any, then the key packet |
| SrxeKeyboard.SrxeKeyboard.ReadKeyboard | ArduinoSide/SrxeKeyboard.h:99-147 | the new state and the bytes sent are the keyboard transition function's |
| SrxeKeyboard.BadKeysRejected | ArduinoSide/SrxeKeyboard.h:30-163 | every listed bad key is refused |
| SrxeKeyboard.ValidKeysExactly | ArduinoSide/SrxeKeyboard.h:35-42 | the accepted keys are exactly printable ASCII, backspace, tab, escape, the four function keys and the three other screen keys listed |
| SrxeKeyboard.ShouldSendModifierExactly | ArduinoSide/SrxeKeyboard.h:73-95 | shift is sent exactly when the shifted key equals the plain one and the key exists; sym exactly when the sym key equals the plain one or is absent; neither without a modifier |
| SrxeKeyboard.KeyPositionFromIsFirst | ArduinoSide/SrxeKeyboard.h:114-121 | the lookup from i finds the first producing position at or after i |
| SrxeKeyboard.KeyPositionIsFirst | ArduinoSide/SrxeKeyboard.h:113-121 | the lookup gives the first producing position, and −1 exactly when none produces the key |
| SrxeKeyboard.AtMostOneModifier | ArduinoSide/SrxeKeyboard.h:124-138 | a sent key is its own packet, preceded by at most one modifier packet; shift wins over sym |
| SrxeKeyboard.SendsExactlyWhenDue | ArduinoSide/SrxeKeyboard.h:102-141 | something is sent exactly for a non-zero valid key that is due, and then the state records it |
| SrxeKeyboard.RepeatRule | ArduinoSide/SrxeKeyboard.h:104-146 | a held key is not resent within 25 ms; key 0 forgets the last key, so the next press is sent at once |
| SrxeKeyboard.ElapsedAcrossWrap | ArduinoSide/SrxeKeyboard.h:104 | elapsed time is measured across the 32-bit millisecond wrap |
| Utilities.MarkerTextIsMarker | RaspeberryPiSide/utilities.py:29 | the marker test is equality with twenty-one `=` |
| Utilities.LastNonBlank | RaspeberryPiSide/utilities.py:16-21 | −1 or an index of a non-blank line |
| Utilities.LastMarker | RaspeberryPiSide/utilities.py:26-31 | −1 or an index of a marker line |
| Utilities.TrimEmptyLines | RaspeberryPiSide/utilities.py:5-40 | the two scans and the slice compute `Trimmed` |
| Utilities.FindLastNonBlank | RaspeberryPiSide/utilities.py:16-21 | the first backward scan finds `LastNonBlank` |
| Utilities.FindStartMarker | RaspeberryPiSide/utilities.py:26-31 | the second backward scan finds `LastMarker` |
| Utilities.LastNonBlankIsLast | RaspeberryPiSide/utilities.py:16-21 | −1 exactly when all lines are blank; all lines after the one found are blank |
| Utilities.LastMarkerIsLast | RaspeberryPiSide/utilities.py:26-31 | −1 exactly when no line is a marker; no line after the one found is |
| Utilities.AllBlankGivesEmpty | RaspeberryPiSide/utilities.py:17-24 | all-blank output gives nothing |
| Utilities.LastNonBlankAt | RaspeberryPiSide/utilities.py:16-21 | a non-blank line followed only by blank ones is the one found |
| Utilities.LastMarkerAt | RaspeberryPiSide/utilities.py:26-31 | a marker followed only by non-markers is the one found |
| Utilities.NoMarkerGivesAllReversed | RaspeberryPiSide/utilities.py:36-40 | with no marker, the lines up to the last non-blank one, reversed |
| Utilities.MarkerGivesLinesAfterIt | RaspeberryPiSide/utilities.py:27-40 | with a marker, the lines after it up to the last non-blank one, reversed |
| Utilities.EmptyExactly | RaspeberryPiSide/utilities.py:17-35 | empty exactly when all lines are blank or the last non-blank line is the marker |
| Utilities.FirstIsLastNonBlank | RaspeberryPiSide/utilities.py:17-40 | a non-empty result starts with the last non-blank line |
| Utilities.SelectedShape | RaspeberryPiSide/utilities.py:33-40 | the selection holds the lines from the last non-blank one back to just after the marker |
| Utilities.TrimmedIsShorter | RaspeberryPiSide/utilities.py:34-40 | never longer than the input, and made only of input lines |
| SubprocessTerminal.StrippedLines | RaspberryPiZero2wSide/SubprocessTerminal.py:102 | only non-empty right-stripped lines, no more than there were |
| SubprocessTerminal.LastSeparator | RaspberryPiZero2wSide/SubprocessTerminal.py:107 | −1 or the last index of the separator, with no separator after it |
| SubprocessTerminal.AfterLastSeparator | RaspberryPiZero2wSide/SubprocessTerminal.py:106-110 | the suffix after the last separator, or all the lines when there is none; it holds no separator |
| SubprocessTerminal.SubprocessTerminal.constructor | RaspberryPiZero2wSide/SubprocessTerminal.py:12-17 | the font's geometry, and no output |
| SubprocessTerminal.SubprocessTerminal.SwitchFont | RaspberryPiZero2wSide/SubprocessTerminal.py:81-92 | the columns and rows of `get_font_config`'s entry, output kept |
| SubprocessTerminal.SubprocessTerminal.Clear | RaspberryPiZero2wSide/SubprocessTerminal.py:116-118 | the output is emptied, geometry kept |
| SubprocessTerminal.SubprocessTerminal.WrapLines | RaspberryPiZero2wSide/SubprocessTerminal.py:70-79 | the nested loops compute `Wrap`, failing where `range` raises |
| SubprocessTerminal.SubprocessTerminal.GetScreenNewLines | RaspberryPiZero2wSide/SubprocessTerminal.py:98-114 | the stripped non-empty output lines after the last separator (all of them when there is none) |
| SubprocessTerminal.WrapFailsOnLongLine | RaspberryPiZero2wSide/SubprocessTerminal.py:77 | with zero columns, one non-empty line makes the wrap fail |
| SubprocessTerminal.WrapZeroColumns | RaspberryPiZero2wSide/SubprocessTerminal.py:73-78 | with zero columns the wrap fails exactly when some line is non-empty |
| SubprocessTerminal.ChunksFit | RaspberryPiZero2wSide/SubprocessTerminal.py:77-78 | every chunk has between 1 and `cols` characters |
| SubprocessTerminal.ChunksConcat | RaspberryPiZero2wSide/SubprocessTerminal.py:77-78 | the chunks give the line back |
| SubprocessTerminal.WrapFits | RaspberryPiZero2wSide/SubprocessTerminal.py:70-79 | with a positive width the wrap succeeds and every line fits |
| SubprocessTerminal.WrapLineShape | RaspberryPiZero2wSide/SubprocessTerminal.py:73-78 | a line that fits passes as itself; a longer one becomes chunks that give it back |
| SubprocessTerminal.WrapAppend | RaspberryPiZero2wSide/SubprocessTerminal.py:71-79 | wrapping works line by line: two runs of lines wrap as one after the other |
| SubprocessTerminal.SwitchFontGeometry | RaspberryPiZero2wSide/SubprocessTerminal.py:87-92 | a table index gives its entry, anything else gives NORMAL's 52 × 17; the width is always positive |
| ScreenBuffer.ScreenBufferFontsWellFormed | RaspeberryPiSide/screenBuffer.py:11-16 | ids are indices, rows × height + padding = 136, and columns and rows match the current host's table |
| ScreenBuffer.PadLineCovers | RaspeberryPiSide/screenBuffer.py:47-52 | a padded line is the new line without trailing newlines, then spaces, at least as long as the line it covers |
| ScreenBuffer.ReplacedContent | RaspeberryPiSide/screenBuffer.py:54-58 | one content row per line of the window |
| ScreenBuffer.ScrolledContent | RaspeberryPiSide/screenBuffer.py:59-69 | the content rows keep their number |
| ScreenBuffer.NewContent | RaspeberryPiSide/screenBuffer.py:54-69 | at least `rows − 1` content rows |
| ScreenBuffer.AsWrittenGrowsWithOneRow | RaspeberryPiSide/screenBuffer.py:54-58 | as written, with one row, two new lines leave three lines |
| ScreenBuffer.AsWrittenAgrees | RaspeberryPiSide/screenBuffer.py:54-75 | with two rows or more, the code as written and the corrected one agree |
| ScreenBuffer.AddKeepsShape | RaspeberryPiSide/screenBuffer.py:40-75 | the buffer keeps its rows with the prompt last; no new lines change nothing; one row gives only the prompt |
| ScreenBuffer.AddReplacesContent | RaspeberryPiSide/screenBuffer.py:54-58 | enough new lines: the content rows are the newest `rows − 1` of them, without trailing newlines |
| ScreenBuffer.AddScrollsContent | RaspeberryPiSide/screenBuffer.py:59-69 | fewer new lines: old rows move up by their number, and the new lines pad over the bottom rows |
| ScreenBuffer.FitToColumns | RaspeberryPiSide/screenBuffer.py:96 | every shown line is exactly the font's width |
| ScreenBuffer.LinesForFontShape | RaspeberryPiSide/screenBuffer.py:86-96 | the small fonts show rows 0..16 and the large ones rows 9..16, each cut or padded to the font's columns |
| ScreenBuffer.ScreenBuffer.constructor | RaspeberryPiSide/screenBuffer.py:20-26 | empty content rows and the prompt last |
| ScreenBuffer.ScreenBuffer.AddOutputLines | RaspeberryPiSide/screenBuffer.py:34-75 | the lines become the corrected `add_output_lines` result |
| ScreenBuffer.ScreenBuffer.AddReversedOutputLines | RaspeberryPiSide/screenBuffer.py:31-32 | the same with the new lines reversed |
| ScreenBuffer.ScreenBuffer.UpdatePrompt | RaspeberryPiSide/screenBuffer.py:100-103 | the prompt and the last row become the new prompt, nothing else changes |
| ScreenBuffer.PromptShownLast | RaspeberryPiSide/screenBuffer.py:77-98 | on a 17-row buffer the last shown row in every font is the prompt, fitted to the width |
| TerminalBuffer.LineText | RaspeberryPiSide/terminal_buffer_v2.py:124-127 | the sent text fits the font's columns, and is exactly that wide when not trimmed |
| TerminalBuffer.LineBytes | RaspeberryPiSide/terminal_buffer_v2.py:129 | one byte per character of the text |
| TerminalBuffer.LineCommandLayout | RaspeberryPiSide/terminal_buffer_v2.py:134-143 | ten header bytes (command, x 0, y big-endian, font, colours, length big-endian) then the text |
| TerminalBuffer.ShownRowsFit | RaspeberryPiSide/terminal_buffer_v2.py:132 | every shown row's y fits in 16 bits |
| TerminalBuffer.ShownRowY | RaspeberryPiSide/terminal_buffer_v2.py:132 | the y of a shown row |
| TerminalBuffer.ScrollCommand | RaspeberryPiSide/terminal_buffer_v2.py:212-213 | the scroll byte then the pixels big-endian, and only when they fit in 16 bits |
| TerminalBuffer.RowCommands | RaspeberryPiSide/terminal_buffer_v2.py:174-176 | one write per shown row |
| TerminalBuffer.RowWritesNext | RaspeberryPiSide/terminal_buffer_v2.py:194-197 | one more row is written exactly when its buffer row is above the threshold |
| TerminalBuffer.ScrollFits | RaspeberryPiSide/terminal_buffer_v2.py:188 | a scroll by fewer rows than are shown stays on screen |
| TerminalBuffer.ScrollPixels | RaspeberryPiSide/terminal_buffer_v2.py:188 | the scroll height is below 136 |
| TerminalBuffer.LinesForFontBounded | RaspeberryPiSide/terminal_buffer_v2.py:165 | at most 17 rows are shown, all inside the buffer |
| TerminalBuffer.RowCommandIsSendLine | RaspeberryPiSide/terminal_buffer_v2.py:174-176 | each row write is what `send_line_to_arduino` writes for it |
| TerminalBuffer.FirstKept | RaspeberryPiSide/terminal_buffer_v2.py:196 | the first row above the threshold; all later rows are above it too |
| TerminalBuffer.KeptRowsFrom | RaspeberryPiSide/terminal_buffer_v2.py:194-197 | the kept rows are a suffix, in order |
| TerminalBuffer.RowWritesKept | RaspeberryPiSide/terminal_buffer_v2.py:194-197 | the row writes are the rows from the first kept one, in order |
| TerminalBuffer.RedrawSendsEveryRow | RaspeberryPiSide/terminal_buffer_v2.py:170-184 | a redraw is one clear, then every shown row trimmed, in order |
| TerminalBuffer.ScrollSendsBottomRows | RaspeberryPiSide/terminal_buffer_v2.py:186-197 | a scroll is one scroll by the new rows' height, then the rows above the threshold, untrimmed |
| TerminalBuffer.RedrawExactly | RaspeberryPiSide/terminal_buffer_v2.py:161-188 | it clears exactly when forced or when the new rows with the prompt are at least one fewer than the rows shown; otherwise it scrolls |
| TerminalBuffer.LargeFontScrollResendsAll | RaspeberryPiSide/terminal_buffer_v2.py:186-197 | with a large font and a full buffer, a scroll still resends all eight rows |
| TerminalBuffer.SmallFontScrollSendsBottom | RaspeberryPiSide/terminal_buffer_v2.py:186-197 | with a small font and a full buffer, only the bottom n + 1 rows are resent |
| TerminalBuffer.TerminalLink.ClearScreen | RaspeberryPiSide/terminal_buffer_v2.py:294-296 | writes one clear |
| TerminalBuffer.TerminalLink.ScrollScreenUp | RaspeberryPiSide/terminal_buffer_v2.py:200-216 | writes the scroll exactly when it can be packed, and reports whether it did |
| TerminalBuffer.TerminalLink.SendLineToArduino | RaspeberryPiSide/terminal_buffer_v2.py:114-148 | writes the line command exactly when it can be packed, and reports whether it did |
| TerminalBuffer.TerminalLink.PackLine | RaspeberryPiSide/terminal_buffer_v2.py:136-143 | the packing, field by field |
| TerminalBuffer.TerminalLink.SendRow | RaspeberryPiSide/terminal_buffer_v2.py:194-197 | one pass of a row loop |
| TerminalBuffer.TerminalLink.Redraw | RaspeberryPiSide/terminal_buffer_v2.py:170-184 | the redraw writes |
| TerminalBuffer.TerminalLink.ScrollAndSend | RaspeberryPiSide/terminal_buffer_v2.py:186-197 | the scroll writes |
| TerminalBuffer.TerminalLink.SendScreenToArduino | RaspeberryPiSide/terminal_buffer_v2.py:151-197 | the writes `send_screen_to_arduino` computes for the buffer |
| TerminalBuffer.TerminalLink.SendRows | RaspeberryPiSide/terminal_buffer_v2.py:182-197 | the writes of the rows above the threshold |
| TerminalBuffer.TerminalLink.SwitchFont | RaspeberryPiSide/terminal_buffer_v2.py:219-237 | one clear; the new font's columns and 17 rows |
| PyStr.EncodeAscii | RaspberryPiZero2wSide/screen_controller.py:146 | one byte per character, non-ASCII characters becoming `?` |
| PyStr.RStripChar | RaspeberryPiSide/screenBuffer.py:48 | `rstrip('\n')` keeps a prefix |
| Bytes.Uint16BE | RaspeberryPiSide/terminal_buffer_v2.py:137-142 | `struct.pack('>H', n)`: two bytes, high byte first |

## Left out

- Blocking reads: `serialReadUint8` waits for a byte to arrive. The handlers instead require that enough bytes have already arrived.
- Debug output inside the device handlers and the host's logging: these are `sprintf` and `sendDebugPacket` calls, and the host prints and logs debug messages. Only `sendDebugPacket`'s bytes are modelled.
- `keyboard.setFont` and `keyboard.clearInput`: `handleWritePromptText` and `handleWriteText` call them after drawing (`SrxeCommandHandler.h:141-142` and `:181-182`). `CommandHandler.SrxeCommandHandler.HandleWriteText` and `HandleWritePromptText` leave these calls out, because `SrxeKeyboard` does not define them.
- The cursor blink timer: `millis() - _lastBlinkTime >= 500` is the parameter `blinkDue` of `Render`.
- `millis()` in the keyboard's repeat rule: the current time and the send time are the parameters `now` and `sentAt`.
- `SRXEGetKey`, `SRXEGetKeyMap` and the modifier register: the key, the modifier bits and the key maps are inputs.
- The display library: its calls are recorded in `draws` and not interpreted. The pixel meaning of the block commands is not modelled.
- `wait_for_ready`: the screen controllers ignore its result, and the model leaves it out.
- ScreenControl.TrimTrailingEmpty: `trim_trailing_empty` is not part of this model. It is taken to drop the empty strings at the end.
- ScreenControl.ScreenController.SendNewLines: the font id is 0..3, so Python's negative list indices are not modelled for the font table.
- ScreenControl.ScreenController.UpdatePrompt, ScreenControl.ScreenController.SendLine and ScreenControl.ScreenController.ResendScreen: the same 0..3 font id. Python would index the font table negatively for -4..-1, or raise `IndexError` for other ids.
- ScreenBuffer.LinesForFont: the same 0..3 font id, for the older host's font table.
- TerminalBuffer.TerminalLink.SendLineToArduino and TerminalBuffer.TerminalLink.SendScreenToArduino: the same 0..3 font id, for the older host's font table.
- TerminalBuffer.TerminalLink.SwitchFont: the font id is 0..3 for the same reason. The host's recreation of its terminal emulator is left out; the method returns the columns and rows it would be given.
- ScreenBuffer.ScreenBuffer.constructor: requires at least one row. With zero rows the Python constructor would build an empty list and then index it.
- Command codes of the older host: its `command` module is not part of this model, so its codes are a parameter (`Codes`).
- Running commands: `run_command`, the subprocess, and `PyteAndPtyProcessTerminal.py` (pty and terminal-emulator I/O) are left out. The command's output lines are the input of `WrapLines` and of the screen buffers.
- The host and device main loops: `get_command_from_keyboard`, `piToDuinoMain.py`, `serialCommunicationsToArduino.py`, `serial_connection.py` and the device's command dispatcher are I/O loops around the modelled operations.
- Serial-port hardware: bit timing, Timer1, `cli`/`sei`, the pins, `startBitDetected` and the per-bit waits are left out. `update()`'s timeout is modelled as a finite list of sampled frames; each frame is the ten samples the receive loop takes.
- Debug message text: it is kept as bytes. The host's UTF-8 decoding with a hex fallback is left out.
- Line packet text: it is kept as bytes, with an ASCII check standing for `decode('ascii')`.
- The parser's `unknown_state` branch: the state is an enumeration, so this branch cannot be reached.
- `getBuffer`, `getLength` and `getFont`: `SrxeInputBuffer.Model()` covers them.
- `showStatusBar`, `freeMemory` and `handleReadKeyboard`: these are display and status calls only.
- `get_current_font`: it only reads a field.
- `TestArduinoCommunication.py`: a test script. It was used only for the expected packet bytes.
- CommandHandler.SrxeCommandHandler.PrintBlockRle: it and `CommandHandler.TrimRun`, `CommandHandler.RleFill`, `CommandHandler.SrxeCommandHandler.DecodeRun` and `CommandHandler.SrxeCommandHandler.DecodeRuns` decode with the corrected trim. The device computes `arrayPosition + timesToPrintIt` and `arrayPosition += timesToPrintIt` in 16 bits. The model therefore differs from the device whenever a count is at least 65536 minus the position; the device would then write past the array. `CommandHandler.TrimRunAsWritten` models the device's check, and `CommandHandler.TrimRunAgrees` shows that the two trims agree below that bound.
- CommandHandler.PromptTextBuffer: keeps the 8-bit pad-start wrap of `handleWritePromptText` as written, without a corrected twin. `PromptPadWraps` shows what the wrap does.

## Findings

| source | as written | input that shows it | evidently intended | confidence | as-written member | corrected member |
|---|---|---|---|---|---|---|
| ArduinoSide/SrxeCommandHandler.h:71 | `arrayPosition + timesToPrintIt > arraySize` is computed in AVR's 16-bit `unsigned int`, so a large count wraps and skips the trim | position 1, count 65535: the sum wraps to 0, the run is not cut, and `memset` writes 65535 bytes past a 544-byte array | cut every run to the space left in the array | not executed | CommandHandler.TrimRunWrapExample | CommandHandler.TrimRunAgrees |
| RaspeberryPiSide/screenBuffer.py:57 | `new_lines[-content_rows:]` with one row has `content_rows` 0, and `new_lines[-0:]` is the whole list | rows 1, lines `[prompt]`, new lines `["a", "b"]`: the buffer grows to three lines | keep no content rows when the buffer has one row, so the buffer keeps exactly `rows` lines | not executed | ScreenBuffer.AsWrittenGrowsWithOneRow | ScreenBuffer.AddKeepsShape |
