# HD44780 character LCD over an I2C backpack, in Dafny

This project models the driver in `src/lcd_i2c.c`. It runs an HD44780-family
character display in 4-bit mode behind an I2C port expander. The board
supplies three transport functions: init, write and delay. The driver turns
its operations into nibble writes, enable strobes and delays on those
functions. These operations are modelled: `lcd_init`, `lcd_write`,
`lcd_set_line`, `lcd_clear_line`, `lcd_print`, `lcd_clear`, `lcd_write4b` and
`lcd_strobe`, together with the bit and command constants.

The transport is a trace. Each call the driver makes to the injected
functions is one `Event`: `Init(addr)`, `Write(addr, byte)` or `Delay(us)`.
Bytes are `bv8`, so the C masks, shifts and `~LCD_EN` carry over unchanged.

- `protocol.dfy` (module `LcdProtocol`) holds the constants and the bus
  encoding. Pure functions state which events each operation appends:
  `StrobeEvents`, `NibbleEvents`, `WriteEvents`, `InitEvents`,
  `SetLineEvents`, `ClearLineEvents` and `ClearEvents`. It also has an
  independent decoder that plays the receiving controller. `Latched` keeps the
  bytes written with EN high, and `Assemble` pairs them into bytes, high half
  first. The round-trip lemmas prove that a controller already in 4-bit mode
  receives exactly the instructions and data each operation is called with.
- `print.dfy` (module `LcdPrint`) holds the cursor state machine of
  `lcd_print`. `Step` handles one byte and `Run` the whole loop. Both work
  over driver-level calls: select a row, write a character, clear a row,
  pause. `Expand` turns those calls into bus events. The lemmas cover the
  column range, the newline and carriage-return rules and the wrap. They also
  prove that the controller receives exactly the printable bytes of the text
  as data.
- `driver.dfy` (module `LcdDriver`) holds the class `Lcd`, with the fields of
  `lcd_t` (`backlight`, `addr`, `rows`, `cols`) and the `trace`. Each C
  function is a method that appends to `trace`. Each method's `ensures` says
  the new trace is the old trace followed by the matching specification
  function. Only `Init` may modify the geometry, address and backlight
  fields. Every other method's frame is `this`trace`, so those fields provably
  stay unchanged.

Kept as the code has them:

- `line` in `lcd_print` is a `uint8_t` (`bv8`). A newline, or a wrap from any
  row other than 3, increments it without a cap. It can reach 4 and beyond,
  modulo 256. `lcd_set_line` then sends nothing and returns -1, and
  `lcd_print` ignores that.
- The wrap width is the constant 20, whatever `cols` is.
- `lcd_clear_line` writes `cols` entries of its 21-entry table, as commands.
- `lcd_init`, `lcd_write`, `lcd_print` and `lcd_clear` return 0 in every case.

## Model

| member | source | states |
|---|---|---|
| LcdDriver.Lcd.constructor | inc/lcd_i2c.h:46-53 | a caller-declared, zero-initialised `lcd_t`: backlight off, address and geometry 0, nothing sent yet |
| LcdDriver.Lcd.Init | src/lcd_i2c.c:54-73 | stores address, columns and rows, sets the backlight to 0x08, appends exactly `InitEvents(addr)` (the device init, then the eight command writes, in order), returns 0 |
| LcdDriver.Lcd.Write | src/lcd_i2c.c:76-81 | appends the events of the high nibble byte, then the low nibble byte, with the current address and backlight; returns 0 |
| LcdDriver.Lcd.Write4b | src/lcd_i2c.c:164-171 | appends the nibble byte with the backlight bit, a 100 µs delay, then the strobe of that byte |
| LcdDriver.Lcd.Strobe | src/lcd_i2c.c:173-181 | appends the byte with EN and backlight set, then the byte with EN cleared and backlight set |
| LcdDriver.Lcd.SetLine | src/lcd_i2c.c:83-103 | appends `SetLineEvents(line)` and returns 0 for rows 0..3; returns -1 otherwise |
| LcdDriver.Lcd.ClearLine | src/lcd_i2c.c:105-115 | appends the row selection, then for each of the first `cols` table cells one command write and a 1000 µs delay; returns 0 |
| LcdDriver.Lcd.Print | src/lcd_i2c.c:117-155 | appends exactly the events of the calls `PrintCalls(text, line)` lists, as loop invariants over each prefix of the text; returns 0 |
| LcdDriver.Lcd.PrintByte | src/lcd_i2c.c:122-153 | one loop pass: the cursor moves as `Step` says and the trace grows by that byte's events (nothing for `\r`, a row selection for `\n` off column 0, else the character, the wrap and the delay) |
| LcdDriver.Lcd.PutCharacter | src/lcd_i2c.c:135-152 | a printable byte: one data write, the wrap events, one 75000 µs delay; column and row as the wrap rule gives them |
| LcdDriver.Lcd.Advance | src/lcd_i2c.c:137-150 | after column 19: row 0 cleared and selected from row 3, else the next row (modulo 256) selected, column back to 0; otherwise the next column and no events |
| LcdDriver.Lcd.Clear | src/lcd_i2c.c:157-162 | appends a clear-display command write, then a return-home command write; returns 0 |
| LcdProtocol.RowCommand | src/lcd_i2c.c:83-103 | an address command exists exactly for rows 0..3; it has the set-DDRAM bit, and its address is the row's first cell on a 20x4 display |
| LcdProtocol.WriteShape | src/lcd_i2c.c:76-81 | a byte write is exactly six writes and two 100 µs delays, high nibble byte first, each as byte, delay, byte with EN, byte |
| LcdProtocol.NibbleShape | src/lcd_i2c.c:164-181 | one nibble byte `v` is the writes `v|bl`, `v|bl|EN`, `v|bl`, with the 100 µs delay after the first only |
| LcdProtocol.WriteFlags | src/lcd_i2c.c:164-181 | every byte of a write goes to the stored address, carries the backlight bit, has RS equal to the mode and RW clear; EN is set exactly in the middle byte of each triple |
| LcdProtocol.WriteNibblesRecombine | src/lcd_i2c.c:76-81 | the high halves of the first and fifth events of a write recombine to the value written |
| LcdProtocol.NibblesRecombine | src/lcd_i2c.c:78-79 | the two latched nibble bytes carry RS exactly when the mode is RS, and rebuild the value |
| LcdProtocol.WriteRoundTrip | src/lcd_i2c.c:76-81 | the controller latches two nibbles and receives exactly one byte, the value, as data for mode RS and as an instruction for mode 0 |
| LcdProtocol.HandshakeSendsTwoNibbles | src/lcd_i2c.c:62-65 | each 0x3 and 0x2 handshake step goes through the full byte write and latches two nibbles, 0x00 then 0x30 or 0x20 |
| LcdProtocol.InitSequence | src/lcd_i2c.c:54-73 | the device init comes first and only once; a controller already in 4-bit mode then receives the instructions 0x03, 0x03, 0x03, 0x02, 0x28, 0x0D, 0x01, 0x06 in that order (what a cold controller sees on the bus is in `HandshakeSendsTwoNibbles`); all writes carry the address and backlight on |
| LcdProtocol.InitEventsInOrder | src/lcd_i2c.c:62-70 | the init events are the device init followed by eight separate byte writes of the init commands, in source order |
| LcdProtocol.CommandsRoundTrip | src/lcd_i2c.c:62-70 | a run of command writes is received as exactly those instructions, in order, two nibbles each |
| LcdProtocol.SetLineRoundTrip | src/lcd_i2c.c:83-103 | rows 0, 1, 2, 3 reach the controller as the single instruction 0x80, 0xC0, 0x94, 0xD4; any other row sends nothing |
| LcdProtocol.ClearCellsRoundTrip | src/lcd_i2c.c:109-113 | the clearing loop's cells arrive as instructions, not characters, one per cell |
| LcdProtocol.ClearCellsTiming | src/lcd_i2c.c:109-113 | one 1000 µs delay per cleared cell; every write carries the address and backlight bit |
| LcdProtocol.ClearLineRoundTrip | src/lcd_i2c.c:105-115 | the controller receives the row selection, then the first `cols` table entries as instructions |
| LcdProtocol.ClearLineOnBus | src/lcd_i2c.c:105-115 | every write of a line clear carries the stored address and backlight bit |
| LcdProtocol.ClearRoundTrip | src/lcd_i2c.c:157-162 | the controller receives clear display, then return home, as instructions |
| LcdPrint.Step | src/lcd_i2c.c:124-151 | one loop pass keeps the column within 0..19 |
| LcdPrint.ColumnInRange | src/lcd_i2c.c:121-152 | `text_pos` stays within 0..19 for every text |
| LcdPrint.CarriageReturnsIgnored | src/lcd_i2c.c:124 | printing the text without its carriage returns makes the same calls and ends at the same cursor |
| LcdPrint.NewlineAtColumnZero | src/lcd_i2c.c:125-133 | a newline at column 0 changes nothing |
| LcdPrint.NewlineAdvances | src/lcd_i2c.c:125-133 | a newline off column 0 selects the next row, modulo 256 with no cap, and resets the column |
| LcdPrint.ShortLine | src/lcd_i2c.c:135-152 | up to 19 ordinary characters from column 0 are each written and followed by the delay, and the column counts them |
| LcdPrint.FullLineWraps | src/lcd_i2c.c:137-147 | the twentieth character wraps: from row 3 to row 0 after clearing it, from any other row to the next |
| LcdPrint.PrintTwoCharacters | src/lcd_i2c.c:117-155 | printing "AB" on row 0 selects the row once, then writes both characters with their delays, ending at column 2 |
| LcdPrint.StepPrints | src/lcd_i2c.c:124-135 | one byte writes itself as a character unless it is a carriage return or a newline |
| LcdPrint.PrintsPrintable | src/lcd_i2c.c:122-153 | the loop writes exactly the bytes of the text other than `\r` and `\n`, in order, once each |
| LcdPrint.ExpandIgnored | src/lcd_i2c.c:124-133 | a carriage return, or a newline at column 0, makes no call and no event |
| LcdPrint.ExpandNewline | src/lcd_i2c.c:125-132 | a newline off column 0 sends exactly the next row's selection |
| LcdPrint.ExpandChar | src/lcd_i2c.c:135-152 | a character before column 19 sends its data write, then the 75000 µs delay |
| LcdPrint.ExpandWrap | src/lcd_i2c.c:144-147 | a character at column 19 above row 3 sends its data write, the next row's selection, then the delay |
| LcdPrint.ExpandWrapBottom | src/lcd_i2c.c:139-143 | a character at column 19 of row 3 sends its data write, the clearing of row 0, then the delay |
| LcdPrint.ByteEventsExpand | src/lcd_i2c.c:124-152 | the branch-by-branch events of one pass are exactly the events of the calls `Step` lists |
| LcdPrint.CallDelivers | src/lcd_i2c.c:117-155 | of the calls `lcd_print` makes, only a character write delivers data (that character); all of them latch whole bytes at the stored address and backlight |
| LcdPrint.ClearLineDelivers | src/lcd_i2c.c:105-115 | a line clear latches whole bytes, delivers no character data, and writes only to the stored address with the backlight bit |
| LcdPrint.ExpandDelivers | src/lcd_i2c.c:117-155 | the data a list of calls delivers is exactly the characters it writes |
| LcdPrint.PrintDelivers | src/lcd_i2c.c:117-155 | end to end: the data the controller receives during `lcd_print` is the text without `\r` and `\n`, and every write carries the stored address and backlight bit |

## Left out

- The board functions `init_fn`, `write_fn` and `delay_fn` and the opaque `device` pointer are not modelled. Each call becomes one trace event. Real I2C traffic and real time are not part of this model.
- LcdDriver.Lcd.Write4b: returns nothing. The source returns the status of `write_fn`, but the only caller, `lcd_write`, discards it, so no public result depends on it.
- LcdDriver.Lcd.Strobe: returns nothing, for the same reason.
- LcdDriver.Lcd.Init: the return value of `init_fn` is not modelled. `lcd_init` returns 0 whatever it is.
- The unused command and flag constants are not declared: cursor shift, set CGRAM address, 8-bit mode, 5x10 dots, 1-line, the cursor and blink-off flags, and the entry-mode shift flags. No operation uses them.
- LcdDriver.Lcd.ClearLine: requires `cols` to be at most 21. `lcd_clear_line` reads its 21-entry table for `cols` cells, and past the end its behaviour is undefined in C.
- LcdDriver.Lcd.Print: requires the same bound, but only for a text whose calls include a clear of row 0, that is a wrap from row 3. With fewer calls the bound is not needed.
- `text` and `text_len` of `lcd_print` become one sequence of bytes. A `char` is its byte value.
- Concurrency is not modelled. The driver is single-threaded and blocking.
