/** The driver object: the fields of lcd_t and its operations, each of which
    calls the injected transport.  `trace` records those calls in order; every
    method says exactly which events it appends. */
module LcdDriver {
  import opened LcdProtocol
  import opened LcdPrint

  class Lcd {
    var backlight: Backlight
    var addr: bv8
    var rows: bv8
    var cols: bv8
    /** Every call made to the injected init, write and delay functions. */
    var trace: seq<Event>

    /** A display as the caller declares it, zero-initialised, before lcd_init. */
    constructor ()
      ensures backlight == BacklightOff && addr == 0 && rows == 0 && cols == 0
      ensures trace == []
    {
      backlight, addr, rows, cols := BacklightOff, 0, 0, 0;
      trace := [];
    }

    /** lcd_init: initialise the device, store the geometry, switch the
        backlight on and run the controller's start-up sequence.  It returns 0
        whatever the device init returned. */
    method Init(a: bv8, c: bv8, r: bv8) returns (status: int)
      modifies this
      ensures addr == a && cols == c && rows == r && backlight == BacklightOn
      ensures trace == old(trace) + InitEvents(a)
      ensures status == 0
    {
      trace := trace + [Event.Init(a)];
      addr := a;
      cols := c;
      rows := r;
      backlight := BacklightOn;
      // Ghost bookkeeping: after each write the trace is `start + sent`.
      // Each `assert cols == c && rows == r` restates the frame of Write at
      // that point, so the final geometry check does not reason through all
      // eight calls at once.
      ghost var start := old(trace);
      ghost var sent: seq<Event> := [Event.Init(a)];
      ghost var before := trace;

      before := trace;
      var _ := Write(0x3, 0);
      assert cols == c && rows == r;
      Extend(start, sent, before, WriteEvents(a, BacklightOn, 0x3, 0), trace);
      sent := sent + WriteEvents(a, BacklightOn, 0x3, 0);

      before := trace;
      var _ := Write(0x3, 0);
      assert cols == c && rows == r;
      Extend(start, sent, before, WriteEvents(a, BacklightOn, 0x3, 0), trace);
      sent := sent + WriteEvents(a, BacklightOn, 0x3, 0);

      before := trace;
      var _ := Write(0x3, 0);
      assert cols == c && rows == r;
      Extend(start, sent, before, WriteEvents(a, BacklightOn, 0x3, 0), trace);
      sent := sent + WriteEvents(a, BacklightOn, 0x3, 0);

      before := trace;
      var _ := Write(0x2, 0);
      assert cols == c && rows == r;
      Extend(start, sent, before, WriteEvents(a, BacklightOn, 0x2, 0), trace);
      sent := sent + WriteEvents(a, BacklightOn, 0x2, 0);

      before := trace;
      var _ := Write(CmdFunctionSet | FunctionSet2Line | FunctionSet5x8Dots | FunctionSet4BitMode, 0);
      assert cols == c && rows == r;
      Extend(start, sent, before, WriteEvents(a, BacklightOn, CmdFunctionSet | FunctionSet2Line | FunctionSet5x8Dots | FunctionSet4BitMode, 0), trace);
      sent := sent + WriteEvents(a, BacklightOn, CmdFunctionSet | FunctionSet2Line | FunctionSet5x8Dots | FunctionSet4BitMode, 0);

      before := trace;
      var _ := Write(CmdDisplayControl | DisplayOn | BlinkOn, 0);
      assert cols == c && rows == r;
      Extend(start, sent, before, WriteEvents(a, BacklightOn, CmdDisplayControl | DisplayOn | BlinkOn, 0), trace);
      sent := sent + WriteEvents(a, BacklightOn, CmdDisplayControl | DisplayOn | BlinkOn, 0);

      before := trace;
      var _ := Write(CmdClear, 0);
      assert cols == c && rows == r;
      Extend(start, sent, before, WriteEvents(a, BacklightOn, CmdClear, 0), trace);
      sent := sent + WriteEvents(a, BacklightOn, CmdClear, 0);

      before := trace;
      var _ := Write(CmdEntryModeSet | EntryLeft, 0);
      assert cols == c && rows == r;
      Extend(start, sent, before, WriteEvents(a, BacklightOn, CmdEntryModeSet | EntryLeft, 0), trace);
      sent := sent + WriteEvents(a, BacklightOn, CmdEntryModeSet | EntryLeft, 0);

      InitEventsInOrder(a, 0x3, 0x3, 0x3, 0x2,
        CmdFunctionSet | FunctionSet2Line | FunctionSet5x8Dots | FunctionSet4BitMode,
        CmdDisplayControl | DisplayOn | BlinkOn, CmdClear, CmdEntryModeSet | EntryLeft);
      status := 0;
    }

    /** lcd_write: the byte as two nibble bytes, high half first; returns 0. */
    method Write(val: bv8, mode: bv8) returns (status: int)
      modifies this`trace
      ensures trace == old(trace) + WriteEvents(addr, backlight, val, mode)
      ensures status == 0
    {
      ghost var t0 := trace;
      Write4b(HighNibble(val, mode));
      ghost var mid := trace;
      Write4b(LowNibble(val, mode));
      Extend(t0, NibbleEvents(addr, backlight, HighNibble(val, mode)), mid,
        NibbleEvents(addr, backlight, LowNibble(val, mode)), trace);
      status := 0;
    }

    /** lcd_write4b: the nibble byte with the backlight bit, a 100 µs delay, then the strobe. */
    method Write4b(val: bv8)
      modifies this`trace
      ensures trace == old(trace) + NibbleEvents(addr, backlight, val)
    {
      var v := val | backlight;
      ghost var t0 := trace;
      trace := trace + [Event.Write(addr, v)];
      trace := trace + [Event.Delay(NibbleSetupDelay)];
      ghost var mid := trace;
      assert mid == t0 + [Event.Write(addr, v), Event.Delay(NibbleSetupDelay)];
      Strobe(v);
      Extend(t0, [Event.Write(addr, v), Event.Delay(NibbleSetupDelay)], mid, StrobeEvents(addr, backlight, v), trace);
    }

    /** lcd_strobe: the byte with EN set, then with EN cleared. */
    method Strobe(val: bv8)
      modifies this`trace
      ensures trace == old(trace) + StrobeEvents(addr, backlight, val)
    {
      var ena := val | En | backlight;
      trace := trace + [Event.Write(addr, ena)];
      var dis := (val & !En) | backlight;
      trace := trace + [Event.Write(addr, dis)];
    }

    /** lcd_set_line: the DDRAM address of rows 0..3 as a command and 0;
        any other row sends nothing and returns -1. */
    method SetLine(line: bv8) returns (status: int)
      modifies this`trace
      ensures trace == old(trace) + SetLineEvents(addr, backlight, line)
      ensures status == if line < 4 then 0 else -1
    {
      if line == 0 {
        var _ := Write(0x80, 0);
      } else if line == 1 {
        var _ := Write(0xC0, 0);
      } else if line == 2 {
        var _ := Write(0x94, 0);
      } else if line == 3 {
        var _ := Write(0xD4, 0);
      } else {
        return -1;
      }
      return 0;
    }

    /** lcd_clear_line: select the row, then `cols` cells of the blank table
        as commands, each followed by a 1000 µs delay.  The table has 21
        entries, so the loop stays inside it only when `cols` is at most 21. */
    method ClearLine(line: bv8) returns (status: int)
      requires cols as int <= |EmptyCells()|
      modifies this`trace
      ensures trace == old(trace) + ClearLineEvents(addr, backlight, cols, line)
      ensures status == 0
    {
      var _ := SetLine(line);
      ghost var start := trace;
      for i := 0 to cols as int
        invariant trace == start + ClearCellEvents(addr, backlight, EmptyCells()[..i])
      {
        ghost var before := trace;
        var _ := Write(EmptyCells()[i], 0);
        trace := trace + [Event.Delay(ClearCellDelay)];
        ClearCellSent(addr, backlight, start, EmptyCells(), i, before, trace);
      }
      ClearLineSent(addr, backlight, cols, line, old(trace), start, trace);
      status := 0;
    }

    /** lcd_print: select the starting row, then run the loop of `Run` over
        the text; returns 0.  A wrap from row 3 clears row 0 through
        lcd_clear_line, which needs `cols` within its table. */
    method Print(text: seq<bv8>, line: bv8) returns (status: int)
      requires Fits(cols, PrintCalls(text, line))
      modifies this`trace
      ensures trace == old(trace) + Expand(addr, backlight, cols, PrintCalls(text, line))
      ensures status == 0
    {
      var _ := SetLine(line);
      ExpandSingle(addr, backlight, cols, SetLineCall(line));
      assert text[..0] == [];
      var textPos: int := 0;
      var ln := line;
      for i := 0 to |text|
        invariant Cursor(textPos, ln) == Run(text[..i], Cursor(0, line)).cursor
        invariant Fits(cols, PrintCalls(text[..i], line))
        invariant trace == old(trace) + Expand(addr, backlight, cols, PrintCalls(text[..i], line))
      {
        PrintNextFits(cols, text, line, i);
        ghost var before := trace;
        textPos, ln := PrintByte(text[i], textPos, ln);
        PrintNext(addr, backlight, cols, text, line, i, old(trace), before, trace);
      }
      assert text[..|text|] == text;
      status := 0;
    }

    /** One pass of lcd_print's loop for the byte `c` at column `textPos` of
        row `ln`: its events, and the new column and row. */
    method PrintByte(c: bv8, textPos: int, ln: bv8) returns (nextPos: int, nextLine: bv8)
      requires ClearsTopRow(Cursor(textPos, ln), c) ==> cols as int <= |EmptyCells()|
      modifies this`trace
      ensures Cursor(nextPos, nextLine) == Step(Cursor(textPos, ln), c).cursor
      ensures trace == old(trace) + ByteEvents(addr, backlight, cols, Cursor(textPos, ln), c)
    {
      StepCursor(Cursor(textPos, ln), c);
      nextPos, nextLine := textPos, ln;
      if c == CarriageReturn {
        assert trace == old(trace) + [];
        return;
      }
      if c == LineFeed {
        if textPos != 0 {
          nextLine := ln + 1;
          var _ := SetLine(nextLine);
          nextPos := 0;
        } else {
          assert trace == old(trace) + [];
        }
        return;
      }

      nextPos, nextLine := PutCharacter(c, textPos, ln);
      AppendThree(old(trace), WriteEvents(addr, backlight, c, Rs),
        WrapEvents(addr, backlight, cols, Cursor(textPos, ln)), [Event.Delay(CharacterDelay)]);
    }

    /** The printing branch of lcd_print's loop: the character as data, the
        move to the next column or row, then the 75 ms delay. */
    method PutCharacter(c: bv8, textPos: int, ln: bv8) returns (nextPos: int, nextLine: bv8)
      requires textPos == WrapWidth - 1 && ln == BottomLine ==> cols as int <= |EmptyCells()|
      modifies this`trace
      ensures textPos == WrapWidth - 1 ==> nextPos == 0 && nextLine == if ln == BottomLine then 0 else ln + 1
      ensures textPos != WrapWidth - 1 ==> nextPos == textPos + 1 && nextLine == ln
      ensures trace == old(trace) + WriteEvents(addr, backlight, c, Rs)
        + WrapEvents(addr, backlight, cols, Cursor(textPos, ln)) + [Event.Delay(CharacterDelay)]
    {
      var _ := Write(c, Rs);
      nextPos, nextLine := Advance(textPos, ln);
      trace := trace + [Event.Delay(CharacterDelay)];
    }

    /** The column and row after a character has been written at column
        `textPos` of row `ln`: past the last column, the next row (row 0 after
        row 3, which is cleared first); otherwise the next column. */
    method Advance(textPos: int, ln: bv8) returns (nextPos: int, nextLine: bv8)
      requires textPos == WrapWidth - 1 && ln == BottomLine ==> cols as int <= |EmptyCells()|
      modifies this`trace
      ensures textPos == WrapWidth - 1 ==> nextPos == 0 && nextLine == if ln == BottomLine then 0 else ln + 1
      ensures textPos != WrapWidth - 1 ==> nextPos == textPos + 1 && nextLine == ln
      ensures trace == old(trace) + WrapEvents(addr, backlight, cols, Cursor(textPos, ln))
    {
      nextLine := ln;
      if textPos == WrapWidth - 1 {
        if ln == BottomLine {
          nextLine := 0;
          var _ := ClearLine(0);
        } else {
          nextLine := ln + 1;
          var _ := SetLine(nextLine);
        }
        nextPos := 0;
      } else {
        nextPos := textPos + 1;
        assert trace == old(trace) + [];
      }
    }

    /** lcd_clear: clear display, then return home; returns 0. */
    method Clear() returns (status: int)
      modifies this`trace
      ensures trace == old(trace) + ClearEvents(addr, backlight)
      ensures status == 0
    {
      var _ := Write(CmdClear, 0);
      var _ := Write(CmdReturnHome, 0);
      status := 0;
    }
  }
}
