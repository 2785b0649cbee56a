/** The text-printing algorithm of lcd_print, one level above the bus: a
    state machine over the column `text_pos` and the row `line` that decides,
    byte by byte, which driver calls to make.  `Expand` then says which bus
    events those calls send. */
module LcdPrint {
  import opened LcdProtocol

  /** The wrap width lcd_print uses, whatever the configured column count. */
  const WrapWidth: int := 20
  const BottomLine: bv8 := 3
  const CarriageReturn: bv8 := 0x0D
  const LineFeed: bv8 := 0x0A

  /** lcd_print's local state: `text_pos` (an int) and `line` (a uint8_t,
      so incrementing it wraps modulo 256). */
  datatype Cursor = Cursor(pos: int, line: bv8)

  /** A call lcd_print makes. */
  datatype Call =
    | SetLineCall(line: bv8)    // lcd_set_line
    | PutChar(c: bv8)           // lcd_write(c, LCD_RS)
    | ClearLineCall(line: bv8)  // lcd_clear_line
    | Pause(us: nat)            // the delay function

  /** The calls made so far and the cursor reached. */
  datatype Progress = Progress(calls: seq<Call>, cursor: Cursor)

  /** One iteration of lcd_print's loop. */
  function Step(cur: Cursor, c: bv8): (r: Progress)
    ensures 0 <= cur.pos < WrapWidth ==> 0 <= r.cursor.pos < WrapWidth
  {
    if c == CarriageReturn then Progress([], cur)
    else if c == LineFeed then
      if cur.pos != 0 then Progress([SetLineCall(cur.line + 1)], Cursor(0, cur.line + 1))
      else Progress([], cur)
    else if cur.pos == WrapWidth - 1 then
      if cur.line == BottomLine then
        Progress([PutChar(c), ClearLineCall(0), Pause(CharacterDelay)], Cursor(0, 0))
      else
        Progress([PutChar(c), SetLineCall(cur.line + 1), Pause(CharacterDelay)], Cursor(0, cur.line + 1))
    else
      Progress([PutChar(c), Pause(CharacterDelay)], Cursor(cur.pos + 1, cur.line))
  }

  /** The loop of lcd_print over `text`, from `start`. */
  function Run(text: seq<bv8>, start: Cursor): Progress
    decreases |text|
  {
    if text == [] then Progress([], start)
    else
      var before := Run(text[..|text| - 1], start);
      var step := Step(before.cursor, text[|text| - 1]);
      Progress(before.calls + step.calls, step.cursor)
  }

  /** Where one byte leaves the cursor, case by case: an unfolding aid for
      the driver's loop pass, with no content beyond `Step` itself. */
  lemma StepCursor(cur: Cursor, c: bv8)
    ensures c == CarriageReturn ==> Step(cur, c).cursor == cur
    ensures c == LineFeed ==> Step(cur, c).cursor == if cur.pos != 0 then Cursor(0, cur.line + 1) else cur
    ensures c != CarriageReturn && c != LineFeed ==>
      Step(cur, c).cursor == (if cur.pos != WrapWidth - 1 then Cursor(cur.pos + 1, cur.line)
        else if cur.line == BottomLine then Cursor(0, 0) else Cursor(0, cur.line + 1))
  {
  }

  /** All of lcd_print: select the starting row, then the loop from column 0. */
  function PrintCalls(text: seq<bv8>, line: bv8): seq<Call>
  {
    [SetLineCall(line)] + Run(text, Cursor(0, line)).calls
  }

  /** The bytes lcd_print writes as characters: all but carriage returns and newlines. */
  function Printable(text: seq<bv8>): seq<bv8>
    decreases |text|
  {
    if text == [] then []
    else
      var last := text[|text| - 1];
      Printable(text[..|text| - 1]) + (if last == CarriageReturn || last == LineFeed then [] else [last])
  }

  /** The characters in a list of calls, in order. */
  function Printed(calls: seq<Call>): seq<bv8>
    decreases |calls|
  {
    if calls == [] then []
    else (if calls[0].PutChar? then [calls[0].c] else []) + Printed(calls[1..])
  }

  /** lcd_clear_line reads its table for `cols` cells; the table has 21. */
  predicate Fits(cols: bv8, calls: seq<Call>)
  {
    cols as int <= |EmptyCells()| || forall k :: 0 <= k < |calls| ==> !calls[k].ClearLineCall?
  }

  /** The bus events of one call, with the stored address, backlight and column count. */
  function CallEvents(addr: bv8, bl: bv8, cols: bv8, call: Call): seq<Event>
    requires call.ClearLineCall? ==> cols as int <= |EmptyCells()|
  {
    match call
    case SetLineCall(line) => SetLineEvents(addr, bl, line)
    case PutChar(c) => WriteEvents(addr, bl, c, Rs)
    case ClearLineCall(line) => ClearLineEvents(addr, bl, cols, line)
    case Pause(us) => [Delay(us)]
  }

  /** The bus events of a list of calls. */
  function Expand(addr: bv8, bl: bv8, cols: bv8, calls: seq<Call>): seq<Event>
    requires Fits(cols, calls)
    decreases |calls|
  {
    if calls == [] then []
    else CallEvents(addr, bl, cols, calls[0]) + Expand(addr, bl, cols, calls[1..])
  }

  // ---------------------------------------------------------------------
  // The cursor.

  /** `text_pos` stays within 0..19 whatever the text. */
  lemma {:induction false} ColumnInRange(text: seq<bv8>, start: Cursor)
    requires 0 <= start.pos < WrapWidth
    ensures 0 <= Run(text, start).cursor.pos < WrapWidth
    decreases |text|
  {
    if text != [] {
      ColumnInRange(text[..|text| - 1], start);
    }
  }

  /** The calls of a prefix of the text are a prefix of the calls of the text. */
  lemma {:induction false} RunPrefix(text: seq<bv8>, k: nat, start: Cursor)
    requires k <= |text|
    ensures Run(text[..k], start).calls <= Run(text, start).calls
    decreases |text|
  {
    if k < |text| {
      assert text[..|text| - 1][..k] == text[..k];
      RunPrefix(text[..|text| - 1], k, start);
    } else {
      assert text[..k] == text;
    }
  }

  /** Carriage returns have no effect at all: printing the text without them
      makes the same calls and ends at the same cursor. */
  lemma {:induction false} CarriageReturnsIgnored(text: seq<bv8>, start: Cursor)
    ensures Run(WithoutCarriageReturns(text), start) == Run(text, start)
    decreases |text|
  {
    if text != [] {
      var front := text[..|text| - 1];
      CarriageReturnsIgnored(front, start);
      var last := text[|text| - 1];
      var before := Run(front, start);
      if last == CarriageReturn {
        assert WithoutCarriageReturns(text) == WithoutCarriageReturns(front) + [];
        assert WithoutCarriageReturns(front) + [] == WithoutCarriageReturns(front);
        assert Step(before.cursor, last) == Progress([], before.cursor);
        assert before.calls + [] == before.calls;
        assert Run(text, start) == before;
      } else {
        var s := WithoutCarriageReturns(text);
        assert s[..|s| - 1] == WithoutCarriageReturns(front);
        assert s[|s| - 1] == last;
      }
    }
  }

  function WithoutCarriageReturns(text: seq<bv8>): (r: seq<bv8>)
    ensures |r| <= |text|
    ensures forall k :: 0 <= k < |r| ==> r[k] != CarriageReturn
    decreases |text|
  {
    if text == [] then []
    else
      var last := text[|text| - 1];
      WithoutCarriageReturns(text[..|text| - 1]) + (if last == CarriageReturn then [] else [last])
  }

  /** A newline at column 0 (for instance right at the start, or just after
      a wrap) changes nothing. */
  lemma NewlineAtColumnZero(text: seq<bv8>, start: Cursor)
    requires Run(text, start).cursor.pos == 0
    ensures Run(text + [LineFeed], start) == Run(text, start)
  {
    assert (text + [LineFeed])[..|text|] == text;
  }

  /** A newline after some characters moves to the next row, whichever it
      is: from row 3 it goes to row 4, which lcd_set_line rejects, and row 255
      is followed by row 0. */
  lemma NewlineAdvances(text: seq<bv8>, start: Cursor)
    requires Run(text, start).cursor.pos != 0
    ensures var before := Run(text, start);
      Run(text + [LineFeed], start) ==
        Progress(before.calls + [SetLineCall(before.cursor.line + 1)], Cursor(0, before.cursor.line + 1))
  {
    assert (text + [LineFeed])[..|text|] == text;
  }

  /** The calls lcd_print makes for characters that do not reach the wrap column. */
  function CharCalls(text: seq<bv8>): (r: seq<Call>)
    ensures |r| == 2 * |text|
    decreases |text|
  {
    if text == [] then []
    else CharCalls(text[..|text| - 1]) + [PutChar(text[|text| - 1]), Pause(CharacterDelay)]
  }

  predicate Plain(text: seq<bv8>)
  {
    forall k :: 0 <= k < |text| ==> text[k] != CarriageReturn && text[k] != LineFeed
  }

  /** Up to 19 ordinary characters from column 0 are written one after the
      other, each followed by the character delay, and the column counts them. */
  lemma {:induction false} ShortLine(text: seq<bv8>, line: bv8)
    requires Plain(text) && |text| < WrapWidth
    ensures Run(text, Cursor(0, line)) == Progress(CharCalls(text), Cursor(|text|, line))
    decreases |text|
  {
    if text != [] {
      ShortLine(text[..|text| - 1], line);
    }
  }

  /** The twentieth ordinary character wraps: to the next row (modulo 256,
      with no cap at 3), or, from row 3, back to row 0 after clearing it. */
  lemma FullLineWraps(text: seq<bv8>, line: bv8)
    requires Plain(text) && |text| == WrapWidth
    ensures Run(text, Cursor(0, line)) ==
      if line == BottomLine then
        Progress(CharCalls(text[..19]) + [PutChar(text[19]), ClearLineCall(0), Pause(CharacterDelay)], Cursor(0, 0))
      else
        Progress(CharCalls(text[..19]) + [PutChar(text[19]), SetLineCall(line + 1), Pause(CharacterDelay)], Cursor(0, line + 1))
  {
    ShortLine(text[..19], line);
  }

  /** Printing "AB" from row 0: the row is selected once, then two characters
      with their delays, and the column ends at 2. */
  lemma PrintTwoCharacters()
    ensures PrintCalls([0x41, 0x42], 0) ==
      [SetLineCall(0), PutChar(0x41), Pause(CharacterDelay), PutChar(0x42), Pause(CharacterDelay)]
    ensures Run([0x41, 0x42], Cursor(0, 0)).cursor == Cursor(2, 0)
  {
    ShortLine([0x41, 0x42], 0);
    assert [0x41, 0x42][..1] == [0x41 as bv8];
  }

  // ---------------------------------------------------------------------
  // The characters.

  lemma {:induction false} PrintedAppend(a: seq<Call>, b: seq<Call>)
    ensures Printed(a + b) == Printed(a) + Printed(b)
    decreases |a|
  {
    if a == [] {
      assert a + b == b;
    } else {
      assert (a + b)[0] == a[0];
      assert (a + b)[1..] == a[1..] + b;
      PrintedAppend(a[1..], b);
    }
  }

  /** lcd_print writes exactly the bytes of the text other than carriage
      returns and newlines, in order, each once. */
  lemma {:induction false} PrintsPrintable(text: seq<bv8>, start: Cursor)
    ensures Printed(Run(text, start).calls) == Printable(text)
    decreases |text|
  {
    if text != [] {
      var before := Run(text[..|text| - 1], start);
      var step := Step(before.cursor, text[|text| - 1]);
      PrintsPrintable(text[..|text| - 1], start);
      PrintedAppend(before.calls, step.calls);
      StepPrints(before.cursor, text[|text| - 1]);
    }
  }

  /** One byte prints itself, unless it is a carriage return or a newline. */
  lemma StepPrints(cur: Cursor, c: bv8)
    ensures Printed(Step(cur, c).calls) == if c == CarriageReturn || c == LineFeed then [] else [c]
  {
    var s := Step(cur, c).calls;
    if |s| == 3 {
      assert Printed(s[2..]) == [] by { assert s[2..][1..] == []; }
      assert Printed(s[1..]) == [] by { assert s[1..][1..] == s[2..]; }
    } else if |s| == 2 {
      assert Printed(s[1..]) == [] by { assert s[1..][1..] == []; }
    } else if |s| == 1 {
      assert s[1..] == [];
    }
  }

  // ---------------------------------------------------------------------
  // On the bus.

  lemma {:induction false} ExpandAppend(addr: bv8, bl: bv8, cols: bv8, a: seq<Call>, b: seq<Call>)
    requires Fits(cols, a + b)
    ensures Fits(cols, a) && Fits(cols, b)
    ensures Expand(addr, bl, cols, a + b) == Expand(addr, bl, cols, a) + Expand(addr, bl, cols, b)
    decreases |a|
  {
    FitsAppend(cols, a, b);
    if a == [] {
      assert a + b == b;
    } else {
      assert (a + b)[0] == a[0];
      assert (a + b)[1..] == a[1..] + b;
      ExpandAppend(addr, bl, cols, a[1..], b);
    }
  }

  lemma FitsAppend(cols: bv8, a: seq<Call>, b: seq<Call>)
    requires Fits(cols, a + b)
    ensures Fits(cols, a) && Fits(cols, b)
  {
    if cols as int > |EmptyCells()| {
      forall k | 0 <= k < |a| ensures !a[k].ClearLineCall? {
        assert a[k] == (a + b)[k];
      }
      forall k | 0 <= k < |b| ensures !b[k].ClearLineCall? {
        assert b[k] == (a + b)[|a| + k];
      }
    }
  }

  lemma FitsPrefix(cols: bv8, a: seq<Call>, b: seq<Call>)
    requires a <= b && Fits(cols, b)
    ensures Fits(cols, a)
  {
    FitsAppend(cols, a, b[|a|..]);
    assert a + b[|a|..] == b;
  }

  /** One more byte of text: the calls and cursor of the longer prefix. */
  lemma RunNext(text: seq<bv8>, i: nat, start: Cursor)
    requires i < |text|
    ensures Run(text[..i + 1], start).calls ==
      Run(text[..i], start).calls + Step(Run(text[..i], start).cursor, text[i]).calls
    ensures Run(text[..i + 1], start).cursor == Step(Run(text[..i], start).cursor, text[i]).cursor
  {
    assert text[..i + 1][..i] == text[..i];
  }

  /** Before one more byte of the text: the calls so far still fit, the
      byte's wrap stays inside the blank table, and the cursor moves as
      `Step` says. */
  lemma PrintNextFits(cols: bv8, text: seq<bv8>, line: bv8, i: nat)
    requires i < |text| && Fits(cols, PrintCalls(text, line))
    ensures Fits(cols, PrintCalls(text[..i], line))
    ensures ClearsTopRow(Run(text[..i], Cursor(0, line)).cursor, text[i]) ==> cols as int <= |EmptyCells()|
    ensures Run(text[..i + 1], Cursor(0, line)).cursor == Step(Run(text[..i], Cursor(0, line)).cursor, text[i]).cursor
  {
    PrintCallsNext(cols, text, line, i);
    ByteEventsExpand(0, 0, cols, Run(text[..i], Cursor(0, line)).cursor, text[i]);
  }

  /** The calls for one more byte of the text are those of the shorter
      prefix followed by that byte's, and all of them fit. */
  lemma PrintCallsNext(cols: bv8, text: seq<bv8>, line: bv8, i: nat)
    requires i < |text| && Fits(cols, PrintCalls(text, line))
    ensures PrintCalls(text[..i + 1], line) ==
      PrintCalls(text[..i], line) + Step(Run(text[..i], Cursor(0, line)).cursor, text[i]).calls
    ensures Run(text[..i + 1], Cursor(0, line)).cursor == Step(Run(text[..i], Cursor(0, line)).cursor, text[i]).cursor
    ensures Fits(cols, PrintCalls(text[..i + 1], line)) && Fits(cols, PrintCalls(text[..i], line))
    ensures Fits(cols, Step(Run(text[..i], Cursor(0, line)).cursor, text[i]).calls)
  {
    var start := Cursor(0, line);
    var step := Step(Run(text[..i], start).cursor, text[i]);
    RunNext(text, i, start);
    Assoc([SetLineCall(line)], Run(text[..i], start).calls, step.calls);
    RunPrefix(text, i + 1, start);
    FitsPrefix(cols, PrintCalls(text[..i + 1], line), PrintCalls(text, line));
    FitsAppend(cols, PrintCalls(text[..i], line), step.calls);
  }

  /** After one more byte: a trace holding the events of the calls for a
      prefix of the text followed by that byte's events holds the events of
      the calls for the longer prefix. */
  lemma PrintNext(addr: bv8, bl: bv8, cols: bv8, text: seq<bv8>, line: bv8, i: nat,
                  t0: seq<Event>, before: seq<Event>, after: seq<Event>)
    requires i < |text| && Fits(cols, PrintCalls(text, line))
    requires Fits(cols, PrintCalls(text[..i], line))
    requires ClearsTopRow(Run(text[..i], Cursor(0, line)).cursor, text[i]) ==> cols as int <= |EmptyCells()|
    requires before == t0 + Expand(addr, bl, cols, PrintCalls(text[..i], line))
    requires after == before + ByteEvents(addr, bl, cols, Run(text[..i], Cursor(0, line)).cursor, text[i])
    ensures Fits(cols, PrintCalls(text[..i + 1], line))
    ensures after == t0 + Expand(addr, bl, cols, PrintCalls(text[..i + 1], line))
  {
    var cur := Run(text[..i], Cursor(0, line)).cursor;
    PrintCallsNext(cols, text, line, i);
    ByteEventsExpand(addr, bl, cols, cur, text[i]);
    ExpandExtend(addr, bl, cols, t0, PrintCalls(text[..i], line), Step(cur, text[i]).calls, before, after);
  }

  /** A trace holding the events of `done` followed by those of `calls`
      holds the events of `done + calls`. */
  lemma ExpandExtend(addr: bv8, bl: bv8, cols: bv8, t0: seq<Event>, done: seq<Call>, calls: seq<Call>,
                     before: seq<Event>, after: seq<Event>)
    requires Fits(cols, done + calls)
    requires Fits(cols, done) && before == t0 + Expand(addr, bl, cols, done)
    requires Fits(cols, calls) && after == before + Expand(addr, bl, cols, calls)
    ensures after == t0 + Expand(addr, bl, cols, done + calls)
  {
    ExpandAppend(addr, bl, cols, done, calls);
    Extend(t0, Expand(addr, bl, cols, done), before, Expand(addr, bl, cols, calls), after);
  }

  /** A carriage return, or a newline at column 0, makes no call.  The
      `Step` equation is an unfolding aid for ByteEventsExpand; the events
      are the content. */
  lemma ExpandIgnored(addr: bv8, bl: bv8, cols: bv8, cur: Cursor, c: bv8)
    requires c == CarriageReturn || (c == LineFeed && cur.pos == 0)
    ensures Step(cur, c) == Progress([], cur)
    ensures Fits(cols, []) && Expand(addr, bl, cols, []) == []
  {
  }

  /** A newline after some characters selects the next row.  The `Step`
      equation is an unfolding aid; the events are the content. */
  lemma ExpandNewline(addr: bv8, bl: bv8, cols: bv8, cur: Cursor)
    requires cur.pos != 0
    ensures Step(cur, LineFeed) == Progress([SetLineCall(cur.line + 1)], Cursor(0, cur.line + 1))
    ensures Fits(cols, Step(cur, LineFeed).calls)
    ensures Expand(addr, bl, cols, Step(cur, LineFeed).calls) == SetLineEvents(addr, bl, cur.line + 1)
  {
    ExpandSingle(addr, bl, cols, SetLineCall(cur.line + 1));
  }

  /** A character before the wrap column: the character, then the delay.
      The `Step` equation is an unfolding aid; the events are the content. */
  lemma ExpandChar(addr: bv8, bl: bv8, cols: bv8, cur: Cursor, c: bv8)
    requires c != CarriageReturn && c != LineFeed && cur.pos != WrapWidth - 1
    ensures Step(cur, c) == Progress([PutChar(c), Pause(CharacterDelay)], Cursor(cur.pos + 1, cur.line))
    ensures Fits(cols, Step(cur, c).calls)
    ensures Expand(addr, bl, cols, Step(cur, c).calls) == WriteEvents(addr, bl, c, Rs) + [] + [Delay(CharacterDelay)]
  {
    assert Step(cur, c).calls == [PutChar(c), Pause(CharacterDelay)];
    ExpandTwo(addr, bl, cols, PutChar(c), Pause(CharacterDelay));
    assert WriteEvents(addr, bl, c, Rs) + [] == WriteEvents(addr, bl, c, Rs);
  }

  /** A character in the wrap column above the bottom row: the character,
      the next row, then the delay.  The `Step` equation is an unfolding aid;
      the events are the content. */
  lemma ExpandWrap(addr: bv8, bl: bv8, cols: bv8, cur: Cursor, c: bv8)
    requires c != CarriageReturn && c != LineFeed && cur.pos == WrapWidth - 1 && cur.line != BottomLine
    ensures Step(cur, c) ==
      Progress([PutChar(c), SetLineCall(cur.line + 1), Pause(CharacterDelay)], Cursor(0, cur.line + 1))
    ensures Fits(cols, Step(cur, c).calls)
    ensures Expand(addr, bl, cols, Step(cur, c).calls) ==
      WriteEvents(addr, bl, c, Rs) + SetLineEvents(addr, bl, cur.line + 1) + [Delay(CharacterDelay)]
  {
    assert Step(cur, c).calls == [PutChar(c), SetLineCall(cur.line + 1), Pause(CharacterDelay)];
    ExpandThree(addr, bl, cols, PutChar(c), SetLineCall(cur.line + 1), Pause(CharacterDelay));
  }

  /** A character in the wrap column of the bottom row: the character, the
      clearing of row 0, then the delay.  The `Step` equation is an unfolding
      aid; the events are the content. */
  lemma ExpandWrapBottom(addr: bv8, bl: bv8, cols: bv8, cur: Cursor, c: bv8)
    requires c != CarriageReturn && c != LineFeed && cur.pos == WrapWidth - 1 && cur.line == BottomLine
    requires Fits(cols, Step(cur, c).calls)
    ensures cols as int <= |EmptyCells()|
    ensures Step(cur, c) ==
      Progress([PutChar(c), ClearLineCall(0), Pause(CharacterDelay)], Cursor(0, 0))
    ensures Expand(addr, bl, cols, Step(cur, c).calls) ==
      WriteEvents(addr, bl, c, Rs) + ClearLineEvents(addr, bl, cols, 0) + [Delay(CharacterDelay)]
  {
    var calls := [PutChar(c), ClearLineCall(0), Pause(CharacterDelay)];
    assert Step(cur, c).calls == calls;
    assert calls[1].ClearLineCall?;
    ExpandThree(addr, bl, cols, PutChar(c), ClearLineCall(0), Pause(CharacterDelay));
  }

  /** The byte `c` at cursor `cur` is a character in the last column of the bottom row. */
  predicate ClearsTopRow(cur: Cursor, c: bv8)
  {
    c != CarriageReturn && c != LineFeed && cur.pos == WrapWidth - 1 && cur.line == BottomLine
  }

  /** The bus events of the wrap after a character at `cur`: none before the
      last column, row 0 cleared after the bottom row, else the next row. */
  function WrapEvents(addr: bv8, bl: bv8, cols: bv8, cur: Cursor): seq<Event>
    requires cur.pos == WrapWidth - 1 && cur.line == BottomLine ==> cols as int <= |EmptyCells()|
  {
    if cur.pos != WrapWidth - 1 then []
    else if cur.line == BottomLine then ClearLineEvents(addr, bl, cols, 0)
    else SetLineEvents(addr, bl, cur.line + 1)
  }

  /** The bus events of one pass of lcd_print's loop, branch by branch. */
  function ByteEvents(addr: bv8, bl: bv8, cols: bv8, cur: Cursor, c: bv8): seq<Event>
    requires ClearsTopRow(cur, c) ==> cols as int <= |EmptyCells()|
  {
    if c == CarriageReturn then []
    else if c == LineFeed then (if cur.pos != 0 then SetLineEvents(addr, bl, cur.line + 1) else [])
    else WriteEvents(addr, bl, c, Rs) + WrapEvents(addr, bl, cols, cur) + [Delay(CharacterDelay)]
  }

  /** The branches of one pass make exactly the events of the calls `Step` lists. */
  lemma ByteEventsExpand(addr: bv8, bl: bv8, cols: bv8, cur: Cursor, c: bv8)
    requires Fits(cols, Step(cur, c).calls)
    ensures ClearsTopRow(cur, c) ==> cols as int <= |EmptyCells()|
    ensures ByteEvents(addr, bl, cols, cur, c) == Expand(addr, bl, cols, Step(cur, c).calls)
  {
    if c == CarriageReturn || (c == LineFeed && cur.pos == 0) {
      ExpandIgnored(addr, bl, cols, cur, c);
    } else if c == LineFeed {
      ExpandNewline(addr, bl, cols, cur);
    } else if cur.pos != WrapWidth - 1 {
      ExpandChar(addr, bl, cols, cur, c);
    } else if cur.line == BottomLine {
      ExpandWrapBottom(addr, bl, cols, cur, c);
    } else {
      ExpandWrap(addr, bl, cols, cur, c);
    }
  }

  /** Sequences appended in either grouping. */
  lemma Assoc<T>(a: seq<T>, b: seq<T>, c: seq<T>)
    ensures a + (b + c) == a + b + c
  {
  }

  /** Three event lists appended one at a time, as one list. */
  lemma AppendThree(t: seq<Event>, e0: seq<Event>, e1: seq<Event>, e2: seq<Event>)
    ensures t + e0 + e1 + e2 == t + (e0 + e1 + e2)
  {
  }

  lemma ExpandSingle(addr: bv8, bl: bv8, cols: bv8, call: Call)
    requires call.ClearLineCall? ==> cols as int <= |EmptyCells()|
    ensures Fits(cols, [call])
    ensures Expand(addr, bl, cols, [call]) == CallEvents(addr, bl, cols, call)
  {
    assert [call][1..] == [];
  }

  /** The events of two calls, one after the other. */
  lemma ExpandTwo(addr: bv8, bl: bv8, cols: bv8, x: Call, y: Call)
    requires x.ClearLineCall? ==> cols as int <= |EmptyCells()|
    requires !y.ClearLineCall?
    ensures Fits(cols, [x, y])
    ensures Expand(addr, bl, cols, [x, y]) == CallEvents(addr, bl, cols, x) + CallEvents(addr, bl, cols, y)
  {
    assert [x, y][1..] == [y];
    ExpandSingle(addr, bl, cols, y);
  }

  /** The events of three calls, one after the other. */
  lemma ExpandThree(addr: bv8, bl: bv8, cols: bv8, x: Call, y: Call, z: Call)
    requires !x.ClearLineCall? && !z.ClearLineCall?
    requires y.ClearLineCall? ==> cols as int <= |EmptyCells()|
    ensures Fits(cols, [x, y, z])
    ensures Expand(addr, bl, cols, [x, y, z]) ==
      CallEvents(addr, bl, cols, x) + CallEvents(addr, bl, cols, y) + CallEvents(addr, bl, cols, z)
  {
    assert [x, y, z][1..] == [y, z];
    ExpandTwo(addr, bl, cols, y, z);
    Assoc(CallEvents(addr, bl, cols, x), CallEvents(addr, bl, cols, y), CallEvents(addr, bl, cols, z));
  }

  /** What one call delivers to the controller: a character call delivers
      that character as data, the others only instructions; every write goes
      to the stored address with the backlight bit. */
  lemma CallDelivers(addr: bv8, bl: Backlight, cols: bv8, call: Call)
    requires call.ClearLineCall? ==> cols as int <= |EmptyCells()|
    ensures |Latched(CallEvents(addr, bl, cols, call))| % 2 == 0
    ensures DataOf(Received(CallEvents(addr, bl, cols, call))) == if call.PutChar? then [call.c] else []
    ensures OnBus(CallEvents(addr, bl, cols, call), addr, bl)
  {
    match call
    case SetLineCall(line) =>
      SetLineRoundTrip(addr, bl, line);
      DataOfInstructions(Received(SetLineEvents(addr, bl, line)));
    case PutChar(c) =>
      WriteRoundTrip(addr, bl, c, Rs);
      WriteOnBus(addr, bl, c, Rs);
      assert DataOf([Transfer(true, c)]) == [c] by {
        assert [Transfer(true, c)][1..] == [];
      }
    case ClearLineCall(line) =>
      ClearLineDelivers(addr, bl, cols, line);
    case Pause(us) =>
      assert Latched([Delay(us)]) == [] by { assert [Delay(us)][1..] == []; }
  }

  /** lcd_clear_line sends no character data: its cells go out as instructions. */
  lemma ClearLineDelivers(addr: bv8, bl: Backlight, cols: bv8, line: bv8)
    requires cols as int <= |EmptyCells()|
    ensures |Latched(ClearLineEvents(addr, bl, cols, line))| % 2 == 0
    ensures DataOf(Received(ClearLineEvents(addr, bl, cols, line))) == []
    ensures OnBus(ClearLineEvents(addr, bl, cols, line), addr, bl)
  {
    ClearLineOnBus(addr, bl, cols, line);
    ClearLineWholeBytes(addr, bl, cols, line);
    ClearLineNoData(addr, bl, cols, line);
  }

  lemma ClearLineWholeBytes(addr: bv8, bl: Backlight, cols: bv8, line: bv8)
    requires cols as int <= |EmptyCells()|
    ensures |Latched(ClearLineEvents(addr, bl, cols, line))| % 2 == 0
  {
    ClearLineRoundTrip(addr, bl, cols, line);
    DoubleIsEven((if line < 4 then 1 else 0) + cols as int);
  }

  /** Kept apart so that the parity step is proved without the trace facts in scope. */
  lemma DoubleIsEven(m: int)
    ensures (2 * m) % 2 == 0
  {
  }

  lemma ClearLineNoData(addr: bv8, bl: Backlight, cols: bv8, line: bv8)
    requires cols as int <= |EmptyCells()|
    ensures DataOf(Received(ClearLineEvents(addr, bl, cols, line))) == []
  {
    ClearLineRoundTrip(addr, bl, cols, line);
    var t1 := Received(SetLineEvents(addr, bl, line));
    var t2 := Commands(EmptyCells()[..cols]);
    SetLineRoundTrip(addr, bl, line);
    DataOfInstructions(t1);
    DataOfInstructions(t2);
    DataOfAppend(t1, t2);
  }

  /** What a list of calls delivers: exactly its characters as data. */
  lemma {:induction false} ExpandDelivers(addr: bv8, bl: Backlight, cols: bv8, calls: seq<Call>)
    requires Fits(cols, calls)
    ensures DataOf(Received(Expand(addr, bl, cols, calls))) == Printed(calls)
    ensures OnBus(Expand(addr, bl, cols, calls), addr, bl)
    decreases |calls|
  {
    if calls != [] {
      var head := CallEvents(addr, bl, cols, calls[0]);
      var tail := Expand(addr, bl, cols, calls[1..]);
      CallDelivers(addr, bl, cols, calls[0]);
      ExpandDelivers(addr, bl, cols, calls[1..]);
      ReceivedAppend(head, tail);
      DataOfAppend(Received(head), Received(tail));
      OnBusAppend(head, tail, addr, bl);
    }
  }

  /** End to end: the data bytes the controller receives while lcd_print
      runs are exactly the text without carriage returns and newlines, and
      every write carries the stored address and the backlight bit. */
  lemma PrintDelivers(addr: bv8, bl: Backlight, cols: bv8, text: seq<bv8>, line: bv8)
    requires Fits(cols, PrintCalls(text, line))
    ensures DataOf(Received(Expand(addr, bl, cols, PrintCalls(text, line)))) == Printable(text)
    ensures OnBus(Expand(addr, bl, cols, PrintCalls(text, line)), addr, bl)
  {
    ExpandDelivers(addr, bl, cols, PrintCalls(text, line));
    PrintedAppend([SetLineCall(line)], Run(text, Cursor(0, line)).calls);
    assert Printed([SetLineCall(line)]) == [] by { assert [SetLineCall(line)][1..] == []; }
    PrintsPrintable(text, Cursor(0, line));
  }
}
