/** Bit layout, controller commands and bus encoding of the HD44780 driver
    in 4-bit mode behind an I2C backpack.

    The injected transport (init, write, delay) is modelled as a trace of
    events: every call the driver makes to it is one `Event`.  The functions
    here say which events each driver operation appends; the decoder at the
    end reassembles what a 4-bit-mode controller latches from those events. */
module LcdProtocol {

  datatype Option<T> = None | Some(value: T)

  // Control lines carried in the low nibble of every bus byte.
  const Rs: bv8 := 0x01  // register select: 0 = instruction, 1 = data
  const Rw: bv8 := 0x02  // read/write (never set: the driver only writes)
  const En: bv8 := 0x04  // enable; the controller latches on its falling edge

  // Values of the backlight field; OR'd into every byte sent.
  const BacklightOff: bv8 := 0x00
  const BacklightOn: bv8 := 0x08

  type Backlight = b: bv8 | b == BacklightOff || b == BacklightOn

  // Instructions.
  const CmdClear: bv8 := 0x01
  const CmdReturnHome: bv8 := 0x02
  const CmdEntryModeSet: bv8 := 0x04
  const CmdDisplayControl: bv8 := 0x08
  const CmdFunctionSet: bv8 := 0x20
  const CmdSetDdramAddr: bv8 := 0x80

  // Instruction flags the driver uses.
  const EntryLeft: bv8 := 0x02
  const DisplayOn: bv8 := 0x04
  const BlinkOn: bv8 := 0x01
  const FunctionSet4BitMode: bv8 := 0x00
  const FunctionSet2Line: bv8 := 0x08
  const FunctionSet5x8Dots: bv8 := 0x00

  // Microsecond values the driver passes to the delay function.
  const NibbleSetupDelay: nat := 100
  const CharacterDelay: nat := 75000
  const ClearCellDelay: nat := 1000

  /** One call of the injected transport, in the order the driver makes them. */
  datatype Event =
    | Init(addr: bv8)
    | Write(addr: bv8, value: bv8)
    | Delay(us: nat)

  /** lcd_strobe: `val` with EN raised, then `val` with EN cleared. */
  function StrobeEvents(addr: bv8, bl: bv8, val: bv8): seq<Event>
  {
    [Write(addr, val | En | bl), Write(addr, (val & !En) | bl)]
  }

  /** lcd_write4b: the nibble byte with the backlight bit, a setup delay, then the strobe. */
  function NibbleEvents(addr: bv8, bl: bv8, val: bv8): seq<Event>
  {
    var v := val | bl;
    [Write(addr, v), Delay(NibbleSetupDelay)] + StrobeEvents(addr, bl, v)
  }

  /** The nibble byte carrying the high half of `val`. */
  function HighNibble(val: bv8, mode: bv8): bv8
  {
    mode | (val & 0xF0)
  }

  /** The nibble byte carrying the low half of `val`. */
  function LowNibble(val: bv8, mode: bv8): bv8
  {
    mode | ((val << 4) & 0xF0)
  }

  /** lcd_write: high nibble, then low nibble. */
  function WriteEvents(addr: bv8, bl: bv8, val: bv8, mode: bv8): seq<Event>
  {
    NibbleEvents(addr, bl, HighNibble(val, mode)) + NibbleEvents(addr, bl, LowNibble(val, mode))
  }

  /** Instructions written as commands (mode 0), one after the other. */
  function CommandEvents(addr: bv8, bl: bv8, cmds: seq<bv8>): seq<Event>
    decreases |cmds|
  {
    if cmds == [] then []
    else CommandEvents(addr, bl, cmds[..|cmds| - 1]) + WriteEvents(addr, bl, cmds[|cmds| - 1], 0)
  }

  /** The instructions lcd_init issues after storing the geometry: the
      three-fold 0x3 handshake, the switch to 4-bit mode, then function set,
      display control, clear and entry mode. */
  const InitCommands: seq<bv8> := [
    0x3, 0x3, 0x3, 0x2,
    CmdFunctionSet | FunctionSet2Line | FunctionSet5x8Dots | FunctionSet4BitMode,
    CmdDisplayControl | DisplayOn | BlinkOn,
    CmdClear,
    CmdEntryModeSet | EntryLeft
  ]

  /** Everything lcd_init sends: the device init, then the instructions,
      all with the backlight on. */
  function InitEvents(addr: bv8): seq<Event>
  {
    [Init(addr)] + CommandEvents(addr, BacklightOn, InitCommands)
  }

  /** One more command appends its write to the events of the earlier ones. */
  lemma CommandsSnoc(addr: bv8, bl: bv8, cmds: seq<bv8>, c: bv8)
    ensures CommandEvents(addr, bl, cmds + [c]) == CommandEvents(addr, bl, cmds) + WriteEvents(addr, bl, c, 0)
  {
    assert (cmds + [c])[..|cmds|] == cmds;
  }

  /** Everything lcd_init sends, as the device init followed by its eight
      separate writes of the commands c0 .. c7 of InitCommands. */
  lemma InitEventsInOrder(addr: bv8, c0: bv8, c1: bv8, c2: bv8, c3: bv8, c4: bv8, c5: bv8, c6: bv8, c7: bv8)
    requires InitCommands == [c0, c1, c2, c3, c4, c5, c6, c7]
    ensures InitEvents(addr) ==
      [Init(addr)] + WriteEvents(addr, BacklightOn, c0, 0) + WriteEvents(addr, BacklightOn, c1, 0)
      + WriteEvents(addr, BacklightOn, c2, 0) + WriteEvents(addr, BacklightOn, c3, 0)
      + WriteEvents(addr, BacklightOn, c4, 0) + WriteEvents(addr, BacklightOn, c5, 0)
      + WriteEvents(addr, BacklightOn, c6, 0) + WriteEvents(addr, BacklightOn, c7, 0)
  {
    FirstFour(addr, c0, c1, c2, c3);
    LastFour(addr, [Init(addr)] + WriteEvents(addr, BacklightOn, c0, 0) + WriteEvents(addr, BacklightOn, c1, 0) + WriteEvents(addr, BacklightOn, c2, 0) + WriteEvents(addr, BacklightOn, c3, 0),
      c0, c1, c2, c3, c4, c5, c6, c7);
  }

  /** The init event and the first four commands, one write each. */
  lemma FirstFour(addr: bv8, c0: bv8, c1: bv8, c2: bv8, c3: bv8)
    ensures [Init(addr)] + WriteEvents(addr, BacklightOn, c0, 0) + WriteEvents(addr, BacklightOn, c1, 0) + WriteEvents(addr, BacklightOn, c2, 0) + WriteEvents(addr, BacklightOn, c3, 0)
      == [Init(addr)] + CommandEvents(addr, BacklightOn, [c0, c1, c2, c3])
  {
    var c: seq<bv8> := [];
    var e: seq<Event> := [Init(addr)];
    assert e == [Init(addr)] + CommandEvents(addr, BacklightOn, c);
    SentNext(addr, c, c0, e); c, e := c + [c0], e + WriteEvents(addr, BacklightOn, c0, 0);
    SentNext(addr, c, c1, e); c, e := c + [c1], e + WriteEvents(addr, BacklightOn, c1, 0);
    SentNext(addr, c, c2, e); c, e := c + [c2], e + WriteEvents(addr, BacklightOn, c2, 0);
    SentNext(addr, c, c3, e); c, e := c + [c3], e + WriteEvents(addr, BacklightOn, c3, 0);
    assert c == [c0, c1, c2, c3];
  }

  /** The last four commands of InitCommands after the first four. */
  lemma LastFour(addr: bv8, e: seq<Event>, c0: bv8, c1: bv8, c2: bv8, c3: bv8, c4: bv8, c5: bv8, c6: bv8, c7: bv8)
    requires e == [Init(addr)] + CommandEvents(addr, BacklightOn, [c0, c1, c2, c3])
    ensures e + WriteEvents(addr, BacklightOn, c4, 0) + WriteEvents(addr, BacklightOn, c5, 0) + WriteEvents(addr, BacklightOn, c6, 0) + WriteEvents(addr, BacklightOn, c7, 0)
      == [Init(addr)] + CommandEvents(addr, BacklightOn, [c0, c1, c2, c3, c4, c5, c6, c7])
  {
    var c: seq<bv8> := [c0, c1, c2, c3];
    var x := e;
    SentNext(addr, c, c4, x); c, x := c + [c4], x + WriteEvents(addr, BacklightOn, c4, 0);
    SentNext(addr, c, c5, x); c, x := c + [c5], x + WriteEvents(addr, BacklightOn, c5, 0);
    SentNext(addr, c, c6, x); c, x := c + [c6], x + WriteEvents(addr, BacklightOn, c6, 0);
    SentNext(addr, c, c7, x); c, x := c + [c7], x + WriteEvents(addr, BacklightOn, c7, 0);
    assert c == [c0, c1, c2, c3, c4, c5, c6, c7];
  }

  /** One step of InitEventsInOrder: the init event and the first commands,
      extended by the next command. */
  lemma SentNext(addr: bv8, c: seq<bv8>, cmd: bv8, e: seq<Event>)
    requires e == [Init(addr)] + CommandEvents(addr, BacklightOn, c)
    ensures e + WriteEvents(addr, BacklightOn, cmd, 0) == [Init(addr)] + CommandEvents(addr, BacklightOn, c + [cmd])
  {
    CommandsSnoc(addr, BacklightOn, c, cmd);
  }

  /** Appending `w` to a trace that is `t0 + s` gives `t0 + (s + w)`. */
  lemma Extend(t0: seq<Event>, s: seq<Event>, prev: seq<Event>, w: seq<Event>, cur: seq<Event>)
    requires prev == t0 + s && cur == prev + w
    ensures cur == t0 + (s + w)
  {
  }

  /** The set-DDRAM-address instruction lcd_set_line sends for a row;
      rows other than 0..3 have none. */
  function RowCommand(line: bv8): (r: Option<bv8>)
    ensures r.Some? <==> line < 4
    ensures r.Some? ==> r.value & CmdSetDdramAddr == CmdSetDdramAddr
    ensures r.Some? ==> (r.value & 0x7F) as int == RowStart(line as int)
  {
    if line == 0 then Some(0x80)
    else if line == 1 then Some(0xC0)
    else if line == 2 then Some(0x94)
    else if line == 3 then Some(0xD4)
    else None
  }

  /** The DDRAM address of the first cell of a row on a 20x4 display: odd
      rows start at 0x40, and rows 2 and 3 continue rows 0 and 1 after 20 cells. */
  function RowStart(row: int): int
  {
    (if row % 2 == 0 then 0x00 else 0x40) + (if row >= 2 then 20 else 0)
  }

  /** lcd_set_line: one command write for rows 0..3, nothing otherwise. */
  function SetLineEvents(addr: bv8, bl: bv8, line: bv8): seq<Event>
  {
    match RowCommand(line)
    case Some(cmd) => WriteEvents(addr, bl, cmd, 0)
    case None => []
  }

  /** The table lcd_clear_line writes from: twenty 0xFE cells and a 0x00. */
  function EmptyCells(): seq<bv8>
  {
    seq(21, EmptyCell)
  }

  /** Cell `i` of that table. */
  function EmptyCell(i: int): bv8
  {
    if i < 20 then 0xFE else 0x00
  }

  /** The clearing loop over `cells`: each cell a command write and a delay. */
  function ClearCellEvents(addr: bv8, bl: bv8, cells: seq<bv8>): seq<Event>
    decreases |cells|
  {
    if cells == [] then []
    else
      ClearCellEvents(addr, bl, cells[..|cells| - 1])
      + WriteEvents(addr, bl, cells[|cells| - 1], 0) + [Delay(ClearCellDelay)]
  }

  /** Clearing one more cell extends a trace holding the earlier cells. */
  lemma ClearCellSent(addr: bv8, bl: bv8, start: seq<Event>, cells: seq<bv8>, i: nat, before: seq<Event>, after: seq<Event>)
    requires i < |cells|
    requires before == start + ClearCellEvents(addr, bl, cells[..i])
    requires after == before + WriteEvents(addr, bl, cells[i], 0) + [Delay(ClearCellDelay)]
    ensures after == start + ClearCellEvents(addr, bl, cells[..i + 1])
  {
    assert cells[..i + 1][..i] == cells[..i];
  }

  /** lcd_clear_line: select the row, then `cols` cells of the table. */
  function ClearLineEvents(addr: bv8, bl: bv8, cols: bv8, line: bv8): seq<Event>
    requires cols as int <= |EmptyCells()|
  {
    SetLineEvents(addr, bl, line) + ClearCellEvents(addr, bl, EmptyCells()[..cols])
  }

  /** A trace holding the row selection followed by the cleared cells holds ClearLineEvents. */
  lemma ClearLineSent(addr: bv8, bl: bv8, cols: bv8, line: bv8, t0: seq<Event>, mid: seq<Event>, cur: seq<Event>)
    requires cols as int <= |EmptyCells()|
    requires mid == t0 + SetLineEvents(addr, bl, line)
    requires cur == mid + ClearCellEvents(addr, bl, EmptyCells()[..cols as int])
    ensures cur == t0 + ClearLineEvents(addr, bl, cols, line)
  {
    assert EmptyCells()[..cols] == EmptyCells()[..cols as int];
  }

  /** lcd_clear: clear display, then return home. */
  function ClearEvents(addr: bv8, bl: bv8): seq<Event>
  {
    WriteEvents(addr, bl, CmdClear, 0) + WriteEvents(addr, bl, CmdReturnHome, 0)
  }

  // ---------------------------------------------------------------------
  // What a 4-bit-mode controller receives.

  /** A byte as the controller sees it: an instruction (RS clear) or data (RS set). */
  datatype Transfer = Transfer(data: bool, value: bv8)

  /** The bytes on the bus while EN is high: one per strobe, the nibble the controller latches. */
  function Latched(events: seq<Event>): seq<bv8>
    decreases |events|
  {
    if events == [] then []
    else
      (if events[0].Write? && events[0].value & En != 0 then [events[0].value] else [])
      + Latched(events[1..])
  }

  /** Pairs latched nibbles into bytes, high half first. */
  function Assemble(nibbles: seq<bv8>): seq<Transfer>
    decreases |nibbles|
  {
    if |nibbles| < 2 then []
    else [Pair(nibbles[0], nibbles[1])] + Assemble(nibbles[2..])
  }

  /** The byte made of two latched nibbles; RS of the first says data or instruction. */
  function Pair(h: bv8, l: bv8): Transfer
  {
    Transfer(h & Rs != 0, (h & 0xF0) | (l >> 4))
  }

  function Received(events: seq<Event>): seq<Transfer>
  {
    Assemble(Latched(events))
  }

  /** Every write goes to `addr` and carries backlight bit `bl`. */
  predicate OnBus(events: seq<Event>, addr: bv8, bl: bv8)
  {
    forall k :: 0 <= k < |events| && events[k].Write? ==>
      events[k].addr == addr && events[k].value & BacklightOn == bl
  }

  // ---------------------------------------------------------------------
  // Properties of the encoding.

  /** lcd_write appends exactly six writes and two 100 µs delays: for each
      nibble byte v, v, then v with EN, then v again, with the delay after
      the first.  The high nibble goes first. */
  lemma WriteShape(addr: bv8, bl: Backlight, val: bv8, mode: bv8)
    requires mode == 0 || mode == Rs
    ensures
      var hi, lo := HighNibble(val, mode) | bl, LowNibble(val, mode) | bl;
      WriteEvents(addr, bl, val, mode) ==
        [Write(addr, hi), Delay(NibbleSetupDelay), Write(addr, hi | En), Write(addr, hi),
         Write(addr, lo), Delay(NibbleSetupDelay), Write(addr, lo | En), Write(addr, lo)]
  {
    NibbleShape(addr, bl, HighNibble(val, mode));
    NibbleShape(addr, bl, LowNibble(val, mode));
  }

  /** lcd_write4b with lcd_strobe, for a nibble byte without EN: the byte, the
      delay, the byte with EN, the byte again. */
  lemma NibbleShape(addr: bv8, bl: Backlight, v: bv8)
    requires v & En == 0
    ensures NibbleEvents(addr, bl, v) ==
      [Write(addr, v | bl), Delay(NibbleSetupDelay), Write(addr, v | bl | En), Write(addr, v | bl)]
  {
    assert (((v | bl) & !En) | bl) == v | bl;
    assert (v | bl) | En | bl == v | bl | En;
  }

  /** Flag bits of the six bytes of a lcd_write: every byte goes to the
      stored address, carries the backlight bit, has RS equal to the mode and
      RW clear, and has EN set exactly in the middle byte of each triple. */
  lemma WriteFlags(addr: bv8, bl: Backlight, val: bv8, mode: bv8)
    requires mode == 0 || mode == Rs
    ensures var e := WriteEvents(addr, bl, val, mode);
      |e| == 8 && e[1] == e[5] == Delay(NibbleSetupDelay) &&
      forall k :: 0 <= k < 8 && k != 1 && k != 5 ==>
        && e[k].Write?
        && e[k].addr == addr
        && e[k].value & BacklightOn == bl
        && e[k].value & Rs == mode
        && e[k].value & Rw == 0
        && (e[k].value & En != 0 <==> k == 2 || k == 6)
  {
    WriteShape(addr, bl, val, mode);
  }

  /** Round trip of lcd_write: the high nibbles of the first byte of each
      triple recombine to `val`. */
  lemma WriteNibblesRecombine(addr: bv8, bl: Backlight, val: bv8, mode: bv8)
    requires mode == 0 || mode == Rs
    ensures var e := WriteEvents(addr, bl, val, mode);
      |e| == 8 && e[0].Write? && e[4].Write? &&
      (e[0].value & 0xF0) | ((e[4].value & 0xF0) >> 4) == val
  {
    WriteShape(addr, bl, val, mode);
  }

  lemma {:induction false} LatchedAppend(a: seq<Event>, b: seq<Event>)
    ensures Latched(a + b) == Latched(a) + Latched(b)
    decreases |a|
  {
    if a == [] {
      assert a + b == b;
    } else {
      assert (a + b)[0] == a[0];
      assert (a + b)[1..] == a[1..] + b;
      LatchedAppend(a[1..], b);
    }
  }

  lemma {:induction false} AssembleAppend(a: seq<bv8>, b: seq<bv8>)
    requires |a| % 2 == 0
    ensures Assemble(a + b) == Assemble(a) + Assemble(b)
    decreases |a|
  {
    if a == [] {
      assert a + b == b;
    } else {
      assert (a + b)[0] == a[0] && (a + b)[1] == a[1];
      assert (a + b)[2..] == a[2..] + b;
      AssembleAppend(a[2..], b);
    }
  }

  /** Received distributes over a trace whose first part latched whole bytes. */
  lemma ReceivedAppend(a: seq<Event>, b: seq<Event>)
    requires |Latched(a)| % 2 == 0
    ensures Received(a + b) == Received(a) + Received(b)
  {
    LatchedAppend(a, b);
    AssembleAppend(Latched(a), Latched(b));
  }

  /** A nibble byte without EN is latched exactly once, with EN and the backlight bit. */
  lemma NibbleLatched(addr: bv8, bl: Backlight, v: bv8)
    requires v & En == 0
    ensures Latched(NibbleEvents(addr, bl, v)) == [v | bl | En]
  {
    var e := NibbleEvents(addr, bl, v);
    assert e[1..][1..][1..][1..] == [];
    assert Latched(e[1..][1..][1..]) == [];
    assert Latched(e[1..][1..]) == [v | bl | En];
  }

  /** Round trip of lcd_write: a 4-bit controller reassembles exactly one
      byte, `val`, as data when the mode is RS and as an instruction when it is 0. */
  lemma WriteRoundTrip(addr: bv8, bl: Backlight, val: bv8, mode: bv8)
    requires mode == 0 || mode == Rs
    ensures Received(WriteEvents(addr, bl, val, mode)) == [Transfer(mode == Rs, val)]
    ensures |Latched(WriteEvents(addr, bl, val, mode))| == 2
  {
    var hi, lo := HighNibble(val, mode), LowNibble(val, mode);
    NibbleLatched(addr, bl, hi);
    NibbleLatched(addr, bl, lo);
    LatchedAppend(NibbleEvents(addr, bl, hi), NibbleEvents(addr, bl, lo));
    var n := [hi | bl | En, lo | bl | En];
    assert Latched(WriteEvents(addr, bl, val, mode)) == n;
    NibblesRecombine(val, mode, bl);
    AssemblePair(n[0], n[1]);
  }

  /** The two latched nibble bytes of a byte write carry RS and `val`. */
  lemma NibblesRecombine(val: bv8, mode: bv8, bl: Backlight)
    requires mode == 0 || mode == Rs
    ensures var h, l := HighNibble(val, mode) | bl | En, LowNibble(val, mode) | bl | En;
      (h & Rs != 0) == (mode == Rs) && (h & 0xF0) | (l >> 4) == val
  {
  }

  lemma AssemblePair(h: bv8, l: bv8)
    ensures Assemble([h, l]) == [Transfer(h & Rs != 0, (h & 0xF0) | (l >> 4))]
  {
    assert [h, l][2..] == [];
  }

  /** The handshake steps of lcd_init go through the full byte write, so each
      sends two nibbles: 0x00 then 0x30 (or 0x00 then 0x20), not one. */
  lemma HandshakeSendsTwoNibbles(addr: bv8, bl: Backlight)
    ensures Latched(WriteEvents(addr, bl, 0x3, 0)) == [bl | En, 0x30 | bl | En]
    ensures Latched(WriteEvents(addr, bl, 0x2, 0)) == [bl | En, 0x20 | bl | En]
  {
    NibbleLatched(addr, bl, 0x00);
    NibbleLatched(addr, bl, 0x30);
    NibbleLatched(addr, bl, 0x20);
    LatchedAppend(NibbleEvents(addr, bl, 0x00), NibbleEvents(addr, bl, 0x30));
    LatchedAppend(NibbleEvents(addr, bl, 0x00), NibbleEvents(addr, bl, 0x20));
  }

  function Commands(cmds: seq<bv8>): (r: seq<Transfer>)
    ensures |r| == |cmds|
    ensures forall k :: 0 <= k < |cmds| ==> r[k] == Transfer(false, cmds[k])
    decreases |cmds|
  {
    if cmds == [] then [] else Commands(cmds[..|cmds| - 1]) + [Transfer(false, cmds[|cmds| - 1])]
  }

  /** A run of command writes is received as exactly those instructions, in order. */
  lemma {:induction false} CommandsRoundTrip(addr: bv8, bl: Backlight, cmds: seq<bv8>)
    ensures Received(CommandEvents(addr, bl, cmds)) == Commands(cmds)
    ensures |Latched(CommandEvents(addr, bl, cmds))| == 2 * |cmds|
    decreases |cmds|
  {
    if cmds != [] {
      var front := cmds[..|cmds| - 1];
      CommandsRoundTrip(addr, bl, front);
      WriteRoundTrip(addr, bl, cmds[|cmds| - 1], 0);
      ReceivedAppend(CommandEvents(addr, bl, front), WriteEvents(addr, bl, cmds[|cmds| - 1], 0));
      LatchedAppend(CommandEvents(addr, bl, front), WriteEvents(addr, bl, cmds[|cmds| - 1], 0));
    }
  }

  /** lcd_init calls the device init once, first, and a controller already
      in 4-bit mode then receives exactly the eight initialisation
      instructions in order.  A cold controller starts in 8-bit mode and takes
      the handshake pulses one by one; HandshakeSendsTwoNibbles states which
      nibbles those steps put on the bus. */
  lemma InitSequence(addr: bv8)
    ensures InitEvents(addr)[0] == Init(addr)
    ensures forall k :: 1 <= k < |InitEvents(addr)| ==> !InitEvents(addr)[k].Init?
    ensures Received(InitEvents(addr)) ==
      [Transfer(false, 0x03), Transfer(false, 0x03), Transfer(false, 0x03), Transfer(false, 0x02),
       Transfer(false, 0x28), Transfer(false, 0x0D), Transfer(false, 0x01), Transfer(false, 0x06)]
    ensures OnBus(InitEvents(addr), addr, BacklightOn)
  {
    var body := CommandEvents(addr, BacklightOn, InitCommands);
    CommandsRoundTrip(addr, BacklightOn, InitCommands);
    ReceivedAppend([Init(addr)], body);
    assert Latched([Init(addr)]) == [];
    CommandsOnBus(addr, BacklightOn, InitCommands);
    CommandsHaveNoInit(addr, BacklightOn, InitCommands);
  }

  lemma WriteOnBus(addr: bv8, bl: Backlight, val: bv8, mode: bv8)
    requires mode == 0 || mode == Rs
    ensures OnBus(WriteEvents(addr, bl, val, mode), addr, bl)
    ensures forall k :: 0 <= k < |WriteEvents(addr, bl, val, mode)| ==> !WriteEvents(addr, bl, val, mode)[k].Init?
  {
    WriteFlags(addr, bl, val, mode);
  }

  lemma OnBusAppend(a: seq<Event>, b: seq<Event>, addr: bv8, bl: bv8)
    requires OnBus(a, addr, bl) && OnBus(b, addr, bl)
    ensures OnBus(a + b, addr, bl)
  {
    forall k | 0 <= k < |a + b| && (a + b)[k].Write?
      ensures (a + b)[k].addr == addr && (a + b)[k].value & BacklightOn == bl
    {
      if k >= |a| { assert (a + b)[k] == b[k - |a|]; }
    }
  }

  lemma {:induction false} CommandsOnBus(addr: bv8, bl: Backlight, cmds: seq<bv8>)
    ensures OnBus(CommandEvents(addr, bl, cmds), addr, bl)
    decreases |cmds|
  {
    if cmds != [] {
      CommandsOnBus(addr, bl, cmds[..|cmds| - 1]);
      WriteOnBus(addr, bl, cmds[|cmds| - 1], 0);
      OnBusAppend(CommandEvents(addr, bl, cmds[..|cmds| - 1]), WriteEvents(addr, bl, cmds[|cmds| - 1], 0), addr, bl);
    }
  }

  lemma {:induction false} CommandsHaveNoInit(addr: bv8, bl: Backlight, cmds: seq<bv8>)
    ensures forall k :: 0 <= k < |CommandEvents(addr, bl, cmds)| ==> !CommandEvents(addr, bl, cmds)[k].Init?
    decreases |cmds|
  {
    if cmds != [] {
      var front := cmds[..|cmds| - 1];
      CommandsHaveNoInit(addr, bl, front);
      WriteOnBus(addr, bl, cmds[|cmds| - 1], 0);
      var a: seq<Event> := CommandEvents(addr, bl, front);
      var b: seq<Event> := WriteEvents(addr, bl, cmds[|cmds| - 1], 0);
      forall k | 0 <= k < |a + b| ensures !(a + b)[k].Init? {
        if k >= |a| { assert (a + b)[k] == b[k - |a|]; }
      }
    }
  }

  /** lcd_set_line: rows 0..3 reach the controller as exactly one
      instruction (0x80, 0xC0, 0x94, 0xD4); any other row sends nothing. */
  lemma SetLineRoundTrip(addr: bv8, bl: Backlight, line: bv8)
    ensures Received(SetLineEvents(addr, bl, line)) ==
      if line == 0 then [Transfer(false, 0x80)]
      else if line == 1 then [Transfer(false, 0xC0)]
      else if line == 2 then [Transfer(false, 0x94)]
      else if line == 3 then [Transfer(false, 0xD4)]
      else []
    ensures line >= 4 ==> SetLineEvents(addr, bl, line) == []
    ensures |Latched(SetLineEvents(addr, bl, line))| == if line < 4 then 2 else 0
    ensures OnBus(SetLineEvents(addr, bl, line), addr, bl)
  {
    match RowCommand(line)
    case Some(cmd) =>
      WriteRoundTrip(addr, bl, cmd, 0);
      WriteOnBus(addr, bl, cmd, 0);
    case None =>
  }

  /** The clearing loop: the controller receives the cells as instructions,
      not as characters. */
  lemma {:induction false} ClearCellsRoundTrip(addr: bv8, bl: Backlight, cells: seq<bv8>)
    ensures Received(ClearCellEvents(addr, bl, cells)) == Commands(cells)
    ensures |Latched(ClearCellEvents(addr, bl, cells))| == 2 * |cells|
    decreases |cells|
  {
    if cells != [] {
      var front, last := cells[..|cells| - 1], cells[|cells| - 1];
      var a := ClearCellEvents(addr, bl, front);
      var w := WriteEvents(addr, bl, last, 0);
      var d := [Delay(ClearCellDelay)];
      ClearCellsRoundTrip(addr, bl, front);
      WriteRoundTrip(addr, bl, last, 0);
      ReceivedAppend(a, w);
      LatchedAppend(a, w);
      assert Latched(d) == [] by { assert d[1..] == []; }
      ReceivedAppend(a + w, d);
      LatchedAppend(a + w, d);
    }
  }

  /** One 1000 µs delay per cleared cell, and every cell write carries the
      stored address and backlight bit. */
  lemma {:induction false} ClearCellsTiming(addr: bv8, bl: Backlight, cells: seq<bv8>)
    ensures Delays(ClearCellEvents(addr, bl, cells), ClearCellDelay) == |cells|
    ensures OnBus(ClearCellEvents(addr, bl, cells), addr, bl)
    decreases |cells|
  {
    if cells != [] {
      var front, last := cells[..|cells| - 1], cells[|cells| - 1];
      var a := ClearCellEvents(addr, bl, front);
      var w := WriteEvents(addr, bl, last, 0);
      var d := [Delay(ClearCellDelay)];
      ClearCellsTiming(addr, bl, front);
      WriteShape(addr, bl, last, 0);
      WriteOnBus(addr, bl, last, 0);
      DelaysAppend(a, w, ClearCellDelay);
      DelaysAppend(a + w, d, ClearCellDelay);
      assert Delays(w, ClearCellDelay) == 0 by { NoLongDelays(w); }
      assert Delays(d, ClearCellDelay) == 1 by { assert d[1..] == []; }
      OnBusAppend(a, w, addr, bl);
      OnBusAppend(a + w, d, addr, bl);
    }
  }

  /** The number of delays of `us` microseconds in a trace. */
  function Delays(events: seq<Event>, us: nat): nat
    decreases |events|
  {
    if events == [] then 0
    else (if events[0] == Delay(us) then 1 else 0) + Delays(events[1..], us)
  }

  lemma {:induction false} DelaysAppend(a: seq<Event>, b: seq<Event>, us: nat)
    ensures Delays(a + b, us) == Delays(a, us) + Delays(b, us)
    decreases |a|
  {
    if a == [] {
      assert a + b == b;
    } else {
      assert (a + b)[0] == a[0];
      assert (a + b)[1..] == a[1..] + b;
      DelaysAppend(a[1..], b, us);
    }
  }

  /** The only delays a byte write makes are the 100 µs setup delays. */
  lemma NoLongDelays(e: seq<Event>)
    requires forall k :: 0 <= k < |e| && e[k].Delay? ==> e[k].us == NibbleSetupDelay
    ensures forall us: nat :: us != NibbleSetupDelay ==> Delays(e, us) == 0
    decreases |e|
  {
    if e != [] {
      NoLongDelays(e[1..]);
    }
  }

  /** lcd_clear_line: the row is selected (when it exists) and then `cols`
      table entries are sent as instructions, each followed by a 1000 µs delay. */
  lemma ClearLineRoundTrip(addr: bv8, bl: Backlight, cols: bv8, line: bv8)
    requires cols as int <= |EmptyCells()|
    ensures Received(ClearLineEvents(addr, bl, cols, line)) ==
      Received(SetLineEvents(addr, bl, line)) + Commands(EmptyCells()[..cols])
    ensures |Latched(ClearLineEvents(addr, bl, cols, line))| == (if line < 4 then 2 else 0) + 2 * cols as int
  {
    var cells := EmptyCells()[..cols];
    assert |cells| == cols as int;
    var s, c := SetLineEvents(addr, bl, line), ClearCellEvents(addr, bl, cells);
    SetLineRoundTrip(addr, bl, line);
    ClearCellsRoundTrip(addr, bl, EmptyCells()[..cols]);
    ReceivedAppend(s, c);
    LatchedAppend(s, c);
  }

  /** Every write of lcd_clear_line carries the stored address and backlight bit. */
  lemma ClearLineOnBus(addr: bv8, bl: Backlight, cols: bv8, line: bv8)
    requires cols as int <= |EmptyCells()|
    ensures OnBus(ClearLineEvents(addr, bl, cols, line), addr, bl)
  {
    SetLineRoundTrip(addr, bl, line);
    ClearCellsTiming(addr, bl, EmptyCells()[..cols]);
    OnBusAppend(SetLineEvents(addr, bl, line), ClearCellEvents(addr, bl, EmptyCells()[..cols]), addr, bl);
  }

  /** lcd_clear: the controller receives clear display, then return home. */
  lemma ClearRoundTrip(addr: bv8, bl: Backlight)
    ensures Received(ClearEvents(addr, bl)) == [Transfer(false, CmdClear), Transfer(false, CmdReturnHome)]
    ensures OnBus(ClearEvents(addr, bl), addr, bl)
  {
    WriteRoundTrip(addr, bl, CmdClear, 0);
    WriteRoundTrip(addr, bl, CmdReturnHome, 0);
    ReceivedAppend(WriteEvents(addr, bl, CmdClear, 0), WriteEvents(addr, bl, CmdReturnHome, 0));
    WriteOnBus(addr, bl, CmdClear, 0);
    WriteOnBus(addr, bl, CmdReturnHome, 0);
    OnBusAppend(WriteEvents(addr, bl, CmdClear, 0), WriteEvents(addr, bl, CmdReturnHome, 0), addr, bl);
  }

  /** The data bytes (RS set) among received bytes, in order. */
  function DataOf(t: seq<Transfer>): seq<bv8>
    decreases |t|
  {
    if t == [] then []
    else (if t[0].data then [t[0].value] else []) + DataOf(t[1..])
  }

  lemma {:induction false} DataOfAppend(a: seq<Transfer>, b: seq<Transfer>)
    ensures DataOf(a + b) == DataOf(a) + DataOf(b)
    decreases |a|
  {
    if a == [] {
      assert a + b == b;
    } else {
      assert (a + b)[0] == a[0];
      assert (a + b)[1..] == a[1..] + b;
      DataOfAppend(a[1..], b);
    }
  }

  /** Instructions carry no data. */
  lemma {:induction false} DataOfInstructions(t: seq<Transfer>)
    requires forall k :: 0 <= k < |t| ==> !t[k].data
    ensures DataOf(t) == []
    decreases |t|
  {
    if t != [] {
      DataOfInstructions(t[1..]);
    }
  }
}
