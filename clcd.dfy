// The HD44780 character LCD driver of stm32lib/clcd.c, in 4-bit mode.
//
// Every byte goes out as a level on RS followed by two nibbles, each
// nibble being four data-line levels (D7..D4) and an E strobe. The driver
// object records the writes it makes in order (the all-lines-low reset,
// bare wake-up nibbles, whole bytes); Render turns that record into the
// line levels, and reading the levels back recovers the bytes. The delays
// between writes are left out. The driver's option bytes (display
// function, display control, entry mode, rows and columns) are fields of
// the object.

module Clcd {
  import opened Ints

  // Commands
  const CLEARDISPLAY: bv8 := 0x01
  const RETURNHOME: bv8 := 0x02
  const ENTRYMODESET: bv8 := 0x04
  const DISPLAYCONTROL: bv8 := 0x08
  const CURSORSHIFT: bv8 := 0x10
  const FUNCTIONSET: bv8 := 0x20
  const SETDDRAMADDR: bv8 := 0x80

  // Entry mode flags
  const ENTRYLEFT: bv8 := 0x02
  const ENTRYSHIFTINCREMENT: bv8 := 0x01

  // Display control flags
  const DISPLAYON: bv8 := 0x04
  const CURSORON: bv8 := 0x02
  const BLINKON: bv8 := 0x01

  // Cursor/display shift flags
  const DISPLAYMOVE: bv8 := 0x08
  const MOVERIGHT: bv8 := 0x04

  // Function set flags
  const TWOLINE: bv8 := 0x08

  const NEWLINE: bv8 := 0x0A

  /** The six signal lines the driver drives. */
  datatype Line = RS | E | D4 | D5 | D6 | D7

  /** One gpio_write: a line set high or low. */
  datatype Event = Drive(line: Line, high: bool)

  /** One byte written through write_command (RS low) or write_data (RS high). */
  datatype Transfer = Cmd(b: bv8) | Dat(b: bv8)

  /** write4bit: D7, D6, D5, D4 from bits 3..0, then the enable strobe low-high-low. */
  function Nibble(n: bv8): (ev: seq<Event>)
    ensures |ev| == 7
  {
    [ Drive(D7, (n >> 3) & 1 != 0), Drive(D6, (n >> 2) & 1 != 0),
      Drive(D5, (n >> 1) & 1 != 0), Drive(D4, n & 1 != 0),
      Drive(E, false), Drive(E, true), Drive(E, false) ]
  }

  /** write_command / write_data: RS, then the high nibble, then the low nibble. */
  function Wire(t: Transfer): (ev: seq<Event>)
    ensures |ev| == 15
  {
    [Drive(RS, t.Dat?)] + Nibble(t.b >> 4) + Nibble(t.b & 0x0F)
  }

  /** What the driver writes: all lines low, a bare nibble (initialisation only), a byte. */
  datatype Op = Reset | Wake(n: bv8) | Byte(t: Transfer)

  /** The line levels of one write. */
  function Levels(op: Op): seq<Event>
  {
    match op
    case Reset =>
      [Drive(RS, false), Drive(E, false), Drive(D4, false), Drive(D5, false), Drive(D6, false), Drive(D7, false)]
    case Wake(n) => Nibble(n)
    case Byte(t) => Wire(t)
  }

  /** The line levels of a record of writes. */
  function Render(ops: seq<Op>): seq<Event>
  {
    if ops == [] then [] else Render(ops[..|ops| - 1]) + Levels(ops[|ops| - 1])
  }

  /** Bytes as writes. */
  function Bytes(ts: seq<Transfer>): (ops: seq<Op>)
    ensures |ops| == |ts|
    ensures forall k | 0 <= k < |ts| :: ops[k] == Byte(ts[k])
  {
    seq(|ts|, k requires 0 <= k < |ts| => Byte(ts[k]))
  }

  /** The line levels of a sequence of byte transfers. */
  function Wires(ts: seq<Transfer>): (ev: seq<Event>)
    ensures |ev| == 15 * |ts|
  {
    if ts == [] then [] else Wire(ts[0]) + Wires(ts[1..])
  }

  /** A record of bytes renders to the wires of those bytes. */
  lemma {:induction false} RenderBytes(ts: seq<Transfer>)
    ensures Render(Bytes(ts)) == Wires(ts)
  {
    if ts != [] {
      var n := |ts| - 1;
      assert Bytes(ts)[..n] == Bytes(ts[..n]);
      RenderBytes(ts[..n]);
      WiresAppend(ts[..n], [ts[n]]);
      assert ts[..n] + [ts[n]] == ts;
      assert Wires([ts[n]]) == Wire(ts[n]) + Wires([]);
    }
  }

  /** The nibble a receiver latches from seven events, if they have the shape of a nibble write. */
  function ReadNibble(ev: seq<Event>): Option<bv8>
    requires |ev| == 7
  {
    if ev[0].line == D7 && ev[1].line == D6 && ev[2].line == D5 && ev[3].line == D4
       && ev[4..] == [Drive(E, false), Drive(E, true), Drive(E, false)]
    then Some((if ev[0].high then 8 else 0) | (if ev[1].high then 4 else 0)
              | (if ev[2].high then 2 else 0) | (if ev[3].high then 1 else 0))
    else None
  }

  /** A receiver's view of the lines: RS selects command or data, two nibbles make the byte. */
  function ReadTransfers(ev: seq<Event>): Option<seq<Transfer>>
    decreases |ev|
  {
    if ev == [] then Some([])
    else if |ev| < 15 || ev[0].line != RS then None
    else match (ReadNibble(ev[1..8]), ReadNibble(ev[8..15]), ReadTransfers(ev[15..]))
      case (Some(hi), Some(lo), Some(rest)) =>
        var b := (hi << 4) | lo;
        Some([if ev[0].high then Dat(b) else Cmd(b)] + rest)
      case _ => None
  }

  /** A nibble written is the nibble read: D7..D4 carry bits 3..0. */
  lemma NibbleRoundTrip(n: bv8)
    requires n < 16
    ensures ReadNibble(Nibble(n)) == Some(n)
  {
  }

  /** High nibble then low nibble recombine to the byte. */
  lemma NibblesRecombine(b: bv8)
    ensures ((b >> 4) << 4) | (b & 0x0F) == b
  {
  }

  /** The levels of one byte, followed by anything readable, read back as that byte first. */
  lemma WireRead(t: Transfer, rest: seq<Event>, r: seq<Transfer>)
    requires ReadTransfers(rest) == Some(r)
    ensures ReadTransfers(Wire(t) + rest) == Some([t] + r)
  {
    var ev := Wire(t) + rest;
    assert ev[15..] == rest;
    assert ev[1..8] == Nibble(t.b >> 4);
    assert ev[8..15] == Nibble(t.b & 0x0F);
    NibbleRoundTrip(t.b >> 4);
    NibbleRoundTrip(t.b & 0x0F);
    NibblesRecombine(t.b);
    assert ev[0] == Drive(RS, t.Dat?);
  }

  /** The line trace of any transfer sequence reads back as that sequence, with its RS kind. */
  lemma {:induction false} WiresRoundTrip(ts: seq<Transfer>)
    ensures ReadTransfers(Wires(ts)) == Some(ts)
  {
    if ts != [] {
      WiresRoundTrip(ts[1..]);
      WireRead(ts[0], Wires(ts[1..]), ts[1..]);
      assert [ts[0]] + ts[1..] == ts;
    }
  }

  lemma {:induction false} WiresAppend(a: seq<Transfer>, b: seq<Transfer>)
    ensures Wires(a + b) == Wires(a) + Wires(b)
  {
    if a == [] {
      assert a + b == b;
    } else {
      assert (a + b)[1..] == a[1..] + b;
      WiresAppend(a[1..], b);
    }
  }

  /** An option byte with one flag set or cleared. */
  function WithFlag(v: bv8, flag: bv8, on: bool): bv8
  {
    if on then v | flag else v & !flag
  }

  /** Setting or clearing a flag decides that flag and preserves every other bit. */
  lemma FlagOnly(v: bv8, flag: bv8, on: bool)
    ensures WithFlag(v, flag, on) & flag == (if on then flag else 0)
    ensures WithFlag(v, flag, on) & !flag == v & !flag
  {
  }

  /** Setting a flag to the value it already has changes nothing: the setters are idempotent. */
  lemma FlagIdempotent(v: bv8, flag: bv8, on: bool)
    ensures WithFlag(WithFlag(v, flag, on), flag, on) == WithFlag(v, flag, on)
  {
  }

  /** The row set_cursor actually uses: the requested row, or the last row if past it. */
  function ClampRow(row: bv8, rows: bv8): (r: bv8)
    requires rows >= 1
    ensures r < rows
    ensures r == row || (row >= rows && r == rows - 1)
  {
    if row >= rows then rows - 1 else row
  }

  /** row_offsets: the DDRAM address of the first column of each of the four rows. */
  function RowOffset(row: bv8): bv8
    requires row < 4
  {
    if row == 0 then 0x00 else if row == 1 then 0x40 else if row == 2 then 0x14 else 0x54
  }

  /** set_cursor's row argument stays inside the four-entry offset table. */
  predicate CursorOk(row: bv8, rows: bv8)
  {
    rows >= 1 && ClampRow(row, rows) < 4
  }

  /** The command set_cursor sends: SETDDRAMADDR with the column added to the row's offset. */
  function CursorCommand(col: bv8, row: bv8, rows: bv8): bv8
    requires CursorOk(row, rows)
  {
    SETDDRAMADDR | (col + RowOffset(ClampRow(row, rows)))
  }

  /** On a 20-column display of up to four rows, distinct positions get distinct addresses. */
  lemma CursorInjective(c1: bv8, r1: bv8, c2: bv8, r2: bv8, rows: bv8)
    requires 1 <= rows <= 4 && c1 < 20 && c2 < 20 && r1 < rows && r2 < rows
    requires CursorCommand(c1, r1, rows) == CursorCommand(c2, r2, rows)
    ensures c1 == c2 && r1 == r2
  {
  }

  /** The newlines in a string, counted in an unsigned char. */
  function Lines(s: seq<bv8>): bv8
  {
    if s == [] then 0 else Lines(s[..|s| - 1]) + (if s[|s| - 1] == NEWLINE then 1 else 0)
  }

  /** clcd_message: each newline moves the cursor to the start column of the next line, any other byte is data. */
  function MessageTransfers(s: seq<bv8>, col: bv8, rows: bv8): (ts: seq<Transfer>)
    requires 1 <= rows <= 4
    ensures |ts| == |s|
  {
    if s == [] then []
    else
      var init, c := s[..|s| - 1], s[|s| - 1];
      MessageTransfers(init, col, rows)
      + (if c == NEWLINE then [Cmd(CursorCommand(col, Lines(init) + 1, rows))] else [Dat(c)])
  }

  /**
   * Transfer k of a message is data byte s[k] unless s[k] is a newline, in
   * which case it is the cursor command for the line after the newlines
   * seen before it. So no newline is ever sent as data.
   */
  lemma {:induction false} MessageAt(s: seq<bv8>, col: bv8, rows: bv8, k: nat)
    requires 1 <= rows <= 4 && k < |s|
    ensures MessageTransfers(s, col, rows)[k] ==
      if s[k] == NEWLINE then Cmd(CursorCommand(col, Lines(s[..k]) + 1, rows)) else Dat(s[k])
  {
    var init := s[..|s| - 1];
    if k < |s| - 1 {
      MessageAt(init, col, rows, k);
      assert init[k] == s[k] && init[..k] == s[..k];
    } else {
      assert init == s[..k];
    }
  }

  /** The message of one more byte: the line count and the transfers each grow by that byte's part. */
  lemma MessageSnoc(s: seq<bv8>, i: nat, col: bv8, rows: bv8)
    requires 1 <= rows <= 4 && i < |s|
    ensures Lines(s[..i + 1]) == Lines(s[..i]) + (if s[i] == NEWLINE then 1 else 0)
    ensures MessageTransfers(s[..i + 1], col, rows) == MessageTransfers(s[..i], col, rows)
      + (if s[i] == NEWLINE then [Cmd(CursorCommand(col, Lines(s[..i]) + 1, rows))] else [Dat(s[i])])
  {
    assert s[..i + 1][..i] == s[..i];
  }

  lemma BytesSnoc(ts: seq<Transfer>, ts': seq<Transfer>)
    requires |ts'| == |ts| + 1 && ts'[..|ts|] == ts
    ensures Bytes(ts') == Bytes(ts) + [Byte(ts'[|ts|])]
  {
  }

  /** The data bytes of a message are its non-newline bytes, in order. */
  function DataBytes(ts: seq<Transfer>): seq<bv8>
  {
    if ts == [] then [] else DataBytes(ts[..|ts| - 1]) + (if ts[|ts| - 1].Dat? then [ts[|ts| - 1].b] else [])
  }

  function Printable(s: seq<bv8>): seq<bv8>
  {
    if s == [] then [] else Printable(s[..|s| - 1]) + (if s[|s| - 1] != NEWLINE then [s[|s| - 1]] else [])
  }

  lemma {:induction false} MessageData(s: seq<bv8>, col: bv8, rows: bv8)
    requires 1 <= rows <= 4
    ensures DataBytes(MessageTransfers(s, col, rows)) == Printable(s)
  {
    if s != [] {
      var ts := MessageTransfers(s, col, rows);
      assert ts[..|ts| - 1] == MessageTransfers(s[..|s| - 1], col, rows);
      MessageData(s[..|s| - 1], col, rows);
    }
  }

  /** The fixed part of clcd_init: all lines low, then the 4-bit wake-up nibbles 3, 3, 3, 2. */
  const WAKEUP: seq<Op> := [Reset, Wake(0x03), Wake(0x03), Wake(0x03), Wake(0x02)]

  /** The display function clcd_init chooses: 4-bit, 5x8 dots, two lines when there is more than one row. */
  function InitFunction(rows: bv8): bv8
  {
    if rows > 1 then TWOLINE else 0x00
  }

  /** The driver state (clcd_options) and the writes made so far. */
  class Lcd {
    var displaycontrol: bv8
    var displayfunction: bv8
    var displaymode: bv8
    var rows: bv8
    var cols: bv8
    var ops: seq<Op>

    /** The options struct is static storage, so it starts zeroed. */
    constructor()
      ensures displaycontrol == 0 && displayfunction == 0 && displaymode == 0 && rows == 0 && cols == 0
      ensures ops == []
    {
      displaycontrol, displayfunction, displaymode, rows, cols := 0, 0, 0, 0, 0;
      ops := [];
    }

    /** clcd_write_command / clcd_write_data. */
    method Send(t: Transfer)
      modifies this`ops
      ensures ops == old(ops) + [Byte(t)]
    {
      ops := ops + [Byte(t)];
    }

    /**
     * clcd_init: store the size, wake the controller into 4-bit mode, then
     * set function, display control and entry mode and clear the display.
     */
    method Init(cols: bv8, rows: bv8)
      modifies this
      ensures this.rows == rows && this.cols == cols
      ensures displayfunction == (if rows > 1 then 0x08 else 0x00)
      ensures displaycontrol == 0x04 && displaymode == 0x02
      ensures ops == old(ops) + WAKEUP
        + [Byte(Cmd(0x20 | displayfunction)), Byte(Cmd(0x0C)), Byte(Cmd(0x06)), Byte(Cmd(0x01))]
    {
      this.rows, this.cols := rows, cols;
      ops := ops + WAKEUP;
      displayfunction := InitFunction(rows);
      Send(Cmd(FUNCTIONSET | displayfunction));
      displaycontrol := DISPLAYON;
      Send(Cmd(DISPLAYCONTROL | displaycontrol));
      displaymode := ENTRYLEFT;
      Send(Cmd(ENTRYMODESET | displaymode));
      Clear();
    }

    /** clcd_clear. */
    method Clear()
      modifies this`ops
      ensures ops == old(ops) + [Byte(Cmd(0x01))]
    {
      Send(Cmd(CLEARDISPLAY));
    }

    /** clcd_home. */
    method Home()
      modifies this`ops
      ensures ops == old(ops) + [Byte(Cmd(0x02))]
    {
      Send(Cmd(RETURNHOME));
    }

    /** clcd_set_cursor: the row is clamped to the last row before the table lookup. */
    method SetCursor(col: bv8, row: bv8)
      requires CursorOk(row, rows)
      modifies this`ops
      ensures ops == old(ops) + [Byte(Cmd(CursorCommand(col, row, rows)))]
    {
      var r := ClampRow(row, rows);
      Send(Cmd(SETDDRAMADDR | (col + RowOffset(r))));
    }

    /** clcd_enable_display. */
    method EnableDisplay(enable: bv8)
      modifies this`displaycontrol, this`ops
      ensures displaycontrol == WithFlag(old(displaycontrol), DISPLAYON, enable != 0)
      ensures ops == old(ops) + [Byte(Cmd(DISPLAYCONTROL | displaycontrol))]
    {
      displaycontrol := WithFlag(displaycontrol, DISPLAYON, enable != 0);
      Send(Cmd(DISPLAYCONTROL | displaycontrol));
    }

    /** clcd_show_cursor. */
    method ShowCursor(show: bv8)
      modifies this`displaycontrol, this`ops
      ensures displaycontrol == WithFlag(old(displaycontrol), CURSORON, show != 0)
      ensures ops == old(ops) + [Byte(Cmd(DISPLAYCONTROL | displaycontrol))]
    {
      displaycontrol := WithFlag(displaycontrol, CURSORON, show != 0);
      Send(Cmd(DISPLAYCONTROL | displaycontrol));
    }

    /** clcd_blink. */
    method Blink(blink: bv8)
      modifies this`displaycontrol, this`ops
      ensures displaycontrol == WithFlag(old(displaycontrol), BLINKON, blink != 0)
      ensures ops == old(ops) + [Byte(Cmd(DISPLAYCONTROL | displaycontrol))]
    {
      displaycontrol := WithFlag(displaycontrol, BLINKON, blink != 0);
      Send(Cmd(DISPLAYCONTROL | displaycontrol));
    }

    /** clcd_move_left: shift the display one place left. */
    method MoveLeft()
      modifies this`ops
      ensures ops == old(ops) + [Byte(Cmd(0x18))]
    {
      Send(Cmd(CURSORSHIFT | DISPLAYMOVE));
    }

    /** clcd_move_right: shift the display one place right. */
    method MoveRight()
      modifies this`ops
      ensures ops == old(ops) + [Byte(Cmd(0x1C))]
    {
      Send(Cmd(CURSORSHIFT | DISPLAYMOVE | MOVERIGHT));
    }

    /** clcd_set_left2right. */
    method SetLeftToRight()
      modifies this`displaymode, this`ops
      ensures displaymode == WithFlag(old(displaymode), ENTRYLEFT, true)
      ensures ops == old(ops) + [Byte(Cmd(ENTRYMODESET | displaymode))]
    {
      displaymode := WithFlag(displaymode, ENTRYLEFT, true);
      Send(Cmd(ENTRYMODESET | displaymode));
    }

    /** clcd_set_right2left. */
    method SetRightToLeft()
      modifies this`displaymode, this`ops
      ensures displaymode == WithFlag(old(displaymode), ENTRYLEFT, false)
      ensures ops == old(ops) + [Byte(Cmd(ENTRYMODESET | displaymode))]
    {
      displaymode := WithFlag(displaymode, ENTRYLEFT, false);
      Send(Cmd(ENTRYMODESET | displaymode));
    }

    /** clcd_autoscroll. */
    method Autoscroll(autoscroll: bv8)
      modifies this`displaymode, this`ops
      ensures displaymode == WithFlag(old(displaymode), ENTRYSHIFTINCREMENT, autoscroll != 0)
      ensures ops == old(ops) + [Byte(Cmd(ENTRYMODESET | displaymode))]
    {
      displaymode := WithFlag(displaymode, ENTRYSHIFTINCREMENT, autoscroll != 0);
      Send(Cmd(ENTRYMODESET | displaymode));
    }

    /** The column a newline returns to: 0 when writing left to right, else the last column. */
    function NewlineColumn(): bv8
      reads this
    {
      if displaymode & ENTRYLEFT != 0 then 0 else cols
    }

    /**
     * clcd_message: walk the bytes of a NUL-terminated string (s holds the
     * bytes before the NUL), moving to the next line at each newline and
     * writing every other byte as data.
     */
    method Message(s: seq<bv8>)
      requires 1 <= rows <= 4
      requires forall i | 0 <= i < |s| :: s[i] != 0
      modifies this`ops
      ensures ops == old(ops) + Bytes(MessageTransfers(s, NewlineColumn(), rows))
    {
      var line: bv8 := 0;
      var i := 0;
      while i < |s|
        invariant i <= |s| && line == Lines(s[..i])
        invariant ops == old(ops) + Bytes(MessageTransfers(s[..i], NewlineColumn(), rows))
      {
        MessageStep(old(ops), s, i, line);
        MessageSnoc(s, i, NewlineColumn(), rows);
        if s[i] == NEWLINE {
          line := line + 1;
        }
        i := i + 1;
      }
      assert s[..i] == s;
    }

    /** One iteration of clcd_message's loop. */
    method MessageStep(ghost ops0: seq<Op>, s: seq<bv8>, i: nat, line: bv8)
      requires 1 <= rows <= 4 && i < |s| && line == Lines(s[..i])
      requires ops == ops0 + Bytes(MessageTransfers(s[..i], NewlineColumn(), rows))
      modifies this`ops
      ensures ops == ops0 + Bytes(MessageTransfers(s[..i + 1], NewlineColumn(), rows))
    {
      var col := NewlineColumn();
      ghost var done := MessageTransfers(s[..i], col, rows);
      MessageSnoc(s, i, col, rows);
      if s[i] == NEWLINE {
        CursorAfter(ops0, done, MessageTransfers(s[..i + 1], col, rows), col, line + 1);
      } else {
        SendAfter(ops0, done, MessageTransfers(s[..i + 1], col, rows), Dat(s[i]));
      }
    }

    /** Send one byte after the bytes already recorded. */
    method SendAfter(ghost ops0: seq<Op>, ghost done: seq<Transfer>, ghost after: seq<Transfer>, t: Transfer)
      requires ops == ops0 + Bytes(done) && after == done + [t]
      modifies this`ops
      ensures ops == ops0 + Bytes(after)
    {
      Send(t);
      BytesSnoc(done, after);
    }

    /** Move the cursor after the bytes already recorded. */
    method CursorAfter(ghost ops0: seq<Op>, ghost done: seq<Transfer>, ghost after: seq<Transfer>, col: bv8, row: bv8)
      requires CursorOk(row, rows)
      requires ops == ops0 + Bytes(done) && after == done + [Cmd(CursorCommand(col, row, rows))]
      modifies this`ops
      ensures ops == ops0 + Bytes(after)
    {
      SetCursor(col, row);
      BytesSnoc(done, after);
    }
  }
}
