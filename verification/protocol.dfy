/** The byte-level protocol of a 2-line HD44780 character LCD behind a PCF8574
    I2C backpack, driven in 4-bit mode: the writes that `LCD.lcd_byte`,
    `LCD.lcd_string` and `LCD.lcd_init` put on the bus, as pure functions of
    their arguments, and a decoder that reads a trace of whole six-write
    transfers back as commands and characters. */
module LcdProtocol {

  const DEFAULT_I2C_ADDR: nat := 0x27
  const DEFAULT_LCD_WIDTH: nat := 16

  /** Register-select values: the mode bit (P0 of the expander, wired to RS). */
  const LCD_CHR: bv8 := 1
  const LCD_CMD: bv8 := 0

  /** "Set DDRAM address" commands for the start of each line. */
  const LCD_LINE_1: nat := 0x80
  const LCD_LINE_2: nat := 0xC0

  /** Backlight bit (P3 of the expander), on at start-up and off after a clear. */
  const BACKLIGHT_ON: bv8 := 0x08
  const BACKLIGHT_OFF: bv8 := 0x00

  /** Enable strobe bit (P2 of the expander). */
  const ENABLE: bv8 := 0x04

  /** The power-on command sequence, in the order it is sent. */
  const INIT_COMMANDS: seq<nat> := [0x33, 0x32, 0x06, 0x0C, 0x28, 0x01]

  /** The clear-display command. */
  const CLEAR_DISPLAY: nat := 0x01

  /** The fill character of `str.ljust`. */
  const SPACE: char := ' '

  predicate IsMode(mode: bv8) {
    mode == LCD_CMD || mode == LCD_CHR
  }

  predicate IsBacklight(backlight: bv8) {
    backlight == BACKLIGHT_ON || backlight == BACKLIGHT_OFF
  }

  /** One `bus.write_byte(addr, data)` call. */
  datatype BusWrite = BusWrite(addr: nat, data: bv8)

  /** The low eight bits of a (non-negative, unbounded) Python integer. */
  function Low8(x: nat): bv8 {
    (x % 256) as bv8
  }

  /** `mode | (bits & 0xF0) | LCD_BACKLIGHT`: the upper four data bits of the
      byte on P4..P7, the control bits on P0..P3. */
  function HighNibble(bits: nat, mode: bv8, backlight: bv8): (r: bv8)
    ensures IsMode(mode) && IsBacklight(backlight) ==>
      r & 0xF0 == Low8(bits) & 0xF0 && r & 0x0F == mode | backlight
  {
    mode | (Low8(bits) & 0xF0) | backlight
  }

  /** `mode | ((bits << 4) & 0xF0) | LCD_BACKLIGHT`. The mask keeps bits 4..7 of
      `bits << 4`, which come from bits 0..3 of `bits`, so shifting the low
      byte is the same. */
  function LowNibble(bits: nat, mode: bv8, backlight: bv8): (r: bv8)
    ensures IsMode(mode) && IsBacklight(backlight) ==>
      r >> 4 == Low8(bits) & 0x0F && r & 0x0F == mode | backlight
  {
    mode | ((Low8(bits) << 4) & 0xF0) | backlight
  }

  /** `lcd_toggle_enable(bits)`: raise then drop the enable line. */
  function ToggleWrites(addr: nat, bits: bv8): (r: seq<BusWrite>)
    ensures |r| == 2 && r[0].addr == addr && r[1].addr == addr
    ensures r[0].data & ENABLE == ENABLE && r[1].data & ENABLE == 0
    ensures r[0].data & !ENABLE == bits & !ENABLE && r[1].data & !ENABLE == bits & !ENABLE
  {
    [BusWrite(addr, bits | ENABLE), BusWrite(addr, bits & !ENABLE)]
  }

  /** `lcd_byte(bits, mode)`: high nibble, strobe, low nibble, strobe. */
  function ByteWrites(addr: nat, bits: nat, mode: bv8, backlight: bv8): (r: seq<BusWrite>)
    ensures |r| == 6 && forall w <- r :: w.addr == addr
  {
    var high := HighNibble(bits, mode, backlight);
    var low := LowNibble(bits, mode, backlight);
    [BusWrite(addr, high)] + ToggleWrites(addr, high) + [BusWrite(addr, low)] + ToggleWrites(addr, low)
  }

  /** `lcd_byte(v, mode)` for each `v` of `values` in turn. */
  function SendAll(addr: nat, values: seq<nat>, mode: bv8, backlight: bv8): seq<BusWrite>
    decreases |values|
  {
    if values == [] then []
    else SendAll(addr, values[..|values| - 1], mode, backlight) + ByteWrites(addr, values[|values| - 1], mode, backlight)
  }

  /** Python's `s.ljust(width, " ")`: pads with spaces, never truncates. */
  function Ljust(s: string, width: nat): (r: string)
    ensures |r| == if |s| >= width then |s| else width
    ensures r[..|s|] == s
    ensures forall i :: |s| <= i < |r| ==> r[i] == SPACE
  {
    if |s| >= width then s else s + seq(width - |s|, _ => SPACE)
  }

  /** `ord` of each character. */
  function Codes(s: string): seq<nat> {
    seq(|s|, i requires 0 <= i < |s| => s[i] as nat)
  }

  /** `lcd_string(message, line)`: the line-select command, then the first
      `width` characters of the space-padded message. */
  function StringWrites(addr: nat, width: nat, message: string, line: nat, backlight: bv8): (r: seq<BusWrite>)
    ensures |r| == 6 * (width + 1)
  {
    SendAllLength(addr, Codes(Ljust(message, width)[..width]), LCD_CHR, backlight);
    ByteWrites(addr, line, LCD_CMD, backlight) + SendAll(addr, Codes(Ljust(message, width)[..width]), LCD_CHR, backlight)
  }

  /** `lcd_init()`. */
  function InitWrites(addr: nat, backlight: bv8): (r: seq<BusWrite>)
    ensures |r| == 6 * |INIT_COMMANDS|
  {
    SendAllLength(addr, INIT_COMMANDS, LCD_CMD, backlight);
    SendAll(addr, INIT_COMMANDS, LCD_CMD, backlight)
  }

  /** What the character at position `i` of a line shows: the message's
      character, or a space past its end. */
  function ShownChar(message: string, i: nat): char {
    if i < |message| then message[i] else SPACE
  }

  // ---------------------------------------------------------------------
  // The display side: a trace read back as transfers.
  // ---------------------------------------------------------------------

  /** One byte as the HD44780 receives it: RS low (command) or high
      (character), and whether the backlight bit was set while it was sent. */
  datatype Transfer = Command(code: bv8, backlit: bool) | Character(code: bv8, backlit: bool)

  /** The transfer `lcd_byte(bits, mode)` is meant to deliver. */
  function Sent(bits: nat, mode: bv8, backlight: bv8): Transfer {
    if mode == LCD_CMD then Command(Low8(bits), backlight != 0)
    else Character(Low8(bits), backlight != 0)
  }

  /** What one line of the display shows, as character transfers: the message from index `offset` on, `width` characters,
      spaces past the message's end. */
  function Row(message: string, offset: nat, width: nat, backlight: bv8): seq<Transfer> {
    seq(width, i requires 0 <= i < width => Character(Low8(ShownChar(message, offset + i) as nat), backlight != 0))
  }

  /** A well-formed 4-bit transfer: each nibble is put on the bus with enable
      low, then strobed high and low again, all to one address. */
  predicate Strobed(six: seq<BusWrite>)
    requires |six| == 6
  {
    (forall k :: 0 <= k < 6 ==> six[k].addr == six[0].addr) &&
    six[0].data & ENABLE == 0 && six[1].data == six[0].data | ENABLE && six[2].data == six[0].data &&
    six[3].data & ENABLE == 0 && six[4].data == six[3].data | ENABLE && six[5].data == six[3].data
  }

  /** One six-write group read at fixed positions: writes 2 and 5 give the
      high and the low nibble, and RS and the backlight are read from write 2.
      The enable bit is not inspected; for a group that is `Strobed` these two
      writes are the ones that drop enable, where an HD44780 in 4-bit mode
      latches its data lines. */
  function Latch(six: seq<BusWrite>): Transfer
    requires |six| == 6
  {
    var high := six[2].data;
    var low := six[5].data;
    var code := (high & 0xF0) | (low >> 4);
    var lit := high & BACKLIGHT_ON != 0;
    if high & LCD_CHR == 0 then Command(code, lit) else Character(code, lit)
  }

  /** A trace cut into consecutive six-write groups, each read by `Latch`; a
      trailing partial group is ignored. Every group is taken to be one 4-bit
      transfer, including those of the power-on sequence. */
  function Decode(trace: seq<BusWrite>): seq<Transfer>
    decreases |trace|
  {
    if |trace| < 6 then [] else [Latch(trace[..6])] + Decode(trace[6..])
  }

  // ---------------------------------------------------------------------
  // Properties of one lcd_byte call
  // ---------------------------------------------------------------------

  /** Bit 0 of both nibble bytes is the mode, bit 3 the backlight flag, and
      the enable bit is clear. */
  lemma NibbleBits(bits: nat, mode: bv8, backlight: bv8)
    requires IsMode(mode) && IsBacklight(backlight)
    ensures HighNibble(bits, mode, backlight) & 1 == mode
    ensures LowNibble(bits, mode, backlight) & 1 == mode
    ensures HighNibble(bits, mode, backlight) & 0x08 == backlight
    ensures LowNibble(bits, mode, backlight) & 0x08 == backlight
    ensures HighNibble(bits, mode, backlight) & ENABLE == 0
    ensures LowNibble(bits, mode, backlight) & ENABLE == 0
  {
  }

  /** The upper half of the high nibble byte and the upper half of the low
      nibble byte, put back together, are the low byte of `bits`. */
  lemma NibbleRoundTrip(bits: nat, mode: bv8, backlight: bv8)
    requires IsMode(mode) && IsBacklight(backlight)
    ensures (HighNibble(bits, mode, backlight) & 0xF0) | (LowNibble(bits, mode, backlight) >> 4) == Low8(bits)
  {
  }

  /** `lcd_byte` makes six writes to one address, in the order high nibble,
      high | ENABLE, high & ~ENABLE, low nibble, low | ENABLE, low & ~ENABLE;
      the strobe-off writes equal the nibble bytes themselves. */
  lemma ByteWritesShape(addr: nat, bits: nat, mode: bv8, backlight: bv8)
    requires IsMode(mode) && IsBacklight(backlight)
    ensures var w := ByteWrites(addr, bits, mode, backlight);
      var high := HighNibble(bits, mode, backlight);
      var low := LowNibble(bits, mode, backlight);
      w == [BusWrite(addr, high), BusWrite(addr, high | ENABLE), BusWrite(addr, high),
            BusWrite(addr, low), BusWrite(addr, low | ENABLE), BusWrite(addr, low)]
  {
    var high := HighNibble(bits, mode, backlight);
    var low := LowNibble(bits, mode, backlight);
    NibbleBits(bits, mode, backlight);
    ToggleShape(addr, high);
    ToggleShape(addr, low);
  }

  /** Strobing a byte whose enable bit is clear ends with the byte itself. */
  lemma ToggleShape(addr: nat, b: bv8)
    requires b & ENABLE == 0
    ensures ToggleWrites(addr, b) == [BusWrite(addr, b | ENABLE), BusWrite(addr, b)]
  {
  }

  /** Each `lcd_byte` call is one well-formed strobed transfer. */
  lemma ByteWritesStrobed(addr: nat, bits: nat, mode: bv8, backlight: bv8)
    requires IsMode(mode) && IsBacklight(backlight)
    ensures Strobed(ByteWrites(addr, bits, mode, backlight))
  {
    ByteWritesShape(addr, bits, mode, backlight);
    NibbleBits(bits, mode, backlight);
  }

  /** Every write of one `lcd_byte` call goes to `addr` and carries the mode in
      bit 0 and the backlight flag in bit 3. */
  lemma ByteWritesBits(addr: nat, bits: nat, mode: bv8, backlight: bv8)
    requires IsMode(mode) && IsBacklight(backlight)
    ensures forall w <- ByteWrites(addr, bits, mode, backlight) ::
      w.addr == addr && w.data & 1 == mode && w.data & 0x08 == backlight
  {
  }

  /** The decoder reads back exactly the byte that was sent, in the mode it
      was sent in. */
  lemma DecodeByteWrites(addr: nat, bits: nat, mode: bv8, backlight: bv8)
    requires IsMode(mode) && IsBacklight(backlight)
    ensures Decode(ByteWrites(addr, bits, mode, backlight)) == [Sent(bits, mode, backlight)]
  {
    var w := ByteWrites(addr, bits, mode, backlight);
    ByteWritesShape(addr, bits, mode, backlight);
    NibbleRoundTrip(bits, mode, backlight);
    NibbleBits(bits, mode, backlight);
    assert w[..6] == w;
    assert Decode(w[6..]) == [];
  }

  // ---------------------------------------------------------------------
  // Sequences of lcd_byte calls
  // ---------------------------------------------------------------------

  /** Decoding distributes over traces cut at a transfer boundary. */
  lemma {:induction false} DecodeAppend(a: seq<BusWrite>, b: seq<BusWrite>, k: nat)
    requires |a| == 6 * k
    ensures Decode(a + b) == Decode(a) + Decode(b)
  {
    if k == 0 {
      assert a + b == b;
    } else {
      assert (a + b)[..6] == a[..6];
      assert (a + b)[6..] == a[6..] + b;
      DecodeAppend(a[6..], b, k - 1);
    }
  }

  /** Concatenation is associative (stated once, so that callers need not
      reason about the writes element by element). */
  lemma AppendAssoc(a: seq<BusWrite>, b: seq<BusWrite>, c: seq<BusWrite>)
    ensures (a + b) + c == a + (b + c)
  {
  }

  /** One more call appends its six writes. */
  lemma SendAllSnoc(addr: nat, values: seq<nat>, v: nat, mode: bv8, backlight: bv8)
    ensures SendAll(addr, values + [v], mode, backlight)
         == SendAll(addr, values, mode, backlight) + ByteWrites(addr, v, mode, backlight)
  {
    assert (values + [v])[..|values|] == values;
  }

  /** The power-on sequence is six `lcd_byte` calls in command mode. */
  lemma InitWritesInOrder(addr: nat, backlight: bv8)
    ensures InitWrites(addr, backlight)
         == ByteWrites(addr, 0x33, LCD_CMD, backlight) + ByteWrites(addr, 0x32, LCD_CMD, backlight)
          + ByteWrites(addr, 0x06, LCD_CMD, backlight) + ByteWrites(addr, 0x0C, LCD_CMD, backlight)
          + ByteWrites(addr, 0x28, LCD_CMD, backlight) + ByteWrites(addr, 0x01, LCD_CMD, backlight)
  {
    var c := INIT_COMMANDS;
    assert c[..1] == [] + [c[0]];
    SendAllSnoc(addr, [], c[0], LCD_CMD, backlight);
    SendAllSnoc(addr, c[..1], c[1], LCD_CMD, backlight);
    assert c[..2] == c[..1] + [c[1]];
    SendAllSnoc(addr, c[..2], c[2], LCD_CMD, backlight);
    assert c[..3] == c[..2] + [c[2]];
    SendAllSnoc(addr, c[..3], c[3], LCD_CMD, backlight);
    assert c[..4] == c[..3] + [c[3]];
    SendAllSnoc(addr, c[..4], c[4], LCD_CMD, backlight);
    assert c[..5] == c[..4] + [c[4]];
    SendAllSnoc(addr, c[..5], c[5], LCD_CMD, backlight);
    assert c == c[..5] + [c[5]];
  }

  /** `n` calls make `6 n` writes. */
  lemma {:induction false} SendAllLength(addr: nat, values: seq<nat>, mode: bv8, backlight: bv8)
    ensures |SendAll(addr, values, mode, backlight)| == 6 * |values|
    decreases |values|
  {
    if values != [] {
      SendAllLength(addr, values[..|values| - 1], mode, backlight);
    }
  }

  /** Every write of a run of `lcd_byte` calls goes to `addr` and carries the
      mode in bit 0 and the backlight flag in bit 3. */
  lemma {:induction false} SendAllBits(addr: nat, values: seq<nat>, mode: bv8, backlight: bv8)
    requires IsMode(mode) && IsBacklight(backlight)
    ensures forall w <- SendAll(addr, values, mode, backlight) ::
      w.addr == addr && w.data & 1 == mode && w.data & 0x08 == backlight
    decreases |values|
  {
    if values != [] {
      SendAllBits(addr, values[..|values| - 1], mode, backlight);
      ByteWritesBits(addr, values[|values| - 1], mode, backlight);
    }
  }

  /** The decoder reads the values back in order, each in the given mode. */
  lemma {:induction false} DecodeSendAll(addr: nat, values: seq<nat>, mode: bv8, backlight: bv8)
    requires IsMode(mode) && IsBacklight(backlight)
    ensures Decode(SendAll(addr, values, mode, backlight))
         == seq(|values|, i requires 0 <= i < |values| => Sent(values[i], mode, backlight))
    decreases |values|
  {
    if values != [] {
      var n := |values| - 1;
      var front := values[..n];
      DecodeSendAll(addr, front, mode, backlight);
      SendAllLength(addr, front, mode, backlight);
      DecodeAppend(SendAll(addr, front, mode, backlight), ByteWrites(addr, values[n], mode, backlight), n);
      DecodeByteWrites(addr, values[n], mode, backlight);
    }
  }

  // ---------------------------------------------------------------------
  // lcd_string and lcd_init
  // ---------------------------------------------------------------------

  /** `ljust` followed by taking `width` characters: the message is kept up to
      `width` characters, padded with spaces when shorter and cut when longer. */
  lemma LjustPadsOrTruncates(message: string, width: nat)
    ensures |Ljust(message, width)| >= width
    ensures Ljust(message, width)[..width] == seq(width, i requires 0 <= i < width => ShownChar(message, i))
  {
    var padded := Ljust(message, width);
    assert forall i :: 0 <= i < width ==> padded[i] == ShownChar(message, i);
  }

  /** `lcd_string(message, line)` makes `6 (width + 1)` writes, and the
      decoder reads the line-select command, then exactly `width`
      characters: the message's, then spaces. */
  lemma DecodeStringWrites(addr: nat, width: nat, message: string, line: nat, backlight: bv8)
    requires IsBacklight(backlight)
    ensures |StringWrites(addr, width, message, line, backlight)| == 6 * (width + 1)
    ensures Decode(StringWrites(addr, width, message, line, backlight))
         == [Command(Low8(line), backlight != 0)] + Row(message, 0, width, backlight)
  {
    var codes := Codes(Ljust(message, width)[..width]);
    LjustPadsOrTruncates(message, width);
    DecodeAppend(ByteWrites(addr, line, LCD_CMD, backlight), SendAll(addr, codes, LCD_CHR, backlight), 1);
    DecodeByteWrites(addr, line, LCD_CMD, backlight);
    DecodeSendAll(addr, codes, LCD_CHR, backlight);
  }

  /** Every write of `lcd_string` goes to `addr` and carries the backlight flag
      in force in bit 3: once `clear` has turned it off, no later line lights
      the backlight again. */
  lemma StringWritesBits(addr: nat, width: nat, message: string, line: nat, backlight: bv8)
    requires IsBacklight(backlight)
    ensures forall w <- StringWrites(addr, width, message, line, backlight) ::
      w.addr == addr && w.data & 0x08 == backlight
  {
    ByteWritesBits(addr, line, LCD_CMD, backlight);
    SendAllBits(addr, Codes(Ljust(message, width)[..width]), LCD_CHR, backlight);
  }

  /** `lcd_init` is read back as exactly the six power-on commands, in order, and no
      character. */
  lemma DecodeInitWrites(addr: nat, backlight: bv8)
    requires IsBacklight(backlight)
    ensures |InitWrites(addr, backlight)| == 36
    ensures Decode(InitWrites(addr, backlight))
         == [Command(0x33, backlight != 0), Command(0x32, backlight != 0), Command(0x06, backlight != 0),
             Command(0x0C, backlight != 0), Command(0x28, backlight != 0), Command(0x01, backlight != 0)]
  {
    SendAllLength(addr, INIT_COMMANDS, LCD_CMD, backlight);
    DecodeSendAll(addr, INIT_COMMANDS, LCD_CMD, backlight);
  }
}
