# I2C character-LCD driver and two-line message display

This project models the display driver of a small Raspberry Pi tool. The driver
runs a 2-line HD44780 character LCD through a PCF8574 I2C backpack in 4-bit mode.
It covers the `LCD` class (power-on sequence, byte encoder, enable strobe, line
writer, clear) and the `LCDMessage` class (store a message, render it on the two
lines once per loop tick, replace it). The I2C bus is an append-only trace of
`BusWrite(addr, data)` values: one per `bus.write_byte` call.

Modules:

- `LcdProtocol` (`protocol.dfy`): the constants of the source and the writes each
  operation puts on the bus, as pure functions. For example, `ByteWrites` gives the
  six writes of `lcd_byte` and `StringWrites` those of `lcd_string`.
  It also holds a decoder, `Decode`. The decoder cuts a trace into consecutive
  groups of six writes and reads each group at fixed positions. Write 2 gives the
  high nibble and write 5 the low nibble. RS comes from bit 0 of write 2 and the
  backlight from bit 3. The decoder does not look at the enable bit.
  `ByteWritesStrobed` shows that in every group `lcd_byte` makes, writes 2 and 5
  are the writes that drop enable. Those are the falling edges where a controller
  in 4-bit mode latches its data lines. The lemmas connect the encoder to the
  decoder: the decoder recovers exactly the commands and characters that were
  sent.
- `LcdDriver` (`driver.dfy`): class `Lcd`. Its fields are `addr` and `width`
  (`I2C_ADDR`, `LCD_WIDTH`, which never change), `backlight` (`LCD_BACKLIGHT`)
  and `trace`. Each method appends to `trace` exactly the writes the
  corresponding protocol function describes.
- `LcdMessages` (`message.dfy`): class `LcdMessage` with `currentMessage`. One
  render tick writes `message[:W]` to line 1 and `message[W:2W]` to line 2.
  `DisplayMessage` performs `ticks` such renders.

Bytes on the bus are `bv8`. Character codes are `ord(c)`, an unbounded natural
number. `Low8` keeps the low byte of such a code, which is what the masks in the
nibble formulas keep. So a non-ASCII character sends the low byte of its code
point.

## Model

| member | source | states |
|---|---|---|
| `LcdProtocol.HighNibble` | src/utils/utils.py:65 | `bits_high`: with mode 0 or 1 and backlight 0x08 or 0x00, the upper four bits are the upper four bits of the low byte of `bits`, and the lower four are `mode` and the backlight |
| `LcdProtocol.LowNibble` | src/utils/utils.py:66 | `bits_low`: with mode 0 or 1 and backlight 0x08 or 0x00, the upper four bits are the lower four bits of `bits`, and the lower four are `mode` and the backlight |
| `LcdProtocol.ToggleWrites` | src/utils/utils.py:74-85 | the writes of `lcd_toggle_enable`: two writes to `I2C_ADDR`, the first with ENABLE set, the second with it clear, both otherwise equal to `bits` |
| `LcdProtocol.ByteWrites` | src/utils/utils.py:57-72 | the writes of `lcd_byte`: six writes, all to `I2C_ADDR` |
| `LcdProtocol.Ljust` | src/utils/utils.py:95 | Python's `str.ljust(width, " ")`: the string itself followed by spaces up to `width`; never shorter than the string, never cut |
| `LcdProtocol.StringWrites` | src/utils/utils.py:87-98 | the writes of `lcd_string`: `6 (LCD_WIDTH + 1)` of them, one command byte and `LCD_WIDTH` character bytes |
| `LcdProtocol.InitWrites` | src/utils/utils.py:47-54 | the writes of `lcd_init`: six command bytes, 36 writes |
| `LcdProtocol.NibbleBits` | src/utils/utils.py:65-66 | with mode 0 or 1 and backlight 0x08 or 0x00, bit 0 of both nibble bytes is the mode, bit 3 is the backlight flag, and the ENABLE bit (bit 2) is clear |
| `LcdProtocol.NibbleRoundTrip` | src/utils/utils.py:65-72 | the upper half of the high nibble byte joined with the upper half of the low nibble byte is the low byte of `bits`: the two nibble writes carry the whole byte, high nibble first |
| `LcdProtocol.ByteWritesShape` | src/utils/utils.py:65-85 | `lcd_byte` makes exactly six writes, all to `I2C_ADDR`: high, high with ENABLE set, high, low, low with ENABLE set, low (each strobe-off write equals its nibble byte) |
| `LcdProtocol.ToggleShape` | src/utils/utils.py:74-85 | `lcd_toggle_enable` on a byte whose enable bit is clear writes the byte with ENABLE set and then the byte itself |
| `LcdProtocol.ByteWritesStrobed` | src/utils/utils.py:68-84 | each `lcd_byte` call is a well-formed 4-bit transfer: each nibble is set with enable low, then strobed high and low, all to one address |
| `LcdProtocol.ByteWritesBits` | src/utils/utils.py:65-72 | every write of `lcd_byte` goes to `I2C_ADDR` with the mode in bit 0 and the backlight flag in bit 3 |
| `LcdProtocol.DecodeByteWrites` | src/utils/utils.py:57-72 | the decoder reads the six writes of `lcd_byte(bits, mode)` as exactly one transfer: the low byte of `bits`, in the given mode, with the current backlight |
| `LcdProtocol.InitWritesInOrder` | src/utils/utils.py:49-54 | the power-on sequence is `lcd_byte` in command mode with 0x33, 0x32, 0x06, 0x0C, 0x28, 0x01, in that order |
| `LcdProtocol.SendAllBits` | src/utils/utils.py:97-98 | every write of a run of `lcd_byte` calls goes to `I2C_ADDR` and carries the mode and the backlight flag |
| `LcdProtocol.DecodeSendAll` | src/utils/utils.py:97-98 | a run of `lcd_byte` calls is decoded as the same values, in the same order, each in the given mode |
| `LcdProtocol.LjustPadsOrTruncates` | src/utils/utils.py:95-98 | `ljust` followed by taking `LCD_WIDTH` characters gives character `i` of the message when `i < len(message)` and a space otherwise: shorter messages are padded, longer ones cut |
| `LcdProtocol.DecodeStringWrites` | src/utils/utils.py:87-98 | the decoder reads one line-select command, then exactly `LCD_WIDTH` characters: `ord(message[i])` (low byte) for `i < len(message)`, then spaces |
| `LcdProtocol.StringWritesBits` | src/utils/utils.py:95-103 | every write of `lcd_string` carries the backlight flag in force, so after `clear` sets it to 0 every later line write has bit 3 clear |
| `LcdProtocol.DecodeInitWrites` | src/utils/utils.py:47-54 | `lcd_init` makes 36 writes, decoded as exactly the six commands 0x33, 0x32, 0x06, 0x0C, 0x28, 0x01 in order, and no character |
| `LcdDriver.Lcd.constructor` | src/utils/utils.py:25-45 | a new driver has the given address and width, backlight 0x08, and its trace is exactly the power-on sequence |
| `LcdDriver.Lcd.LcdInit` | src/utils/utils.py:47-55 | appends exactly the power-on writes to the trace |
| `LcdDriver.Lcd.LcdByte` | src/utils/utils.py:57-72 | appends exactly the six writes of the nibble encoding with the current backlight; nothing else changes |
| `LcdDriver.Lcd.LcdToggleEnable` | src/utils/utils.py:74-85 | appends the byte with ENABLE set, then with ENABLE cleared |
| `LcdDriver.Lcd.LcdString` | src/utils/utils.py:87-98 | appends the line-select command and `LCD_WIDTH` character bytes of the space-padded message (loop invariant: the first `i` characters are sent) |
| `LcdDriver.Lcd.Clear` | src/utils/utils.py:100-103 | appends command 0x01 sent with the backlight in force before the call, then sets the backlight to 0x00; address and width cannot change |
| `LcdMessages.LcdMessage.constructor` | src/utils/utils.py:137-140 | a new message manager holds the given driver and the empty message |
| `LcdMessages.LcdMessage.DisplayMessage` | src/utils/utils.py:142-162 | sets `current_message` to the argument, then appends one render tick per loop iteration: line 1 = `message[:W]`, line 2 = `message[W:2W]` |
| `LcdMessages.LcdMessage.UpdateMessage` | src/utils/utils.py:164-172 | replaces `current_message` and nothing else: no bus write, backlight unchanged |
| `LcdMessages.Slice` | src/utils/utils.py:156-157 | Python's slice `s[lo:hi]` with bounds clipped to the string: character `i` is `s[lo + i]`, and the length is `min(hi, len) - min(lo, len)` |
| `LcdMessages.FirstLine` | src/utils/utils.py:156 | `line_1`: the first `min(len(m), W)` characters of the message |
| `LcdMessages.SecondLine` | src/utils/utils.py:157 | `line_2`: at most `W` characters, character `i` being `m[W + i]`, as many as the message has between `W` and `2W` |
| `LcdMessages.TickWrites` | src/utils/utils.py:154-160 | one loop iteration of `display_message`: line 1 then line 2, `12 (W + 1)` writes |
| `LcdMessages.LinesCoverPrefix` | src/utils/utils.py:156-157 | the two chunks are at most `W` characters each and together are the first `min(len(m), 2W)` characters of the message |
| `LcdMessages.TickIgnoresTail` | src/utils/utils.py:154-160 | a render tick writes the same bytes for the message and for the message cut to `2W` characters: no character at index `2W` or beyond reaches the bus |
| `LcdMessages.FirstRow` | src/utils/utils.py:156-159 | line 1, padded, shows characters `0 .. W-1` of the message, spaces past its end |
| `LcdMessages.SecondRow` | src/utils/utils.py:157-160 | line 2, padded, shows characters `W .. 2W-1` of the message, spaces past its end |
| `LcdMessages.DecodeTick` | src/utils/utils.py:154-160 | one tick is `12 (W + 1)` writes, and the decoder reads: command 0x80, characters `0 .. W-1`, command 0xC0, characters `W .. 2W-1` |
| `LcdMessages.DecodeRepeat` | src/utils/utils.py:154-162 | repeating a trace of whole transfers `n` times repeats its decoded transfers `n` times |
| `LcdMessages.DecodeDisplay` | src/utils/utils.py:150-162 | the decoder reads a display of `n` ticks as the same two lines `n` times over |

Updates during a display. `display_message` holds the lock for its whole loop.
So an `update_message` call made during a display waits until the loop has ended,
and nothing renders the new message afterwards. The model follows the code:
`UpdateMessage` writes nothing, and `DisplayMessage` renders only its own argument.
The test at `tests/test_utils.py:63-82` expects the new message to reach the
display after `display_message` has returned. The code never does that.

## Left out

- Timing: the `sleep` calls, `E_PULSE`, `E_DELAY`, the 0.1 s poll and the `time()`-bounded loop. `DisplayMessage` takes the number of loop iterations, `ticks`, as a parameter instead of a duration.
- The lock and any concurrent `update_message` during a display. This is concurrency. The model is single-threaded, so `currentMessage` cannot change during a `DisplayMessage` call.
- Opening `smbus.SMBus(1)` and bus failures. These are foreign I/O. The bus is the `trace` field, and every write succeeds.
- `LCDClock.display_time`: wall-clock time, `strftime` formatting and an infinite loop. The `__main__` block is left out too.
- The controller's power-on state. A real HD44780 starts in 8-bit mode, and the
  power-on bytes 0x33 and 0x32 exist to switch it to 4-bit mode. So those bytes are
  not latched as one 4-bit transfer each. `Decode` reads every six-write group as
  one 4-bit transfer, power-on included. `DecodeInitWrites` therefore states what
  was sent, not the controller's internal mode switch.
- The object-detection scripts and the driver script. They are calls into an external inference library plus filesystem and camera glue.
- LcdDriver.Lcd.LcdByte: `mode` must be `LCD_CMD` or `LCD_CHR`. These are the two values the docstring allows and the only ones the class passes. Any other mode could put a value above 255 on the bus, and the model does not cover that.
- LcdDriver.Lcd.LcdByte: `bits` is a natural number. Every caller passes `ord(...)` or a constant. Python's negative integers are not modelled.
- LcdDriver.Lcd.constructor: `lcd_width` is a natural number. A negative width is not modelled. Python would treat it as width 0.
- LcdDriver.Lcd.Valid: `LCD_BACKLIGHT` is 0x08 or 0x00. These are the only values the class assigns. An outside assignment of another value is not modelled.
