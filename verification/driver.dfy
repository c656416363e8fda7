/** The `LCD` class: an I2C character-LCD driver whose bus is an append-only
    trace of `(address, byte)` writes. */
module LcdDriver {
  import opened LcdProtocol

  class Lcd {
    /** `I2C_ADDR` and `LCD_WIDTH`: fixed when the driver is built. */
    const addr: nat
    const width: nat
    /** `LCD_BACKLIGHT`: OR'ed into every byte written; `Clear` turns it off. */
    var backlight: bv8
    /** Every `bus.write_byte` call so far, oldest first. */
    var trace: seq<BusWrite>

    ghost predicate Valid()
      reads this
    {
      IsBacklight(backlight)
    }

    /** `LCD(i2c_addr=0x27, lcd_width=16)`: backlight on, then the power-on
        sequence. */
    constructor (i2cAddr: nat := DEFAULT_I2C_ADDR, lcdWidth: nat := DEFAULT_LCD_WIDTH)
      ensures Valid()
      ensures addr == i2cAddr && width == lcdWidth && backlight == BACKLIGHT_ON
      ensures trace == InitWrites(i2cAddr, BACKLIGHT_ON)
    {
      addr := i2cAddr;
      width := lcdWidth;
      backlight := BACKLIGHT_ON;
      trace := [];
      new;
      LcdInit();
    }

    /** `lcd_init`: the six power-on commands, in order. */
    method LcdInit()
      requires Valid()
      modifies this`trace
      ensures Valid() && trace == old(trace) + InitWrites(addr, backlight)
    {
      LcdByte(0x33, LCD_CMD);
      ghost var sent := ByteWrites(addr, 0x33, LCD_CMD, backlight);
      LcdByte(0x32, LCD_CMD);
      AppendAssoc(old(trace), sent, ByteWrites(addr, 0x32, LCD_CMD, backlight));
      sent := sent + ByteWrites(addr, 0x32, LCD_CMD, backlight);
      LcdByte(0x06, LCD_CMD);
      AppendAssoc(old(trace), sent, ByteWrites(addr, 0x06, LCD_CMD, backlight));
      sent := sent + ByteWrites(addr, 0x06, LCD_CMD, backlight);
      LcdByte(0x0C, LCD_CMD);
      AppendAssoc(old(trace), sent, ByteWrites(addr, 0x0C, LCD_CMD, backlight));
      sent := sent + ByteWrites(addr, 0x0C, LCD_CMD, backlight);
      LcdByte(0x28, LCD_CMD);
      AppendAssoc(old(trace), sent, ByteWrites(addr, 0x28, LCD_CMD, backlight));
      sent := sent + ByteWrites(addr, 0x28, LCD_CMD, backlight);
      LcdByte(0x01, LCD_CMD);
      AppendAssoc(old(trace), sent, ByteWrites(addr, 0x01, LCD_CMD, backlight));
      sent := sent + ByteWrites(addr, 0x01, LCD_CMD, backlight);
      InitWritesInOrder(addr, backlight);
    }

    /** `lcd_byte(bits, mode)`: the high nibble, strobed, then the low nibble,
        strobed, each with the mode and the current backlight bit. */
    method LcdByte(bits: nat, mode: bv8)
      requires Valid()
      requires IsMode(mode)
      modifies this`trace
      ensures Valid() && trace == old(trace) + ByteWrites(addr, bits, mode, backlight)
    {
      var bitsHigh := HighNibble(bits, mode, backlight);
      var bitsLow := LowNibble(bits, mode, backlight);

      trace := trace + [BusWrite(addr, bitsHigh)];
      LcdToggleEnable(bitsHigh);

      trace := trace + [BusWrite(addr, bitsLow)];
      LcdToggleEnable(bitsLow);
    }

    /** `lcd_toggle_enable(bits)`: `bits | ENABLE`, then `bits & ~ENABLE`. */
    method LcdToggleEnable(bits: bv8)
      modifies this`trace
      ensures trace == old(trace) + ToggleWrites(addr, bits)
    {
      trace := trace + [BusWrite(addr, bits | ENABLE)];
      trace := trace + [BusWrite(addr, bits & !ENABLE)];
    }

    /** `lcd_string(message, line)`: select the line, then send `width`
        characters of the message left-justified with spaces. */
    method LcdString(message: string, line: nat)
      requires Valid()
      modifies this`trace
      ensures Valid() && trace == old(trace) + StringWrites(addr, width, message, line, backlight)
    {
      var padded := Ljust(message, width);
      assert |padded| >= width;
      LcdByte(line, LCD_CMD);
      ghost var start := trace;
      for i := 0 to width
        invariant trace == start + SendAll(addr, Codes(padded[..i]), LCD_CHR, backlight)
      {
        LcdByte(padded[i] as nat, LCD_CHR);
        assert Codes(padded[..i + 1]) == Codes(padded[..i]) + [padded[i] as nat];
        SendAllSnoc(addr, Codes(padded[..i]), padded[i] as nat, LCD_CHR, backlight);
        AppendAssoc(start, SendAll(addr, Codes(padded[..i]), LCD_CHR, backlight), ByteWrites(addr, padded[i] as nat, LCD_CHR, backlight));
      }
    }

    /** `clear`: send the clear-display command with the backlight as it is,
        then turn the backlight off for every later write. */
    method Clear()
      requires Valid()
      modifies this`trace, this`backlight
      ensures Valid() && backlight == BACKLIGHT_OFF
      ensures trace == old(trace) + ByteWrites(addr, CLEAR_DISPLAY, LCD_CMD, old(backlight))
    {
      LcdByte(CLEAR_DISPLAY, LCD_CMD);
      backlight := BACKLIGHT_OFF;
    }
  }
}
