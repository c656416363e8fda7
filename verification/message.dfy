/** The `LCDMessage` class: a message shown on the two lines of the display,
    re-rendered on every tick of a timed loop. The clock is left out: the
    number of loop iterations is a parameter. */
module LcdMessages {
  import opened LcdProtocol
  import opened LcdDriver

  function Min(a: nat, b: nat): nat {
    if a <= b then a else b
  }

  /** Python's `s[lo:hi]` for `0 <= lo <= hi`: bounds past the end are clipped. */
  function Slice(s: string, lo: nat, hi: nat): (r: string)
    requires lo <= hi
    ensures |r| == Min(hi, |s|) - Min(lo, |s|) && |r| <= hi - lo
    ensures forall i :: 0 <= i < |r| ==> r[i] == s[lo + i]
  {
    s[Min(lo, |s|)..Min(hi, |s|)]
  }

  /** `current_message[:LCD_WIDTH]`. */
  function FirstLine(message: string, width: nat): (r: string)
    ensures |r| == Min(|message|, width)
    ensures forall i :: 0 <= i < |r| ==> r[i] == message[i]
  {
    Slice(message, 0, width)
  }

  /** `current_message[LCD_WIDTH:LCD_WIDTH*2]`. */
  function SecondLine(message: string, width: nat): (r: string)
    ensures |r| == Min(|message|, 2 * width) - Min(|message|, width) && |r| <= width
    ensures forall i :: 0 <= i < |r| ==> r[i] == message[width + i]
  {
    Slice(message, width, width * 2)
  }

  /** One iteration of the display loop: line 1, then line 2. */
  function TickWrites(addr: nat, width: nat, message: string, backlight: bv8): (r: seq<BusWrite>)
    ensures |r| == 12 * (width + 1)
  {
    StringWrites(addr, width, FirstLine(message, width), LCD_LINE_1, backlight) +
    StringWrites(addr, width, SecondLine(message, width), LCD_LINE_2, backlight)
  }

  /** `s` repeated `n` times. */
  function Repeat<T>(s: seq<T>, n: nat): seq<T> {
    if n == 0 then [] else s + Repeat(s, n - 1)
  }

  /** One more repetition goes at the end. */
  lemma {:induction false} RepeatSnoc<T>(s: seq<T>, n: nat)
    ensures Repeat(s, n + 1) == Repeat(s, n) + s
  {
    if n > 0 {
      RepeatSnoc(s, n - 1);
    }
  }

  class LcdMessage {
    const lcd: Lcd
    /** `current_message`. */
    var currentMessage: string

    /** `LCDMessage(lcd)`: no message yet, nothing written. */
    constructor (lcd: Lcd)
      ensures this.lcd == lcd && currentMessage == ""
    {
      this.lcd := lcd;
      currentMessage := "";
    }

    /** `display_message(message, display_duration)`, for a duration that
        lasts `ticks` iterations of its loop: store the message, then render
        it once per iteration. */
    method DisplayMessage(message: string, ticks: nat)
      requires lcd.Valid()
      modifies this`currentMessage, lcd`trace
      ensures currentMessage == message && lcd.Valid()
      ensures lcd.trace == old(lcd.trace) + Repeat(TickWrites(lcd.addr, lcd.width, message, lcd.backlight), ticks)
    {
      currentMessage := message;
      var tick := 0;
      while tick < ticks
        invariant tick <= ticks
        invariant currentMessage == message && lcd.Valid()
        invariant lcd.trace == old(lcd.trace) + Repeat(TickWrites(lcd.addr, lcd.width, message, lcd.backlight), tick)
      {
        var line1 := Slice(currentMessage, 0, lcd.width);
        var line2 := Slice(currentMessage, lcd.width, lcd.width * 2);
        ghost var before := lcd.trace;
        lcd.LcdString(line1, LCD_LINE_1);
        lcd.LcdString(line2, LCD_LINE_2);
        AppendAssoc(before, StringWrites(lcd.addr, lcd.width, line1, LCD_LINE_1, lcd.backlight),
                    StringWrites(lcd.addr, lcd.width, line2, LCD_LINE_2, lcd.backlight));
        AppendAssoc(old(lcd.trace), Repeat(TickWrites(lcd.addr, lcd.width, message, lcd.backlight), tick),
                    TickWrites(lcd.addr, lcd.width, message, lcd.backlight));
        RepeatSnoc(TickWrites(lcd.addr, lcd.width, message, lcd.backlight), tick);
        tick := tick + 1;
      }
    }

    /** `update_message(new_message)`: replace the message; nothing is
        written to the display. */
    method UpdateMessage(newMessage: string)
      modifies this`currentMessage
      ensures currentMessage == newMessage
      ensures lcd.trace == old(lcd.trace) && lcd.backlight == old(lcd.backlight)
    {
      currentMessage := newMessage;
    }
  }

  // ---------------------------------------------------------------------
  // Properties of one render tick
  // ---------------------------------------------------------------------

  /** The two lines are at most `width` characters each and together are the
      first `min(|message|, 2 width)` characters of the message. */
  lemma LinesCoverPrefix(message: string, width: nat)
    ensures |FirstLine(message, width)| <= width && |SecondLine(message, width)| <= width
    ensures FirstLine(message, width) + SecondLine(message, width) == message[..Min(|message|, 2 * width)]
  {
  }

  /** Characters at index `2 width` and beyond never reach the bus: a tick
      writes the same bytes as for the message cut to `2 width` characters. */
  lemma TickIgnoresTail(addr: nat, width: nat, message: string, backlight: bv8)
    ensures TickWrites(addr, width, message, backlight)
         == TickWrites(addr, width, message[..Min(|message|, 2 * width)], backlight)
  {
    var cut := message[..Min(|message|, 2 * width)];
    assert FirstLine(message, width) == FirstLine(cut, width);
    assert SecondLine(message, width) == SecondLine(cut, width);
  }

  /** The first line, padded, shows characters `0 .. width-1` of the message. */
  lemma FirstRow(message: string, width: nat, backlight: bv8)
    ensures Row(FirstLine(message, width), 0, width, backlight) == Row(message, 0, width, backlight)
  {
    var first := FirstLine(message, width);
    assert forall i :: 0 <= i < width ==> ShownChar(first, i) == ShownChar(message, i);
  }

  /** The second line, padded, shows characters `width .. 2 width - 1` of the
      message. */
  lemma SecondRow(message: string, width: nat, backlight: bv8)
    ensures Row(SecondLine(message, width), 0, width, backlight) == Row(message, width, width, backlight)
  {
    var second := SecondLine(message, width);
    assert forall i :: 0 <= i < width ==> ShownChar(second, i) == ShownChar(message, width + i);
  }

  /** A tick makes `12 (width + 1)` writes, and the decoder reads: go
      to line 1, characters `0 .. width-1` of the message, go to line 2,
      characters `width .. 2 width - 1`, with spaces past the message's end. */
  lemma DecodeTick(addr: nat, width: nat, message: string, backlight: bv8)
    requires IsBacklight(backlight)
    ensures |TickWrites(addr, width, message, backlight)| == 12 * (width + 1)
    ensures Decode(TickWrites(addr, width, message, backlight))
         == [Command(Low8(LCD_LINE_1), backlight != 0)] + Row(message, 0, width, backlight) +
            [Command(Low8(LCD_LINE_2), backlight != 0)] + Row(message, width, width, backlight)
  {
    var first := FirstLine(message, width);
    var second := SecondLine(message, width);
    DecodeStringWrites(addr, width, first, LCD_LINE_1, backlight);
    DecodeStringWrites(addr, width, second, LCD_LINE_2, backlight);
    FirstRow(message, width, backlight);
    SecondRow(message, width, backlight);
    DecodeAppend(StringWrites(addr, width, first, LCD_LINE_1, backlight),
                 StringWrites(addr, width, second, LCD_LINE_2, backlight), width + 1);
  }

  /** `n` repetitions of a trace of `k` whole transfers decode to `n`
      repetitions of its transfers. */
  lemma {:induction false} DecodeRepeat(t: seq<BusWrite>, n: nat, k: nat)
    requires |t| == 6 * k
    ensures Decode(Repeat(t, n)) == Repeat(Decode(t), n)
  {
    if n > 0 {
      DecodeRepeat(t, n - 1, k);
      DecodeAppend(t, Repeat(t, n - 1), k);
    }
  }

  /** `display_message` over `n` ticks: the decoder reads the same two
      lines `n` times over. */
  lemma DecodeDisplay(addr: nat, width: nat, message: string, backlight: bv8, n: nat)
    requires IsBacklight(backlight)
    ensures Decode(Repeat(TickWrites(addr, width, message, backlight), n))
         == Repeat([Command(Low8(LCD_LINE_1), backlight != 0)] + Row(message, 0, width, backlight) +
                   [Command(Low8(LCD_LINE_2), backlight != 0)] + Row(message, width, width, backlight), n)
  {
    DecodeTick(addr, width, message, backlight);
    DecodeRepeat(TickWrites(addr, width, message, backlight), n, 2 * width + 2);
  }
}
