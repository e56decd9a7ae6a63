/** The current LCD driver (internal/display/display.go). Every operation
    reduces to single-byte writes through WriteCmd; a failed write is logged
    and the operation carries on, so the bytes handed to the bus never
    depend on which writes fail. */
module InternalDisplay {
  import opened Hd44780
  import opened Bus

  /** The I2C connection together with what the driver has done on it:
      `trace` is every byte handed to WriteBytes, in order, and `logged`
      the attempt numbers whose failure was logged. */
  class Display {
    const failing: set<nat>
    var trace: seq<bv8>
    var logged: seq<nat>

    ghost predicate Valid()
      reads this
    {
      logged == FailedAttempts(failing, |trace|)
    }

    /** A fresh connection whose writes fail at the attempts in `failing`. */
    constructor (failing: set<nat>)
      ensures Valid() && this.failing == failing && trace == []
    {
      this.failing := failing;
      trace := [];
      logged := [];
    }

    /** writeCmd: one byte to the bus; a failure is logged, not fatal. */
    method WriteCmd(cmd: bv8)
      requires Valid()
      modifies this
      ensures Valid() && trace == old(trace) + [cmd]
    {
      var ok := |trace| !in failing;  // connection.WriteBytes
      trace := trace + [cmd];
      if !ok {
        logged := logged + [|trace| - 1];
      }
    }

    /** lcdStrobe: EN high, then EN low, backlight on. */
    method LcdStrobe(data: bv8)
      requires Valid()
      modifies this
      ensures Valid() && trace == old(trace) + StrobeBytes(data)
    {
      WriteCmd(data | EnableBit | Backlight);
      WriteCmd((data & !EnableBit) | Backlight);
    }

    /** lcdWriteFourBits: the nibble with backlight, then its strobe. */
    method LcdWriteFourBits(data: bv8)
      requires Valid()
      modifies this
      ensures Valid() && trace == old(trace) + FourBitsBytes(data)
    {
      WriteCmd(data | Backlight);
      LcdStrobe(data);
    }

    /** lcdWrite: high nibble, then low nibble, each ORed with the mode. */
    method LcdWrite(cmd: bv8, mode: bv8)
      requires Valid()
      modifies this
      ensures Valid() && trace == old(trace) + Encode(Write(cmd, mode))
    {
      ghost var t := trace;
      LcdWriteFourBits(mode | (cmd & 0xF0));
      LcdWriteFourBits(mode | ((cmd << 4) & 0xF0));
      EncodeHalves(cmd, mode);
      assert trace == t + (FourBitsBytes(mode | (cmd & 0xF0)) + FourBitsBytes(mode | ((cmd << 4) & 0xF0)));
    }

    /** LcdDisplayString: set the DDRAM address for (line, pos), then send
        each byte of `str` as character data. */
    method LcdDisplayString(str: seq<bv8>, line: bv8, pos: bv8)
      requires Valid()
      modifies this
      ensures Valid() && trace == old(trace) + DisplayStringBytes(str, line, pos)
    {
      var posNew: bv8 := 0;
      if line == 1 {
        posNew := pos;
      } else if line == 2 {
        posNew := 0x40 + pos;
      }
      assert posNew == TwoLineAddress(line, pos);
      ghost var t := trace;
      ghost var first := Write(0x80 + posNew, 0);
      LcdWrite(0x80 + posNew, 0);
      DisplayStringStart(t, first, str, trace);
      var i := 0;
      while i < |str|
        invariant 0 <= i <= |str|
        invariant Valid()
        invariant trace == t + Stream([first] + CharWrites(str[..i]))
      {
        LcdWrite(str[i], RegisterSelectBit);
        DisplayStringStep(t, first, str, i, trace);
        i := i + 1;
      }
      assert str[..|str|] == str;
    }

    /** Reset: the eight instruction writes of the initialisation sequence. */
    method Reset()
      requires Valid()
      modifies this
      ensures Valid() && trace == old(trace) + Stream(ResetWrites)
    {
      ghost var t, ws := trace, [];
      LcdWrite(0x03, 0);
      ws := StreamExtend(t, ws, Write(0x03, 0), trace);
      LcdWrite(0x03, 0);
      ws := StreamExtend(t, ws, Write(0x03, 0), trace);
      LcdWrite(0x03, 0);
      ws := StreamExtend(t, ws, Write(0x03, 0), trace);
      LcdWrite(0x02, 0);
      ws := StreamExtend(t, ws, Write(0x02, 0), trace);
      LcdWrite(FunctionSet | TwoLine | FiveByEightDots | FourBitMode, 0);
      ws := StreamExtend(t, ws, Write(FunctionSet | TwoLine | FiveByEightDots | FourBitMode, 0), trace);
      LcdWrite(DisplayControl | DisplayOn, 0);
      ws := StreamExtend(t, ws, Write(DisplayControl | DisplayOn, 0), trace);
      LcdWrite(ClearDisplay, 0);
      ws := StreamExtend(t, ws, Write(ClearDisplay, 0), trace);
      LcdWrite(EntryModeSet | EntryLeft, 0);
      ws := StreamExtend(t, ws, Write(EntryModeSet | EntryLeft, 0), trace);
      assert ws == ResetWrites;
    }

    /** Clear: clear display, then return home. */
    method Clear()
      requires Valid()
      modifies this
      ensures Valid() && trace == old(trace) + Stream(ClearWrites)
    {
      ghost var t, ws := trace, [];
      LcdWrite(ClearDisplay, 0);
      ws := StreamExtend(t, ws, Write(ClearDisplay, 0), trace);
      LcdWrite(ReturnHome, 0);
      ws := StreamExtend(t, ws, Write(ReturnHome, 0), trace);
      assert ws == ClearWrites;
    }

    /** turnBacklightOff: the raw byte 0x00, which drops the BL pin. */
    method TurnBacklightOff()
      requires Valid()
      modifies this
      ensures Valid() && trace == old(trace) + [NoBacklight]
    {
      WriteCmd(NoBacklight);
    }

    /** turnDisplayOff: the raw byte lcdDisplayOff (0x00). */
    method TurnDisplayOff()
      requires Valid()
      modifies this
      ensures Valid() && trace == old(trace) + [DisplayOff]
    {
      WriteCmd(DisplayOff);
    }

    /** ShutdownDisplay: Clear, backlight off, display off. */
    method ShutdownDisplay()
      requires Valid()
      modifies this
      ensures Valid() && trace == old(trace) + ShutdownBytes()
    {
      Clear();
      TurnBacklightOff();
      TurnDisplayOff();
    }

    /** showError: the two error lines at column 0. */
    method ShowError()
      requires Valid()
      modifies this
      ensures Valid() && trace == old(trace) + ShowErrorBytes()
    {
      LcdDisplayString(Ascii(ErrorTextLine1), 1, 0);
      LcdDisplayString(Ascii(ErrorTextLine2), 2, 0);
    }

    /** ShowLoadingText: the two loading lines at column 0. */
    method ShowLoadingText()
      requires Valid()
      modifies this
      ensures Valid() && trace == old(trace) + LoadingBytes()
    {
      LcdDisplayString(Ascii(LoadingTextLine1), 1, 0);
      LcdDisplayString(Ascii(LoadingTextLine2), 2, 0);
    }

    /** ShowErrorAndShutdown: Clear, showError, (a pause), ShutdownDisplay. */
    method ShowErrorAndShutdown()
      requires Valid()
      modifies this
      ensures Valid() && trace == old(trace) + ErrorAndShutdownBytes()
    {
      Clear();
      ShowError();
      ShutdownDisplay();
    }
  }
}
