/** The older LCD driver (display/display.go). It issues the same bytes as
    the current driver, but a failed write calls log.Fatal: the process
    ends, so no byte after the first failed attempt reaches the bus. */
module LegacyDisplay {
  import opened Hd44780
  import opened Bus

  /** The I2C connection and the driver's progress on it. `intended` is
      every byte the driver's code would write if no write failed; `trace`
      is what it actually hands to WriteBytes, and `halted` records that
      log.Fatal has ended the process. */
  class Display {
    const failing: set<nat>
    var trace: seq<bv8>
    var halted: bool
    ghost var intended: seq<bv8>

    ghost predicate Valid()
      reads this
    {
      trace == Sent(failing, intended) && halted == HaltedAfter(failing, |intended|)
    }

    /** A fresh connection whose writes fail at the attempts in `failing`. */
    constructor (failing: set<nat>)
      ensures Valid() && this.failing == failing && trace == [] && intended == [] && !halted
    {
      this.failing := failing;
      trace := [];
      halted := false;
      intended := [];
    }

    /** writeCmd: one byte to the bus; a failure ends the process. */
    method WriteCmd(cmd: bv8)
      requires Valid()
      modifies this
      ensures Valid() && intended == old(intended) + [cmd]
      ensures old(halted) ==> halted && trace == old(trace)
      ensures !halted ==> trace == old(trace) + [cmd]
    {
      HaltedAfterStep(failing, |intended|);
      SentPrefix(failing, intended);
      assert (intended + [cmd])[..|intended|] == intended;
      if !halted {
        var ok := |trace| !in failing;  // connection.WriteBytes
        trace := trace + [cmd];
        if !ok {
          halted := true;  // log.Fatal
        }
      }
      intended := intended + [cmd];
    }

    /** lcdStrobe: EN high, then EN low, backlight on. */
    method LcdStrobe(data: bv8)
      requires Valid()
      modifies this
      ensures Valid() && intended == old(intended) + StrobeBytes(data)
    {
      WriteCmd(data | EnableBit | Backlight);
      WriteCmd((data & !EnableBit) | Backlight);
      AppendAssoc(old(intended), [data | EnableBit | Backlight], [(data & !EnableBit) | Backlight]);
    }

    /** lcdWriteFourBits: the nibble with backlight, then its strobe. */
    method LcdWriteFourBits(data: bv8)
      requires Valid()
      modifies this
      ensures Valid() && intended == old(intended) + FourBitsBytes(data)
    {
      WriteCmd(data | Backlight);
      LcdStrobe(data);
      AppendAssoc(old(intended), [data | Backlight], StrobeBytes(data));
    }

    /** lcdWrite: high nibble, then low nibble, each ORed with the mode. */
    method LcdWrite(cmd: bv8, mode: bv8)
      requires Valid()
      modifies this
      ensures Valid() && intended == old(intended) + Encode(Write(cmd, mode))
    {
      ghost var t := intended;
      LcdWriteFourBits(mode | (cmd & 0xF0));
      LcdWriteFourBits(mode | ((cmd << 4) & 0xF0));
      EncodeHalves(cmd, mode);
      AppendAssoc(t, FourBitsBytes(mode | (cmd & 0xF0)), FourBitsBytes(mode | ((cmd << 4) & 0xF0)));
    }

    /** LcdDisplayString: set the DDRAM address for (line, pos), then send
        each byte of `str` as character data. */
    method LcdDisplayString(str: seq<bv8>, line: bv8, pos: bv8)
      requires Valid()
      modifies this
      ensures Valid() && intended == old(intended) + DisplayStringBytes(str, line, pos)
    {
      var posNew: bv8 := 0;
      if line == 1 {
        posNew := pos;
      } else if line == 2 {
        posNew := 0x40 + pos;
      }
      assert posNew == TwoLineAddress(line, pos);
      ghost var t := intended;
      ghost var first := Write(0x80 + posNew, 0);
      LcdWrite(0x80 + posNew, 0);
      DisplayStringStart(t, first, str, intended);
      var i := 0;
      while i < |str|
        invariant 0 <= i <= |str|
        invariant Valid()
        invariant intended == t + Stream([first] + CharWrites(str[..i]))
      {
        LcdWrite(str[i], RegisterSelectBit);
        DisplayStringStep(t, first, str, i, intended);
        i := i + 1;
      }
      assert str[..|str|] == str;
    }

    /** Reset: the eight instruction writes of the initialisation sequence. */
    method Reset()
      requires Valid()
      modifies this
      ensures Valid() && intended == old(intended) + Stream(ResetWrites)
    {
      ghost var t, ws := intended, [];
      LcdWrite(0x03, 0);
      ws := StreamExtend(t, ws, Write(0x03, 0), intended);
      LcdWrite(0x03, 0);
      ws := StreamExtend(t, ws, Write(0x03, 0), intended);
      LcdWrite(0x03, 0);
      ws := StreamExtend(t, ws, Write(0x03, 0), intended);
      LcdWrite(0x02, 0);
      ws := StreamExtend(t, ws, Write(0x02, 0), intended);
      LcdWrite(FunctionSet | TwoLine | FiveByEightDots | FourBitMode, 0);
      ws := StreamExtend(t, ws, Write(FunctionSet | TwoLine | FiveByEightDots | FourBitMode, 0), intended);
      LcdWrite(DisplayControl | DisplayOn, 0);
      ws := StreamExtend(t, ws, Write(DisplayControl | DisplayOn, 0), intended);
      LcdWrite(ClearDisplay, 0);
      ws := StreamExtend(t, ws, Write(ClearDisplay, 0), intended);
      LcdWrite(EntryModeSet | EntryLeft, 0);
      ws := StreamExtend(t, ws, Write(EntryModeSet | EntryLeft, 0), intended);
      assert ws == ResetWrites;
    }

    /** Clear: clear display, then return home. */
    method Clear()
      requires Valid()
      modifies this
      ensures Valid() && intended == old(intended) + Stream(ClearWrites)
    {
      ghost var t, ws := intended, [];
      LcdWrite(ClearDisplay, 0);
      ws := StreamExtend(t, ws, Write(ClearDisplay, 0), intended);
      LcdWrite(ReturnHome, 0);
      ws := StreamExtend(t, ws, Write(ReturnHome, 0), intended);
      assert ws == ClearWrites;
    }

    /** turnBacklightOff: the raw byte 0x00, which drops the BL pin. */
    method TurnBacklightOff()
      requires Valid()
      modifies this
      ensures Valid() && intended == old(intended) + [NoBacklight]
    {
      WriteCmd(NoBacklight);
    }

    /** turnDisplayOff: the raw byte lcdDisplayOff (0x00). */
    method TurnDisplayOff()
      requires Valid()
      modifies this
      ensures Valid() && intended == old(intended) + [DisplayOff]
    {
      WriteCmd(DisplayOff);
    }

    /** ShutdownDisplay: Clear, backlight off, display off. */
    method ShutdownDisplay()
      requires Valid()
      modifies this
      ensures Valid() && intended == old(intended) + ShutdownBytes()
    {
      Clear();
      TurnBacklightOff();
      TurnDisplayOff();
    }

    /** showError: the two error lines at column 0. */
    method ShowError()
      requires Valid()
      modifies this
      ensures Valid() && intended == old(intended) + ShowErrorBytes()
    {
      LcdDisplayString(Ascii(ErrorTextLine1), 1, 0);
      LcdDisplayString(Ascii(ErrorTextLine2), 2, 0);
    }

    /** ShowLoadingText: the two loading lines at column 0. */
    method ShowLoadingText()
      requires Valid()
      modifies this
      ensures Valid() && intended == old(intended) + LoadingBytes()
    {
      LcdDisplayString(Ascii(LoadingTextLine1), 1, 0);
      LcdDisplayString(Ascii(LoadingTextLine2), 2, 0);
    }

    /** ShowErrorAndShutdown: Clear, showError, (a pause), ShutdownDisplay. */
    method ShowErrorAndShutdown()
      requires Valid()
      modifies this
      ensures Valid() && intended == old(intended) + ErrorAndShutdownBytes()
    {
      Clear();
      ShowError();
      ShutdownDisplay();
    }
  }
}
