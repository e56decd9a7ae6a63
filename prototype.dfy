/** The prototype driver in main.go: the same encoding as the other two
    copies, a fatal write error as in the older driver, a WriteCmd that
    returns the byte count reported by the bus, and a four-line DDRAM
    address table in LcdDisplayString. */
module Prototype {
  import opened Hd44780
  import opened Bus

  /** The I2C connection and the driver's progress on it. `intended` is
      every byte the driver's code would write if no write failed; `trace`
      is what it actually hands to WriteBytes, and `halted` records that
      log.Fatal has ended the process. */
  class Display {
    const failing: set<nat>
    var trace: seq<bv8>
    var halted: bool
    ghost var intended: seq<bv8>

    ghost predicate Valid()
      reads this
    {
      trace == Sent(failing, intended) && halted == HaltedAfter(failing, |intended|)
    }

    /** A fresh connection whose writes fail at the attempts in `failing`. */
    constructor (failing: set<nat>)
      ensures Valid() && this.failing == failing && trace == [] && intended == [] && !halted
    {
      this.failing := failing;
      trace := [];
      halted := false;
      intended := [];
    }

    /** WriteCmd: one byte to the bus; a failure ends the process.
        `res` is the number of bytes the bus reports written, 1 on
        success; once the process has ended no result reaches a caller,
        and the model then returns 0. */
    method WriteCmd(cmd: bv8) returns (res: int)
      requires Valid()
      modifies this
      ensures Valid() && intended == old(intended) + [cmd]
      ensures old(halted) ==> halted && trace == old(trace)
      ensures !halted ==> trace == old(trace) + [cmd]
      ensures res == (if halted then 0 else 1)
    {
      res := 0;
      HaltedAfterStep(failing, |intended|);
      SentPrefix(failing, intended);
      assert (intended + [cmd])[..|intended|] == intended;
      if !halted {
        var ok := |trace| !in failing;  // connection.WriteBytes
        trace := trace + [cmd];
        if !ok {
          halted := true;  // log.Fatal
        } else {
          res := 1;
        }
      }
      intended := intended + [cmd];
    }

    /** LcdStrobe: EN high, then EN low, backlight on. */
    method LcdStrobe(data: bv8)
      requires Valid()
      modifies this
      ensures Valid() && intended == old(intended) + StrobeBytes(data)
    {
      var _ := WriteCmd(data | EnableBit | Backlight);
      var _ := WriteCmd((data & !EnableBit) | Backlight);
      AppendAssoc(old(intended), [data | EnableBit | Backlight], [(data & !EnableBit) | Backlight]);
    }

    /** LcdWriteFourBits: the nibble with backlight, then its strobe. */
    method LcdWriteFourBits(data: bv8)
      requires Valid()
      modifies this
      ensures Valid() && intended == old(intended) + FourBitsBytes(data)
    {
      var _ := WriteCmd(data | Backlight);
      LcdStrobe(data);
      AppendAssoc(old(intended), [data | Backlight], StrobeBytes(data));
    }

    /** LcdWrite: high nibble, then low nibble, each ORed with the mode. */
    method LcdWrite(cmd: bv8, mode: bv8)
      requires Valid()
      modifies this
      ensures Valid() && intended == old(intended) + Encode(Write(cmd, mode))
    {
      ghost var t := intended;
      LcdWriteFourBits(mode | (cmd & 0xF0));
      LcdWriteFourBits(mode | ((cmd << 4) & 0xF0));
      EncodeHalves(cmd, mode);
      AppendAssoc(t, FourBitsBytes(mode | (cmd & 0xF0)), FourBitsBytes(mode | ((cmd << 4) & 0xF0)));
    }

    /** LcdWriteChar: a character (or any byte) with the given mode; the
        same two nibble writes as LcdWrite. */
    method LcdWriteChar(charValue: bv8, mode: bv8)
      requires Valid()
      modifies this
      ensures Valid() && intended == old(intended) + Encode(Write(charValue, mode))
    {
      ghost var t := intended;
      LcdWriteFourBits(mode | (charValue & 0xF0));
      LcdWriteFourBits(mode | ((charValue << 4) & 0xF0));
      EncodeHalves(charValue, mode);
      AppendAssoc(t, FourBitsBytes(mode | (charValue & 0xF0)), FourBitsBytes(mode | ((charValue << 4) & 0xF0)));
    }

    /** The DDRAM address LcdDisplayString computes for (line, pos), with
        its four-way branch on the line; any other line gives address 0.
        (The branch is inline in lcdDisplayString; it is a method of its
        own here only to keep LcdDisplayString's proof small.) Every cell of
        a 20-by-4 panel lands in DDRAM, below the 0x80 where the address
        instruction would wrap. */
    static method LineAddress(line: bv8, pos: bv8) returns (posNew: bv8)
      ensures posNew == FourLineAddress(line, pos)
      ensures 1 <= line <= 4 && pos < 20 ==> posNew < 0x28 || 0x40 <= posNew < 0x68
    {
      posNew := 0;
      if line == 1 {
        posNew := pos;
      } else if line == 2 {
        posNew := 0x40 + pos;
      } else if line == 3 {
        posNew := 0x14 + pos;
      } else if line == 4 {
        posNew := 0x54 + pos;
      }
    }

    /** LcdDisplayString: set the DDRAM address for (line, pos), then send
        each byte of `str` as character data. */
    method LcdDisplayString(str: seq<bv8>, line: bv8, pos: bv8)
      requires Valid()
      modifies this
      ensures Valid() && intended == old(intended) + FourLineDisplayStringBytes(str, line, pos)
    {
      var posNew := LineAddress(line, pos);
      ghost var t := intended;
      ghost var first := Write(0x80 + posNew, 0);
      LcdWrite(0x80 + posNew, 0);
      DisplayStringStart(t, first, str, intended);
      var i := 0;
      while i < |str|
        invariant 0 <= i <= |str|
        invariant Valid()
        invariant intended == t + Stream([first] + CharWrites(str[..i]))
      {
        LcdWrite(str[i], RegisterSelectBit);
        DisplayStringStep(t, first, str, i, intended);
        i := i + 1;
      }
      assert str[..|str|] == str;
    }

    /** Reset: the eight instruction writes of the initialisation sequence. */
    method Reset()
      requires Valid()
      modifies this
      ensures Valid() && intended == old(intended) + Stream(ResetWrites)
    {
      ghost var t, ws := intended, [];
      LcdWrite(0x03, 0);
      ws := StreamExtend(t, ws, Write(0x03, 0), intended);
      LcdWrite(0x03, 0);
      ws := StreamExtend(t, ws, Write(0x03, 0), intended);
      LcdWrite(0x03, 0);
      ws := StreamExtend(t, ws, Write(0x03, 0), intended);
      LcdWrite(0x02, 0);
      ws := StreamExtend(t, ws, Write(0x02, 0), intended);
      LcdWrite(FunctionSet | TwoLine | FiveByEightDots | FourBitMode, 0);
      ws := StreamExtend(t, ws, Write(FunctionSet | TwoLine | FiveByEightDots | FourBitMode, 0), intended);
      LcdWrite(DisplayControl | DisplayOn, 0);
      ws := StreamExtend(t, ws, Write(DisplayControl | DisplayOn, 0), intended);
      LcdWrite(ClearDisplay, 0);
      ws := StreamExtend(t, ws, Write(ClearDisplay, 0), intended);
      LcdWrite(EntryModeSet | EntryLeft, 0);
      ws := StreamExtend(t, ws, Write(EntryModeSet | EntryLeft, 0), intended);
      assert ws == ResetWrites;
    }

    /** Clear: clear display, then return home. */
    method Clear()
      requires Valid()
      modifies this
      ensures Valid() && intended == old(intended) + Stream(ClearWrites)
    {
      ghost var t, ws := intended, [];
      LcdWrite(ClearDisplay, 0);
      ws := StreamExtend(t, ws, Write(ClearDisplay, 0), intended);
      LcdWrite(ReturnHome, 0);
      ws := StreamExtend(t, ws, Write(ReturnHome, 0), intended);
      assert ws == ClearWrites;
    }
  }

  /** The bytes the prototype LcdDisplayString means to send. */
  function FourLineDisplayStringBytes(str: seq<bv8>, line: bv8, pos: bv8): seq<bv8> {
    Stream(DisplayStringWrites(str, FourLineAddress(line, pos)))
  }
}
