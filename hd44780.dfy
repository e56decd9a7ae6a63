/** The byte-level protocol shared by the three LCD drivers of BoostPi.

    An HD44780 character LCD is wired in 4-bit mode behind an 8-bit I2C GPIO
    expander. Every byte written to the expander sets its eight output pins,
    laid out D7 D6 D5 D4 BL - EN RS: the upper nibble carries data, bit 3
    drives the backlight, bit 2 is the enable strobe and bit 0 the register
    select (0 = instruction, 1 = character data). The controller latches the
    data nibble and RS on the falling edge of EN.

    This module holds the opcode and flag constants, the encoding of one
    8-bit write into six expander bytes, the concatenation of many writes,
    a controller-side decoder (which nibbles the controller latches from a
    byte stream and which writes it reassembles from them), and the fixed
    write lists every driver revision issues. */
module Hd44780 {

  // Instructions
  const ClearDisplay: bv8 := 0x01
  const ReturnHome: bv8 := 0x02
  const EntryModeSet: bv8 := 0x04
  const DisplayControl: bv8 := 0x08
  const FunctionSet: bv8 := 0x20
  const SetDdramAddress: bv8 := 0x80

  // Flags for entry mode set
  const EntryLeft: bv8 := 0x02

  // Flags for display on/off control
  const DisplayOn: bv8 := 0x04
  const DisplayOff: bv8 := 0x00

  // Flags for function set
  const FourBitMode: bv8 := 0x00
  const TwoLine: bv8 := 0x08
  const FiveByEightDots: bv8 := 0x00

  // Expander pins: backlight, enable strobe, register select
  const Backlight: bv8 := 0x08
  const NoBacklight: bv8 := 0x00
  const EnableBit: bv8 := 0x04
  const RegisterSelectBit: bv8 := 0x01

  /** One 8-bit transfer to the controller: an instruction (mode 0) or a
      character (mode RegisterSelectBit), sent as two nibbles. */
  datatype Write = Write(value: bv8, mode: bv8)

  /** The modes the drivers pass: instruction or character data. */
  predicate ValidMode(mode: bv8) {
    mode == 0 || mode == RegisterSelectBit
  }

  predicate ValidWrites(ws: seq<Write>) {
    forall k :: 0 <= k < |ws| ==> ValidMode(ws[k].mode)
  }

  /** The two bytes of an enable pulse for `data`: EN high, then EN low,
      both with the backlight on. */
  function StrobeBytes(data: bv8): seq<bv8> {
    [data | EnableBit | Backlight, (data & !EnableBit) | Backlight]
  }

  /** The three bytes that put one nibble on the bus and strobe it. */
  function FourBitsBytes(data: bv8): seq<bv8> {
    [data | Backlight] + StrobeBytes(data)
  }

  /** The data for the first nibble transfer: the value's high nibble on
      D7-D4, ORed with the mode. */
  function HighHalf(w: Write): bv8 {
    w.mode | (w.value & 0xF0)
  }

  /** The data for the second transfer: the low nibble, shifted up (the
      8-bit shift drops the high nibble), ORed with the mode. */
  function LowHalf(w: Write): bv8 {
    w.mode | ((w.value << 4) & 0xF0)
  }

  /** The six expander bytes of one 8-bit write: high nibble first. */
  function Encode(w: Write): seq<bv8> {
    FourBitsBytes(HighHalf(w)) + FourBitsBytes(LowHalf(w))
  }

  /** Encode in the terms lcdWrite computes it in. */
  lemma EncodeHalves(cmd: bv8, mode: bv8)
    ensures Encode(Write(cmd, mode)) == FourBitsBytes(mode | (cmd & 0xF0)) + FourBitsBytes(mode | ((cmd << 4) & 0xF0))
  {
    assert HighHalf(Write(cmd, mode)) == mode | (cmd & 0xF0);
    assert LowHalf(Write(cmd, mode)) == mode | ((cmd << 4) & 0xF0);
  }

  /** The expander bytes of a sequence of writes, issued in order. */
  function Stream(ws: seq<Write>): (r: seq<bv8>)
    ensures |r| == 6 * |ws|
    decreases |ws|
  {
    if ws == [] then [] else Stream(ws[..|ws| - 1]) + Encode(ws[|ws| - 1])
  }

  lemma {:induction false} StreamAppend(a: seq<Write>, b: seq<Write>)
    ensures Stream(a + b) == Stream(a) + Stream(b)
    decreases |b|
  {
    if b == [] {
      assert a + b == a;
    } else {
      var b' := b[..|b| - 1];
      assert (a + b)[..|a + b| - 1] == a + b';
      assert (a + b)[|a + b| - 1] == b[|b| - 1];
      StreamAppend(a, b');
    }
  }

  lemma StreamSnoc(ws: seq<Write>, w: Write)
    ensures Stream(ws + [w]) == Stream(ws) + Encode(w)
  {
    assert (ws + [w])[..|ws|] == ws;
  }

  /** One more write on top of a stream already sent after `prefix`. */
  lemma StreamExtend(prefix: seq<bv8>, ws: seq<Write>, w: Write, trace: seq<bv8>) returns (ws': seq<Write>)
    requires trace == prefix + Stream(ws) + Encode(w)
    ensures ws' == ws + [w] && trace == prefix + Stream(ws')
  {
    ws' := ws + [w];
    StreamSnoc(ws, w);
    AppendAssoc(prefix, Stream(ws), Encode(w));
  }

  lemma AppendAssoc<T>(a: seq<T>, b: seq<T>, c: seq<T>)
    ensures a + b + c == a + (b + c)
  {
  }

  /** Every byte of Encode(w) keeps the backlight on and carries the mode in
      bit 0; EN is high on the middle byte of each triple only; the first
      triple carries the value's high nibble and the second its low nibble. */
  lemma EncodeBytes(w: Write)
    requires ValidMode(w.mode)
    ensures |Encode(w)| == 6
    ensures forall k :: 0 <= k < 6 ==> Encode(w)[k] & Backlight == Backlight
    ensures forall k :: 0 <= k < 6 ==> Encode(w)[k] & RegisterSelectBit == w.mode
    ensures forall k :: 0 <= k < 6 ==> (Encode(w)[k] & EnableBit != 0 <==> k == 1 || k == 4)
    ensures forall k :: 0 <= k < 3 ==> Encode(w)[k] & 0xF0 == w.value & 0xF0
    ensures forall k :: 3 <= k < 6 ==> Encode(w)[k] >> 4 == w.value & 0x0F
  {
    EncodePins(w);
    EncodeEnable(w);
    EncodeData(w);
  }

  lemma EncodePins(w: Write)
    requires ValidMode(w.mode)
    ensures forall k :: 0 <= k < 6 ==> Encode(w)[k] & Backlight == Backlight
    ensures forall k :: 0 <= k < 6 ==> Encode(w)[k] & RegisterSelectBit == w.mode
  {
    var hi, lo := HighHalf(w), LowHalf(w);
    var f, g := FourBitsBytes(hi), FourBitsBytes(lo);
    FourBitsPins(hi);
    FourBitsPins(lo);
    assert hi & RegisterSelectBit == w.mode && lo & RegisterSelectBit == w.mode;
    forall k | 0 <= k < 6
      ensures Encode(w)[k] & Backlight == Backlight && Encode(w)[k] & RegisterSelectBit == w.mode
    {
      if k < 3 {
        assert Encode(w)[k] == f[k];
      } else {
        assert Encode(w)[k] == g[k - 3];
      }
    }
  }

  lemma EncodeEnable(w: Write)
    requires ValidMode(w.mode)
    ensures forall k :: 0 <= k < 6 ==> (Encode(w)[k] & EnableBit != 0 <==> k == 1 || k == 4)
  {
    var hi, lo := HighHalf(w), LowHalf(w);
    var f, g := FourBitsBytes(hi), FourBitsBytes(lo);
    assert hi & EnableBit == 0 && lo & EnableBit == 0;
    FourBitsPins(hi);
    FourBitsPins(lo);
    forall k | 0 <= k < 6
      ensures Encode(w)[k] & EnableBit != 0 <==> k == 1 || k == 4
    {
      if k < 3 {
        assert Encode(w)[k] == f[k];
      } else {
        assert Encode(w)[k] == g[k - 3];
      }
    }
  }

  lemma EncodeData(w: Write)
    requires ValidMode(w.mode)
    ensures forall k :: 0 <= k < 3 ==> Encode(w)[k] & 0xF0 == w.value & 0xF0
    ensures forall k :: 3 <= k < 6 ==> Encode(w)[k] >> 4 == w.value & 0x0F
  {
    var hi, lo := HighHalf(w), LowHalf(w);
    var f, g := FourBitsBytes(hi), FourBitsBytes(lo);
    FourBitsData(hi);
    FourBitsData(lo);
    assert hi & 0xF0 == w.value & 0xF0 && lo >> 4 == w.value & 0x0F;
    forall k | 0 <= k < 6
      ensures k < 3 ==> Encode(w)[k] & 0xF0 == w.value & 0xF0
      ensures 3 <= k ==> Encode(w)[k] >> 4 == w.value & 0x0F
    {
      if k < 3 {
        assert Encode(w)[k] == f[k];
      } else {
        assert Encode(w)[k] == g[k - 3];
      }
    }
  }

  /** The three bytes of one nibble transfer: BL high and the data's RS on
      all three; EN high on the middle one only, if the data has EN low. */
  lemma FourBitsPins(d: bv8)
    ensures |FourBitsBytes(d)| == 3
    ensures forall k :: 0 <= k < 3 ==> FourBitsBytes(d)[k] & Backlight == Backlight
    ensures forall k :: 0 <= k < 3 ==> FourBitsBytes(d)[k] & RegisterSelectBit == d & RegisterSelectBit
    ensures d & EnableBit == 0 ==> forall k :: 0 <= k < 3 ==> (FourBitsBytes(d)[k] & EnableBit != 0 <==> k == 1)
  {
    var f := FourBitsBytes(d);
    assert f[0] == d | Backlight && f[1] == d | EnableBit | Backlight && f[2] == (d & !EnableBit) | Backlight;
    PinBits(d, f[0]);
    PinBits(d, f[1]);
    PinBits(d, f[2]);
    EnableBits(d);
  }

  /** The data's D7-D4 on all three bytes of a nibble transfer. */
  lemma FourBitsData(d: bv8)
    ensures |FourBitsBytes(d)| == 3
    ensures forall k :: 0 <= k < 3 ==> FourBitsBytes(d)[k] & 0xF0 == d & 0xF0
    ensures forall k :: 0 <= k < 3 ==> FourBitsBytes(d)[k] >> 4 == d >> 4
  {
    var f := FourBitsBytes(d);
    assert f[0] == d | Backlight && f[1] == d | EnableBit | Backlight && f[2] == (d & !EnableBit) | Backlight;
    PinBits(d, f[0]);
    PinBits(d, f[1]);
    PinBits(d, f[2]);
  }

  /** The pins that setting BL and setting or clearing EN leave alone. */
  lemma PinBits(d: bv8, b: bv8)
    requires b == d | Backlight || b == d | EnableBit | Backlight || b == (d & !EnableBit) | Backlight
    ensures b & Backlight == Backlight
    ensures b & RegisterSelectBit == d & RegisterSelectBit
    ensures b & 0xF0 == d & 0xF0 && b >> 4 == d >> 4
  {
  }

  /** EN on the three bytes of a nibble transfer: as in the data, high, low. */
  lemma EnableBits(d: bv8)
    ensures (d | Backlight) & EnableBit == d & EnableBit
    ensures (d | EnableBit | Backlight) & EnableBit != 0
    ensures ((d & !EnableBit) | Backlight) & EnableBit == 0
  {
  }

  // ---------------------------------------------------------------------
  // The controller's view of a byte stream

  /** A nibble latched by the controller, with the register select level. */
  datatype Latch = Latch(registerSelect: bool, nibble: bv8)

  predicate FallingEdge(before: bv8, after: bv8) {
    before & EnableBit != 0 && after & EnableBit == 0
  }

  /** The nibbles the controller latches from consecutive expander bytes:
      one per falling edge of EN, with the data and RS present while EN
      was high. */
  function Latched(t: seq<bv8>): seq<Latch>
    decreases |t|
  {
    if |t| < 2 then [] else LatchAt(t[0], t[1]) + Latched(t[1..])
  }

  /** What the controller latches between two consecutive bytes. */
  function LatchAt(before: bv8, after: bv8): seq<Latch> {
    if FallingEdge(before, after) then [Latch(before & RegisterSelectBit != 0, before >> 4)] else []
  }

  /** The two nibbles, high first, that one write should deliver. */
  function WriteNibbles(w: Write): seq<Latch> {
    [Latch(w.mode == RegisterSelectBit, w.value >> 4), Latch(w.mode == RegisterSelectBit, w.value & 0x0F)]
  }

  function Nibbles(ws: seq<Write>): (r: seq<Latch>)
    ensures |r| == 2 * |ws|
    decreases |ws|
  {
    if ws == [] then [] else Nibbles(ws[..|ws| - 1]) + WriteNibbles(ws[|ws| - 1])
  }

  /** Reassembles 8-bit writes from latched nibble pairs, as the controller
      does in 4-bit mode. */
  function Assemble(ls: seq<Latch>): seq<Write>
    decreases |ls|
  {
    if |ls| < 2 then []
    else
      [Write((ls[0].nibble << 4) | (ls[1].nibble & 0x0F), if ls[0].registerSelect then RegisterSelectBit else 0)]
      + Assemble(ls[2..])
  }

  /** A stream that ends with EN low never gets a spurious edge from what
      follows it, so the latched nibbles of a concatenation concatenate. */
  lemma {:induction false} LatchedAppend(a: seq<bv8>, b: seq<bv8>)
    requires a == [] || a[|a| - 1] & EnableBit == 0
    ensures Latched(a + b) == Latched(a) + Latched(b)
    decreases |a|
  {
    if a == [] {
      assert a + b == b;
    } else if |a| == 1 {
      if |b| >= 1 {
        assert (a + b)[1..] == b;
      }
    } else {
      assert (a + b)[1..] == a[1..] + b;
      assert (a + b)[0] == a[0] && (a + b)[1] == a[1];
      LatchedAppend(a[1..], b);
    }
  }

  /** The controller latches exactly two nibbles from one write: the value's
      high nibble, then its low nibble, with RS equal to the mode. */
  lemma EncodeLatches(w: Write)
    requires ValidMode(w.mode)
    ensures Latched(Encode(w)) == WriteNibbles(w)
  {
    var hi, lo := HighHalf(w), LowHalf(w);
    HalvesBits(w.value, w.mode);
    FourBitsLatch(hi);
    FourBitsLatch(lo);
    LatchedAppend(FourBitsBytes(hi), FourBitsBytes(lo));
  }

  /** The two transfers of a write carry EN low, RS as the mode, and the
      value's high and low nibbles on D7-D4. */
  lemma HalvesBits(value: bv8, mode: bv8)
    requires ValidMode(mode)
    ensures HighHalf(Write(value, mode)) & EnableBit == 0 && LowHalf(Write(value, mode)) & EnableBit == 0
    ensures HighHalf(Write(value, mode)) >> 4 == value >> 4 && LowHalf(Write(value, mode)) >> 4 == value & 0x0F
    ensures (HighHalf(Write(value, mode)) & RegisterSelectBit != 0) == (mode == RegisterSelectBit)
    ensures (LowHalf(Write(value, mode)) & RegisterSelectBit != 0) == (mode == RegisterSelectBit)
  {
  }

  /** One nibble transfer delivers exactly one latched nibble. */
  lemma FourBitsLatch(data: bv8)
    requires data & EnableBit == 0
    ensures Latched(FourBitsBytes(data)) == [Latch(data & RegisterSelectBit != 0, data >> 4)]
  {
    var f := FourBitsBytes(data);
    assert f[1..] == [f[1], f[2]];
    assert f[1..][1..] == [f[2]];
    assert Latched(f[1..]) == LatchAt(f[1], f[2]);
    assert LatchAt(f[0], f[1]) == [];
    assert f[1] & RegisterSelectBit == data & RegisterSelectBit && f[1] >> 4 == data >> 4;
  }

  lemma StreamEndsEnableLow(ws: seq<Write>)
    requires ws != []
    ensures Stream(ws)[|Stream(ws)| - 1] & EnableBit == 0
  {
    var w := ws[|ws| - 1];
    assert Stream(ws)[|Stream(ws)| - 1] == Encode(w)[5];
  }

  /** The controller latches, from the stream of a list of writes, exactly
      the nibbles of those writes in order. */
  lemma {:induction false} StreamLatches(ws: seq<Write>)
    requires ValidWrites(ws)
    ensures Latched(Stream(ws)) == Nibbles(ws)
    decreases |ws|
  {
    if ws != [] {
      var ws' := ws[..|ws| - 1];
      var w := ws[|ws| - 1];
      assert ValidWrites(ws') by {
        forall k | 0 <= k < |ws'| ensures ValidMode(ws'[k].mode) {
          assert ws'[k] == ws[k];
        }
      }
      StreamLatches(ws');
      if ws' != [] {
        StreamEndsEnableLow(ws');
      }
      LatchedAppend(Stream(ws'), Encode(w));
      EncodeLatches(w);
    }
  }

  lemma {:induction false} AssembleAppend(a: seq<Latch>, b: seq<Latch>)
    requires |a| % 2 == 0
    ensures Assemble(a + b) == Assemble(a) + Assemble(b)
    decreases |a|
  {
    if a == [] {
      assert a + b == b;
    } else {
      assert (a + b)[2..] == a[2..] + b;
      assert (a + b)[0] == a[0] && (a + b)[1] == a[1];
      AssembleAppend(a[2..], b);
    }
  }

  lemma WriteNibblesAssemble(w: Write)
    requires ValidMode(w.mode)
    ensures Assemble(WriteNibbles(w)) == [w]
  {
    var ls := WriteNibbles(w);
    assert ls[2..] == [];
  }

  lemma {:induction false} NibblesAssemble(ws: seq<Write>)
    requires ValidWrites(ws)
    ensures Assemble(Nibbles(ws)) == ws
    decreases |ws|
  {
    if ws != [] {
      var ws' := ws[..|ws| - 1];
      var w := ws[|ws| - 1];
      assert ValidWrites(ws') by {
        forall k | 0 <= k < |ws'| ensures ValidMode(ws'[k].mode) {
          assert ws'[k] == ws[k];
        }
      }
      NibblesAssemble(ws');
      AssembleAppend(Nibbles(ws'), WriteNibbles(w));
      WriteNibblesAssemble(w);
      assert ws == ws' + [w];
    }
  }

  /** Round trip: the controller reassembles from the expander bytes of a
      list of writes exactly that list of instructions and characters. */
  lemma StreamRoundTrip(ws: seq<Write>)
    requires ValidWrites(ws)
    ensures Assemble(Latched(Stream(ws))) == ws
  {
    StreamLatches(ws);
    NibblesAssemble(ws);
  }

  // ---------------------------------------------------------------------
  // DDRAM addressing

  /** The address table of the two-line drivers: line 1 starts at 0x00,
      line 2 at 0x40, any other line maps to 0. Arithmetic wraps at 8 bits. */
  function TwoLineAddress(line: bv8, pos: bv8): bv8 {
    if line == 1 then pos else if line == 2 then 0x40 + pos else 0
  }

  /** The address table of the four-line prototype: 0x00, 0x40, 0x14, 0x54. */
  function FourLineAddress(line: bv8, pos: bv8): bv8 {
    if line == 1 then pos
    else if line == 2 then 0x40 + pos
    else if line == 3 then 0x14 + pos
    else if line == 4 then 0x54 + pos
    else 0
  }

  /** The set-DDRAM-address instruction followed by one character write per
      byte of `str`, in order. */
  function DisplayStringWrites(str: seq<bv8>, address: bv8): (ws: seq<Write>)
    ensures ValidWrites(ws)
  {
    [Write(0x80 + address, 0)] + CharWrites(str)
  }

  /** One character-data write (RS set) per byte of `str`. */
  function CharWrites(str: seq<bv8>): (ws: seq<Write>)
    ensures |ws| == |str| && ValidWrites(ws)
    ensures forall k :: 0 <= k < |str| ==> ws[k] == Write(str[k], RegisterSelectBit)
  {
    if str == [] then [] else CharWrites(str[..|str| - 1]) + [Write(str[|str| - 1], RegisterSelectBit)]
  }

  /** LcdDisplayString's address write, on the byte stream. */
  lemma DisplayStringStart(prefix: seq<bv8>, first: Write, str: seq<bv8>, trace: seq<bv8>)
    requires trace == prefix + Encode(first)
    ensures trace == prefix + Stream([first] + CharWrites(str[..0]))
  {
    assert str[..0] == [];
    assert [first] + CharWrites(str[..0]) == [first];
    StreamSingle(first);
  }

  lemma StreamSingle(w: Write)
    ensures Stream([w]) == Encode(w)
  {
    assert [w][..0] == [];
    assert Stream([w]) == Stream([]) + Encode(w);
  }

  /** One more character of LcdDisplayString's loop, on the byte stream. */
  lemma DisplayStringStep(prefix: seq<bv8>, first: Write, str: seq<bv8>, i: nat, trace: seq<bv8>)
    requires i < |str|
    requires trace == prefix + Stream([first] + CharWrites(str[..i])) + Encode(Write(str[i], RegisterSelectBit))
    ensures trace == prefix + Stream([first] + CharWrites(str[..i + 1]))
  {
    var ws' := StreamExtend(prefix, [first] + CharWrites(str[..i]), Write(str[i], RegisterSelectBit), trace);
    CharWritesSnoc(str, i);
    AppendAssoc([first], CharWrites(str[..i]), [Write(str[i], RegisterSelectBit)]);
  }

  lemma CharWritesSnoc(str: seq<bv8>, i: nat)
    requires i < |str|
    ensures CharWrites(str[..i + 1]) == CharWrites(str[..i]) + [Write(str[i], RegisterSelectBit)]
  {
    assert str[..i + 1][..i] == str[..i];
  }

  // ---------------------------------------------------------------------
  // Fixed sequences

  /** Reset: three 0x03 writes, one 0x02 write, then function set (4-bit,
      two lines, 5x8 dots), display on, clear display and entry mode left.
      Each 0x03 and 0x02 write is two nibbles, 0x0 then the digit. */
  const ResetWrites: seq<Write> := [
    Write(0x03, 0), Write(0x03, 0), Write(0x03, 0), Write(0x02, 0),
    Write(FunctionSet | TwoLine | FiveByEightDots | FourBitMode, 0),
    Write(DisplayControl | DisplayOn, 0),
    Write(ClearDisplay, 0),
    Write(EntryModeSet | EntryLeft, 0)
  ]

  /** Clear: clear display, then return home. */
  const ClearWrites: seq<Write> := [Write(ClearDisplay, 0), Write(ReturnHome, 0)]

  /** ShutdownDisplay: Clear, then the raw bytes of turnBacklightOff and
      turnDisplayOff, each a single expander byte with no enable pulse. */
  function ShutdownBytes(): seq<bv8> {
    Stream(ClearWrites) + [NoBacklight] + [DisplayOff]
  }

  /** The bytes of a Go string whose characters are all ASCII, as the
      drivers' literals and the rendered telemetry lines are. Other
      characters are reduced modulo 256 (Go would send their UTF-8 bytes;
      no caller in the model passes one). */
  function Ascii(s: string): (b: seq<bv8>)
    ensures |b| == |s|
    ensures forall k :: 0 <= k < |s| && s[k] as int < 128 ==> b[k] as int == s[k] as int
  {
    seq(|s|, k requires 0 <= k < |s| => (s[k] as int % 256) as bv8)
  }

  const LoadingTextLine1: string := "----BoostPi-----"
  const LoadingTextLine2: string := "----Loading-----"
  const ErrorTextLine1: string := "ERROR"
  const ErrorTextLine2: string := "SHUTTING DOWN"

  /** LcdDisplayString(str, line, pos) on the two-line drivers. */
  function DisplayStringBytes(str: seq<bv8>, line: bv8, pos: bv8): seq<bv8> {
    Stream(DisplayStringWrites(str, TwoLineAddress(line, pos)))
  }

  /** showError: "ERROR" on line 1 and "SHUTTING DOWN" on line 2, column 0. */
  function ShowErrorBytes(): seq<bv8> {
    DisplayStringBytes(Ascii(ErrorTextLine1), 1, 0) + DisplayStringBytes(Ascii(ErrorTextLine2), 2, 0)
  }

  /** ShowLoadingText: the two loading lines at column 0. */
  function LoadingBytes(): seq<bv8> {
    DisplayStringBytes(Ascii(LoadingTextLine1), 1, 0) + DisplayStringBytes(Ascii(LoadingTextLine2), 2, 0)
  }

  /** ShowErrorAndShutdown: Clear, showError, ShutdownDisplay. */
  function ErrorAndShutdownBytes(): seq<bv8> {
    Stream(ClearWrites) + ShowErrorBytes() + ShutdownBytes()
  }
}
