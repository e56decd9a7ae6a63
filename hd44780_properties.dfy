/** Properties of the byte streams the drivers issue, stated both on the
    expander bytes and on what the HD44780 controller makes of them. */
module Hd44780Properties {
  import opened Hd44780

  // ---------------------------------------------------------------------
  // The fixed sequences, written out

  /** Reset issues, in mode 0, the writes 0x03, 0x03, 0x03, 0x02, 0x28,
      0x0C, 0x01, 0x06: 48 expander bytes. */
  lemma ResetStream()
    ensures |Stream(ResetWrites)| == 48
    ensures Stream(ResetWrites)
         == Encode(Write(0x03, 0)) + Encode(Write(0x03, 0)) + Encode(Write(0x03, 0)) + Encode(Write(0x02, 0))
          + Encode(Write(0x28, 0)) + Encode(Write(0x0C, 0)) + Encode(Write(0x01, 0)) + Encode(Write(0x06, 0))
  {
    EightWrites(ResetWrites);
  }

  /** The stream of eight writes, write by write. */
  lemma EightWrites(r: seq<Write>)
    requires |r| == 8
    ensures Stream(r)
         == Encode(r[0]) + Encode(r[1]) + Encode(r[2]) + Encode(r[3])
          + Encode(r[4]) + Encode(r[5]) + Encode(r[6]) + Encode(r[7])
  {
    StreamSingle(r[0]);
    assert [r[0]] == r[..1];
    StreamPrefixStep(r, 1);
    StreamPrefixStep(r, 2);
    StreamPrefixStep(r, 3);
    StreamPrefixStep(r, 4);
    StreamPrefixStep(r, 5);
    StreamPrefixStep(r, 6);
    StreamPrefixStep(r, 7);
    assert r[..8] == r;
  }

  /** One more write of a list, taken from the front. */
  lemma StreamPrefixStep(r: seq<Write>, i: nat)
    requires i < |r|
    ensures Stream(r[..i + 1]) == Stream(r[..i]) + Encode(r[i])
  {
    StreamSnoc(r[..i], r[i]);
    assert r[..i] + [r[i]] == r[..i + 1];
  }

  /** Clear issues clear display (0x01), then return home (0x02): 12 bytes. */
  lemma ClearStream()
    ensures |Stream(ClearWrites)| == 12
    ensures Stream(ClearWrites) == Encode(Write(0x01, 0)) + Encode(Write(0x02, 0))
    ensures Assemble(Latched(Stream(ClearWrites))) == ClearWrites
  {
    assert ValidWrites(ClearWrites);
    StreamRoundTrip(ClearWrites);
    StreamSnoc([], ClearWrites[0]);
    StreamSnoc(ClearWrites[..1], ClearWrites[1]);
    assert [] + [ClearWrites[0]] == ClearWrites[..1];
    assert ClearWrites[..1] + [ClearWrites[1]] == ClearWrites;
  }

  /** The nibbles the controller latches during Reset, all with RS low:
      0x03 is sent as 0x0 then 0x3, so the three "wake-up" writes of the
      datasheet's 4-bit initialisation reach the controller as six
      nibbles 0, 3, 0, 3, 0, 3. */
  const ResetNibbleValues: seq<bv8> := [0x0, 0x3, 0x0, 0x3, 0x0, 0x3, 0x0, 0x2, 0x2, 0x8, 0x0, 0xC, 0x0, 0x1, 0x0, 0x6]

  lemma {:induction false} NibblesIndex(ws: seq<Write>, k: nat)
    requires k < 2 * |ws|
    ensures Nibbles(ws)[k] == WriteNibbles(ws[k / 2])[k % 2]
    decreases |ws|
  {
    var n := |ws| - 1;
    if k < 2 * n {
      NibblesIndex(ws[..n], k);
    }
  }

  lemma ResetLatches()
    ensures |Latched(Stream(ResetWrites))| == 16
    ensures forall k :: 0 <= k < 16 ==> Latched(Stream(ResetWrites))[k] == Latch(false, ResetNibbleValues[k])
  {
    assert ValidWrites(ResetWrites);
    StreamLatches(ResetWrites);
    forall k | 0 <= k < 16
      ensures Nibbles(ResetWrites)[k] == Latch(false, ResetNibbleValues[k])
    {
      NibblesIndex(ResetWrites, k);
    }
  }

  // ---------------------------------------------------------------------
  // Raw bytes without an enable pulse

  /** Bytes with EN low throughout give the controller no falling edge. */
  lemma {:induction false} NoEnableNoLatch(raw: seq<bv8>)
    requires forall k :: 0 <= k < |raw| ==> raw[k] & EnableBit == 0
    ensures Latched(raw) == []
    decreases |raw|
  {
    if |raw| >= 2 {
      NoEnableNoLatch(raw[1..]);
    }
  }

  /** A list of writes followed by raw EN-low bytes: the controller
      reassembles exactly the writes, and the raw bytes change nothing. */
  lemma StreamThenRaw(ws: seq<Write>, raw: seq<bv8>)
    requires ValidWrites(ws)
    requires forall k :: 0 <= k < |raw| ==> raw[k] & EnableBit == 0
    ensures Latched(Stream(ws) + raw) == Nibbles(ws)
    ensures Assemble(Latched(Stream(ws) + raw)) == ws
  {
    if ws != [] {
      StreamEndsEnableLow(ws);
    }
    LatchedAppend(Stream(ws), raw);
    NoEnableNoLatch(raw);
    StreamLatches(ws);
    NibblesAssemble(ws);
    assert Nibbles(ws) + [] == Nibbles(ws);
  }

  /** ShutdownDisplay's two raw 0x00 bytes drop every expander pin, the
      backlight included, but carry no enable pulse: the controller
      receives only clear display and return home, and never a display-off
      instruction. */
  lemma ShutdownLatches()
    ensures |ShutdownBytes()| == 14
    ensures ShutdownBytes()[12..] == [0x00, 0x00]
    ensures Assemble(Latched(ShutdownBytes())) == ClearWrites
  {
    assert ValidWrites(ClearWrites);
    StreamThenRaw(ClearWrites, [NoBacklight, DisplayOff]);
    assert ShutdownBytes() == Stream(ClearWrites) + [NoBacklight, DisplayOff];
  }

  /** Whatever was sent before, a ShutdownDisplay leaves the last two
      bytes on the bus at 0x00, so the backlight ends off. */
  lemma ShutdownEndsDark(prefix: seq<bv8>)
    ensures |prefix + ShutdownBytes()| >= 2
    ensures (prefix + ShutdownBytes())[|prefix + ShutdownBytes()| - 2..] == [0x00, 0x00]
  {
    var t := prefix + ShutdownBytes();
    assert t[|t| - 2] == ShutdownBytes()[12] && t[|t| - 1] == ShutdownBytes()[13];
  }

  /** Repeating ShutdownDisplay: the controller sees clear display and
      return home twice, and the bus ends on 0x00, 0x00 as after one. */
  lemma ShutdownTwice()
    ensures Assemble(Latched(ShutdownBytes() + ShutdownBytes())) == ClearWrites + ClearWrites
    ensures var t := ShutdownBytes() + ShutdownBytes(); |t| == 28 && t[26..] == ShutdownBytes()[12..] == [0x00, 0x00]
  {
    ShutdownLatches();
    ShutdownEndsDark(ShutdownBytes());
    var raw: seq<bv8> := [NoBacklight, DisplayOff];
    assert ShutdownBytes() == Stream(ClearWrites) + raw;
    assert ValidWrites(ClearWrites);
    RepeatedView(ClearWrites, raw);
  }

  /** The same writes and raw bytes, sent twice. */
  lemma RepeatedView(ws: seq<Write>, raw: seq<bv8>)
    requires ValidWrites(ws)
    requires forall k :: 0 <= k < |raw| ==> raw[k] & EnableBit == 0
    ensures Assemble(Latched(Stream(ws) + raw + (Stream(ws) + raw))) == ws + ws
  {
    var s := Stream(ws);
    if ws != [] {
      StreamEndsEnableLow(ws);
    }
    RawBetween(s, raw, s + raw);
    StreamThenRaw(ws, raw);
    StreamLatches(ws);
    LatchedAppend(s, s);
    StreamAppend(ws, ws);
    ValidWritesAppend(ws, ws);
    StreamRoundTrip(ws + ws);
  }

  /** EN-low raw bytes between two streams separate them: the controller
      latches from each on its own. */
  lemma RawBetween(a: seq<bv8>, raw: seq<bv8>, b: seq<bv8>)
    requires a == [] || a[|a| - 1] & EnableBit == 0
    requires forall k :: 0 <= k < |raw| ==> raw[k] & EnableBit == 0
    ensures Latched(a + raw + b) == Latched(a) + Latched(b)
  {
    LatchedAppend(raw, b);
    NoEnableNoLatch(raw);
    LatchedAppend(a, raw + b);
    AppendAssoc(a, raw, b);
  }

  // ---------------------------------------------------------------------
  // LcdDisplayString

  /** LcdDisplayString sends 6 * (1 + |str|) bytes, from which the
      controller reassembles the set-DDRAM-address instruction for the
      table's address, then every byte of `str`, in order, as character
      data. */
  lemma DisplayStringView(str: seq<bv8>, line: bv8, pos: bv8)
    ensures |DisplayStringBytes(str, line, pos)| == 6 * (1 + |str|)
    ensures Assemble(Latched(DisplayStringBytes(str, line, pos)))
         == [Write(SetDdramAddress + TwoLineAddress(line, pos), 0)] + CharWrites(str)
  {
    StreamRoundTrip(DisplayStringWrites(str, TwoLineAddress(line, pos)));
  }

  /** The address instruction is a set-DDRAM-address instruction (bit 7
      set) exactly when the address stays below 0x80; from 0x80 on, the
      8-bit addition wraps and a different instruction is sent. */
  lemma AddressInstruction(address: bv8)
    ensures (SetDdramAddress + address) & 0x80 != 0 <==> address < 0x80
    ensures address < 0x80 ==> (SetDdramAddress + address) & 0x7F == address
  {
  }

  /** Line 1 starts at DDRAM address 0x00 and line 2 at 0x40; any other
      line number selects address 0. */
  lemma TwoLineTable(pos: bv8)
    ensures TwoLineAddress(1, 0) == 0x00 && TwoLineAddress(1, 5) == 0x05
    ensures TwoLineAddress(2, 0) == 0x40 && TwoLineAddress(2, 0x0F) == 0x4F
    ensures TwoLineAddress(3, pos) == 0 && TwoLineAddress(4, pos) == 0 && TwoLineAddress(0, pos) == 0
    ensures TwoLineAddress(2, 0xC0) == 0x00
  {
  }

  /** The prototype's four-line table agrees with the two-line one on
      lines 1 and 2 and on lines outside 1..4; lines 3 and 4 start at 0x14
      and 0x54. */
  lemma FourLineTable(line: bv8, pos: bv8)
    ensures line != 3 && line != 4 ==> FourLineAddress(line, pos) == TwoLineAddress(line, pos)
    ensures FourLineAddress(3, pos) == 0x14 + pos && FourLineAddress(4, pos) == 0x54 + pos
    ensures FourLineAddress(1, 5) == 0x05 && FourLineAddress(2, 3) == 0x43
    ensures FourLineAddress(3, 0) == 0x14 && FourLineAddress(4, 2) == 0x56
  {
  }

  /** On a 20-column, four-line panel every cell of lines 1..4 lands in the
      controller's DDRAM (0x00-0x27 and 0x40-0x67), so its address
      instruction is a set-DDRAM-address instruction, and lines 3 and 4
      continue lines 1 and 2 from column 20 on. */
  lemma FourLinePanel(line: bv8, pos: bv8)
    requires 1 <= line <= 4 && pos < 20
    ensures FourLineAddress(line, pos) < 0x28 || 0x40 <= FourLineAddress(line, pos) < 0x68
    ensures FourLineAddress(line, pos) < 0x80
    ensures FourLineAddress(3, pos) == FourLineAddress(1, pos + 20)
    ensures FourLineAddress(4, pos) == FourLineAddress(2, pos + 20)
  {
  }

  /** No two cells of the 20-by-4 panel share a DDRAM address. */
  lemma FourLineDistinct(l1: bv8, p1: bv8, l2: bv8, p2: bv8)
    requires 1 <= l1 <= 4 && p1 < 20 && 1 <= l2 <= 4 && p2 < 20
    requires FourLineAddress(l1, p1) == FourLineAddress(l2, p2)
    ensures l1 == l2 && p1 == p2
  {
  }

  // ---------------------------------------------------------------------
  // The composite screens

  lemma {:induction false} ValidWritesAppend(a: seq<Write>, b: seq<Write>)
    requires ValidWrites(a) && ValidWrites(b)
    ensures ValidWrites(a + b)
  {
    forall k | 0 <= k < |a + b| ensures ValidMode((a + b)[k].mode) {
      if k < |a| {
        assert (a + b)[k] == a[k];
      } else {
        assert (a + b)[k] == b[k - |a|];
      }
    }
  }

  /** The controller's view of two write lists sent one after the other. */
  lemma ConcatView(a: seq<Write>, b: seq<Write>)
    requires ValidWrites(a) && ValidWrites(b)
    ensures ValidWrites(a + b)
    ensures Assemble(Latched(Stream(a) + Stream(b))) == a + b
  {
    ValidWritesAppend(a, b);
    StreamAppend(a, b);
    StreamRoundTrip(a + b);
  }

  /** The instructions and characters of ShowErrorAndShutdown, in order. */
  function ErrorAndShutdownWrites(): seq<Write> {
    ClearWrites + DisplayStringWrites(Ascii(ErrorTextLine1), 0x00) + DisplayStringWrites(Ascii(ErrorTextLine2), 0x40) + ClearWrites
  }

  /** ShowErrorAndShutdown, as the controller sees it: clear and home, the
      address of line 1 and "ERROR", the address of line 2 and "SHUTTING
      DOWN", clear and home again; the two raw bytes at the end latch
      nothing. */
  lemma ErrorAndShutdownView()
    ensures Assemble(Latched(ErrorAndShutdownBytes())) == ErrorAndShutdownWrites()
  {
    var e1 := DisplayStringWrites(Ascii(ErrorTextLine1), 0x00);
    var e2 := DisplayStringWrites(Ascii(ErrorTextLine2), 0x40);
    var raw: seq<bv8> := [NoBacklight, DisplayOff];
    assert TwoLineAddress(1, 0) == 0x00 && TwoLineAddress(2, 0) == 0x40;
    assert ShowErrorBytes() == Stream(e1) + Stream(e2);
    assert ShutdownBytes() == Stream(ClearWrites) + raw;
    assert ValidWrites(ClearWrites);
    FramedView(ClearWrites, e1, e2, raw);
  }

  /** Writes `c`, then `e1` and `e2`, then `c` again and some raw EN-low
      bytes: the controller reassembles the four lists of writes. */
  lemma FramedView(c: seq<Write>, e1: seq<Write>, e2: seq<Write>, raw: seq<bv8>)
    requires ValidWrites(c) && ValidWrites(e1) && ValidWrites(e2)
    requires forall k :: 0 <= k < |raw| ==> raw[k] & EnableBit == 0
    ensures Assemble(Latched(Stream(c) + (Stream(e1) + Stream(e2)) + (Stream(c) + raw))) == c + e1 + e2 + c
  {
    ValidWritesAppend(c, e1);
    ValidWritesAppend(c + e1, e2);
    ValidWritesAppend(c + e1 + e2, c);
    StreamAppend(c, e1);
    StreamAppend(c + e1, e2);
    StreamAppend(c + e1 + e2, c);
    var sc, s1, s2 := Stream(c), Stream(e1), Stream(e2);
    AppendAssoc(sc, s1, s2);
    AppendAssoc(sc + s1 + s2, sc, raw);
    assert sc + (s1 + s2) + (sc + raw) == Stream(c + e1 + e2 + c) + raw;
    StreamThenRaw(c + e1 + e2 + c, raw);
  }

  /** ShowLoadingText, as the controller sees it: the address of line 1 and
      the first loading line, then the address of line 2 and the second. */
  lemma LoadingView()
    ensures Assemble(Latched(LoadingBytes()))
         == DisplayStringWrites(Ascii(LoadingTextLine1), 0x00) + DisplayStringWrites(Ascii(LoadingTextLine2), 0x40)
  {
    ConcatView(DisplayStringWrites(Ascii(LoadingTextLine1), 0x00), DisplayStringWrites(Ascii(LoadingTextLine2), 0x40));
  }
}
