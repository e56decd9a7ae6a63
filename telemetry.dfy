/** The boost telemetry loop (GetAndDisplayValues): read barometric and
    intake manifold pressure, parse both, take the clamped difference,
    convert it to psi, keep the running peak, and render two lines on the
    LCD; the first failure shows the error screen, shuts the display down
    and ends the process.

    Boost is exact: a number of millionths of a psi, the pressure
    difference in kPa times 145038 (0.145038 psi per kPa). Sensor samples are
    inputs; the endless loop runs over a finite sequence of samples. */
module Telemetry {
  import opened Hd44780
  import opened Strconv
  import InternalDisplay

  /** psiConversion, in millionths of a psi per kPa. */
  const PsiConversionMillionths: nat := 145038

  const Uint64Limit: nat := 0x1_0000_0000_0000_0000

  /** What a sensor read returns: the decimal text, or an error. */
  datatype Reading = Ok(text: string) | Err

  /** The steps of one iteration that can fail, in the order they run. */
  datatype Stage = ReadBarometric | ReadManifold | ParseManifold | ParseBarometric

  /** What one iteration ends with: the two values rendered (current boost
      and the peak after it), or the stage that failed. */
  datatype Outcome = Rendered(current: nat, peak: nat) | Failed(stage: Stage)

  // ---------------------------------------------------------------------
  // Arithmetic

  /** Go's uint64 subtraction, which wraps below zero. */
  function Uint64Sub(a: nat, b: nat): (r: nat)
    ensures r < Uint64Limit
  {
    (a - b) % Uint64Limit
  }

  /** calculatedManifoldPressure: the wrapping subtraction, taken only when
      the manifold pressure is the larger. */
  function PressureDifference(manifold: nat, barometric: nat): nat {
    if manifold > barometric then Uint64Sub(manifold, barometric) else 0
  }

  /** The guard keeps the subtraction from wrapping: for parsed 32-bit
      values the difference is m - b when m > b, and 0 otherwise. */
  lemma NoUnderflow(m: nat, b: nat)
    requires m < Uint32Limit && b < Uint32Limit
    ensures m > b ==> PressureDifference(m, b) == m - b
    ensures m <= b ==> PressureDifference(m, b) == 0
  {
  }

  /** The boost in millionths of a psi. */
  function Boost(manifold: nat, barometric: nat): nat {
    PressureDifference(manifold, barometric) * PsiConversionMillionths
  }

  /** Boost is zero exactly when the manifold pressure does not exceed the
      barometric pressure, otherwise proportional to the difference, and
      it grows with the manifold pressure. */
  lemma BoostProperties(m: nat, b: nat, m': nat)
    requires m < Uint32Limit && b < Uint32Limit && m' < Uint32Limit
    ensures Boost(m, b) == 0 <==> m <= b
    ensures m > b ==> Boost(m, b) == (m - b) * PsiConversionMillionths
    ensures m <= m' ==> Boost(m, b) <= Boost(m', b)
  {
    NoUnderflow(m, b);
    NoUnderflow(m', b);
  }

  // ---------------------------------------------------------------------
  // One iteration

  /** The outcome of one iteration from the peak so far and the two samples:
      the checks run in source order and the first that fails decides. */
  function StepOutcome(peak: nat, barometric: Reading, manifold: Reading): (o: Outcome)
    ensures o.Rendered? ==> o.peak >= peak && o.peak >= o.current
    ensures o.Rendered? ==> o.peak == peak || o.peak == o.current
  {
    if barometric.Err? then Failed(ReadBarometric)
    else if manifold.Err? then Failed(ReadManifold)
    else
      match ParseUint32(manifold.text)
      case None => Failed(ParseManifold)
      case Some(m) =>
        match ParseUint32(barometric.text)
        case None => Failed(ParseBarometric)
        case Some(b) =>
          var current := Boost(m, b);
          Rendered(current, if current > peak then current else peak)
  }

  /** An iteration renders exactly when both samples succeed and both texts
      parse; it then shows the boost of the parsed values. A failure names
      the first step, in source order, that failed. */
  lemma StepStages(peak: nat, barometric: Reading, manifold: Reading)
    ensures StepOutcome(peak, barometric, manifold).Rendered?
        <==> barometric.Ok? && manifold.Ok?
             && ParseUint32(manifold.text).Some? && ParseUint32(barometric.text).Some?
    ensures StepOutcome(peak, barometric, manifold).Rendered? ==>
              StepOutcome(peak, barometric, manifold).current
              == Boost(ParseUint32(manifold.text).value, ParseUint32(barometric.text).value)
    ensures StepOutcome(peak, barometric, manifold) == Failed(ReadBarometric) <==> barometric.Err?
    ensures StepOutcome(peak, barometric, manifold) == Failed(ReadManifold)
        <==> barometric.Ok? && manifold.Err?
    ensures StepOutcome(peak, barometric, manifold) == Failed(ParseManifold)
        <==> barometric.Ok? && manifold.Ok? && ParseUint32(manifold.text).None?
    ensures StepOutcome(peak, barometric, manifold) == Failed(ParseBarometric)
        <==> barometric.Ok? && manifold.Ok? && ParseUint32(manifold.text).Some?
             && ParseUint32(barometric.text).None?
  {
  }

  /** Line 1: "Curr: " and the boost with two decimals, " psi " with the
      trailing space that overwrites a stale glyph when the number gets
      shorter. */
  function CurrentLine(current: nat): string {
    "Curr: " + FormatFixed2(current) + " psi "
  }

  /** Line 2: the peak, in the same form. */
  function PeakLine(peak: nat): string {
    "Peak: " + FormatFixed2(peak) + " psi "
  }

  /** The bytes of one iteration on the display connection. */
  function StepBytes(o: Outcome): seq<bv8> {
    match o
    case Rendered(current, peak) =>
      DisplayStringBytes(Ascii(CurrentLine(current)), 1, 0) + DisplayStringBytes(Ascii(PeakLine(peak)), 2, 0)
    case Failed(_) => ErrorAndShutdownBytes()
  }

  /** Each rendered line is its label, the two-decimal value and " psi ";
      for the same value both lines have the same length, 15 characters
      below 9.995 psi. */
  lemma LineShape(v: nat)
    ensures |CurrentLine(v)| == 6 + |FormatFixed2(v)| + 5 && |PeakLine(v)| == |CurrentLine(v)|
    ensures CurrentLine(v)[..6] == "Curr: " && PeakLine(v)[..6] == "Peak: "
    ensures CurrentLine(v)[6..|CurrentLine(v)| - 5] == FormatFixed2(v)
    ensures PeakLine(v)[6..|PeakLine(v)| - 5] == FormatFixed2(v)
    ensures CurrentLine(v)[|CurrentLine(v)| - 5..] == " psi " && PeakLine(v)[|PeakLine(v)| - 5..] == " psi "
    ensures v < 9995000 ==> |CurrentLine(v)| == 15 && |PeakLine(v)| == 15
  {
    if v < 9995000 {
      FormatFixed2Short(v);
    }
  }

  // ---------------------------------------------------------------------
  // The loop

  /** The run has ended: its last iteration failed. */
  predicate Halted(outs: seq<Outcome>) {
    outs != [] && outs[|outs| - 1].Failed?
  }

  /** The peak after a run: that of its last rendered iteration, 0 before
      any. */
  function PeakAfter(outs: seq<Outcome>): nat {
    if outs == [] then 0
    else if outs[|outs| - 1].Rendered? then outs[|outs| - 1].peak
    else PeakAfter(outs[..|outs| - 1])
  }

  /** The outcomes of the loop over a sequence of (barometric, manifold)
      samples, from peak 0: one per iteration, up to and including the first
      that fails; the samples after it are never taken. */
  function Outcomes(samples: seq<(Reading, Reading)>): (outs: seq<Outcome>)
    ensures |outs| <= |samples|
    decreases |samples|
  {
    if samples == [] then []
    else
      var prev := Outcomes(samples[..|samples| - 1]);
      if Halted(prev) then prev
      else prev + [StepOutcome(PeakAfter(prev), samples[|samples| - 1].0, samples[|samples| - 1].1)]
  }

  /** The bytes of a run on the display connection. */
  function RunBytes(outs: seq<Outcome>): seq<bv8> {
    if outs == [] then [] else RunBytes(outs[..|outs| - 1]) + StepBytes(outs[|outs| - 1])
  }

  /** The loop's exit: the prefix it ran already decides the whole run. */
  lemma RunEnd(samples: seq<(Reading, Reading)>, i: nat)
    requires i <= |samples|
    requires i == |samples| || Halted(Outcomes(samples[..i]))
    ensures Outcomes(samples[..i]) == Outcomes(samples)
  {
    if i < |samples| {
      HaltedStays(samples[..i], samples[i..]);
      assert samples[..i] + samples[i..] == samples;
    } else {
      assert samples[..i] == samples;
    }
  }

  /** One iteration of the loop, on the specification side. */
  lemma RunStep(samples: seq<(Reading, Reading)>, i: nat, outs: seq<Outcome>, o: Outcome, t0: seq<bv8>, t: seq<bv8>)
    requires i < |samples| && outs == Outcomes(samples[..i]) && !Halted(outs)
    requires o == StepOutcome(PeakAfter(outs), samples[i].0, samples[i].1)
    requires t == t0 + RunBytes(outs) + StepBytes(o)
    ensures outs + [o] == Outcomes(samples[..i + 1])
    ensures t == t0 + RunBytes(outs + [o])
    ensures PeakAfter(outs + [o]) == (if o.Rendered? then o.peak else PeakAfter(outs))
    ensures Halted(outs + [o]) == o.Failed?
  {
    OutcomesStep(samples, i);
    RunSnoc(outs, o);
    AppendAssoc(t0, RunBytes(outs), StepBytes(o));
  }

  /** One more iteration appended to a run. */
  lemma RunSnoc(prev: seq<Outcome>, o: Outcome)
    ensures RunBytes(prev + [o]) == RunBytes(prev) + StepBytes(o)
    ensures PeakAfter(prev + [o]) == if o.Rendered? then o.peak else PeakAfter(prev)
    ensures Halted(prev + [o]) == o.Failed?
  {
    var outs := prev + [o];
    assert outs[..|prev|] == prev && outs[|outs| - 1] == o;
  }

  /** Every iteration but the last renders; so the error screen and the
      shutdown appear at most once, at the end. */
  lemma {:induction false} OnlyLastFails(samples: seq<(Reading, Reading)>)
    ensures forall k :: 0 <= k < |Outcomes(samples)| - 1 ==> Outcomes(samples)[k].Rendered?
    decreases |samples|
  {
    if samples != [] {
      OnlyLastFails(samples[..|samples| - 1]);
    }
  }

  /** The run stops at the first failure: no read after it changes
      anything. */
  lemma {:induction false} HaltedStays(samples: seq<(Reading, Reading)>, more: seq<(Reading, Reading)>)
    requires Halted(Outcomes(samples))
    ensures Outcomes(samples + more) == Outcomes(samples)
    decreases |more|
  {
    if more == [] {
      assert samples + more == samples;
    } else {
      var n := |samples + more| - 1;
      assert (samples + more)[..n] == samples + more[..|more| - 1];
      HaltedStays(samples, more[..|more| - 1]);
    }
  }

  /** Each read pair either adds exactly one outcome or, once halted,
      none: the prefix view the loop uses. */
  lemma OutcomesStep(samples: seq<(Reading, Reading)>, i: nat)
    requires i < |samples|
    ensures Outcomes(samples[..i + 1])
         == if Halted(Outcomes(samples[..i])) then Outcomes(samples[..i])
            else Outcomes(samples[..i]) + [StepOutcome(PeakAfter(Outcomes(samples[..i])), samples[i].0, samples[i].1)]
  {
    assert samples[..i + 1][..i] == samples[..i];
  }

  /** The peak shown never decreases from one rendered iteration to a
      later one. */
  lemma {:induction false} PeakNonDecreasing(samples: seq<(Reading, Reading)>, j: nat, k: nat)
    requires j <= k < |Outcomes(samples)|
    requires Outcomes(samples)[j].Rendered? && Outcomes(samples)[k].Rendered?
    ensures Outcomes(samples)[j].peak <= Outcomes(samples)[k].peak
    decreases |samples|
  {
    var outs := Outcomes(samples);
    var prev := Outcomes(samples[..|samples| - 1]);
    if k < |prev| {
      PeakNonDecreasing(samples[..|samples| - 1], j, k);
    } else if j < k {
      assert outs[k] == StepOutcome(PeakAfter(prev), samples[|samples| - 1].0, samples[|samples| - 1].1);
      PeakAfterLast(prev);
      PeakNonDecreasing(samples[..|samples| - 1], j, |prev| - 1);
    }
  }

  /** Every rendered iteration shows a peak at least its current boost. */
  lemma {:induction false} RenderedPeakBound(samples: seq<(Reading, Reading)>, k: nat)
    requires k < |Outcomes(samples)| && Outcomes(samples)[k].Rendered?
    ensures Outcomes(samples)[k].peak >= Outcomes(samples)[k].current
    decreases |samples|
  {
    var prev := Outcomes(samples[..|samples| - 1]);
    if k < |prev| {
      RenderedPeakBound(samples[..|samples| - 1], k);
    }
  }

  /** After a rendered iteration the carried peak is the one it showed. */
  lemma PeakAfterLast(outs: seq<Outcome>)
    requires outs != [] && outs[|outs| - 1].Rendered?
    ensures PeakAfter(outs) == outs[|outs| - 1].peak
  {
  }

  /** Every rendered peak is at least every current boost shown up to
      then. */
  lemma {:induction false} PeakBoundsCurrent(samples: seq<(Reading, Reading)>, j: nat, k: nat)
    requires j <= k < |Outcomes(samples)|
    requires Outcomes(samples)[j].Rendered? && Outcomes(samples)[k].Rendered?
    ensures Outcomes(samples)[k].peak >= Outcomes(samples)[j].current
  {
    PeakNonDecreasing(samples, j, k);
    RenderedPeakBound(samples, j);
  }

  /** Every rendered peak is 0 or one of the current boosts shown up to
      then: with PeakBoundsCurrent, the peak is the maximum boost seen, or
      0 if every boost was 0. */
  lemma {:induction false} PeakIsSeen(samples: seq<(Reading, Reading)>, k: nat)
    requires k < |Outcomes(samples)| && Outcomes(samples)[k].Rendered?
    ensures Outcomes(samples)[k].peak == 0
         || exists j :: 0 <= j <= k && Outcomes(samples)[j].Rendered? && Outcomes(samples)[j].current == Outcomes(samples)[k].peak
    decreases |samples|
  {
    var outs := Outcomes(samples);
    var prev := Outcomes(samples[..|samples| - 1]);
    if k < |prev| {
      PeakIsSeen(samples[..|samples| - 1], k);
      if outs[k].peak != 0 {
        var j :| 0 <= j <= k && prev[j].Rendered? && prev[j].current == prev[k].peak;
        assert outs[j] == prev[j];
      }
    } else {
      assert outs[k] == StepOutcome(PeakAfter(prev), samples[|samples| - 1].0, samples[|samples| - 1].1);
      if outs[k].peak != outs[k].current && prev != [] {
        OnlyLastFails(samples[..|samples| - 1]);
        PeakAfterLast(prev);
        PeakIsSeen(samples[..|samples| - 1], |prev| - 1);
        if outs[k].peak != 0 {
          var j :| 0 <= j <= |prev| - 1 && prev[j].Rendered? && prev[j].current == prev[|prev| - 1].peak;
          assert outs[j] == prev[j];
        }
      }
    }
  }

  /** When the run ends on a rendered iteration, the peak it carries is
      the maximum boost shown: at least every current boost rendered, and
      0 or one of them. */
  lemma FinalPeakIsMax(samples: seq<(Reading, Reading)>)
    requires Outcomes(samples) != [] && Outcomes(samples)[|Outcomes(samples)| - 1].Rendered?
    ensures forall j :: 0 <= j < |Outcomes(samples)| && Outcomes(samples)[j].Rendered?
              ==> PeakAfter(Outcomes(samples)) >= Outcomes(samples)[j].current
    ensures PeakAfter(Outcomes(samples)) == 0
         || exists j :: 0 <= j < |Outcomes(samples)| && Outcomes(samples)[j].Rendered?
              && Outcomes(samples)[j].current == PeakAfter(Outcomes(samples))
  {
    var outs := Outcomes(samples);
    var last := |outs| - 1;
    PeakAfterLast(outs);
    forall j | 0 <= j < |outs| && outs[j].Rendered?
      ensures PeakAfter(outs) >= outs[j].current
    {
      PeakBoundsCurrent(samples, j, last);
    }
    PeakIsSeen(samples, last);
  }

  // ---------------------------------------------------------------------
  // Scenarios

  /** Manifold 130 kPa, barometric 98 kPa, first iteration: 32 kPa, which
      is 4.641216 psi, shown as 4.64, and the peak becomes the same. */
  lemma ScenarioBoost()
    ensures StepOutcome(0, Ok("98"), Ok("130")) == Rendered(4641216, 4641216)
    ensures CurrentLine(4641216) == "Curr: 4.64 psi " && PeakLine(4641216) == "Peak: 4.64 psi "
  {
    ParsedLiteral("98", 98);
    ParsedLiteral("130", 130);
    SmallFixed2(4641216, 4, 64);
  }

  /** Manifold 90 kPa below barometric 98 kPa after a peak of 4.64 psi: the
      boost is 0.00 and the peak stays. */
  lemma ScenarioVacuum()
    ensures StepOutcome(4641216, Ok("98"), Ok("90")) == Rendered(0, 4641216)
    ensures CurrentLine(0) == "Curr: 0.00 psi "
  {
    ParsedLiteral("98", 98);
    ParsedLiteral("90", 90);
    SmallFixed2(0, 0, 0);
  }

  /** A failed barometric read on the first iteration: the error screen and
      shutdown are sent once, and no later read is made. */
  lemma ScenarioSensorFailure(rest: seq<(Reading, Reading)>)
    ensures Outcomes([(Err, Ok("130"))] + rest) == [Failed(ReadBarometric)]
    ensures RunBytes(Outcomes([(Err, Ok("130"))] + rest)) == ErrorAndShutdownBytes()
  {
    var first: seq<(Reading, Reading)> := [(Err, Ok("130"))];
    assert first[..0] == [];
    assert Outcomes(first) == [Failed(ReadBarometric)];
    HaltedStays(first, rest);
    var outs: seq<Outcome> := [Failed(ReadBarometric)];
    assert outs[..0] == [];
  }

  /** The text of a value below 9.995 psi: one digit, a point, two
      digits. */
  lemma SmallFixed2(micro: nat, units: nat, cents: nat)
    requires units < 10 && cents < 100 && RoundToHundredths(micro) == units * 100 + cents
    ensures FormatFixed2(micro) == [DigitChar(units), '.', DigitChar(cents / 10), DigitChar(cents % 10)]
  {
    var h := units * 100 + cents;
    assert h / 100 == units && h % 100 == cents;
  }

  lemma ParsedLiteral(s: string, n: nat)
    requires s == Decimal(n) && n < Uint32Limit
    ensures ParseUint32(s) == Some(n)
  {
    DecimalParse(n);
  }

  // ---------------------------------------------------------------------
  // The loop as the source runs it

  /** GetAndDisplayValues' state: the display connection, the running
      peak, and whether log.Fatal has ended the process. */
  class Monitor {
    const display: InternalDisplay.Display
    var peak: nat
    var halted: bool

    constructor (display: InternalDisplay.Display)
      ensures this.display == display && peak == 0 && !halted
    {
      this.display := display;
      peak := 0;
      halted := false;
    }

    /** One iteration of the loop body. */
    method Step(barometric: Reading, manifold: Reading) returns (outcome: Outcome)
      requires display.Valid() && !halted
      modifies this, display
      ensures display.Valid()
      ensures outcome == StepOutcome(old(peak), barometric, manifold)
      ensures halted == outcome.Failed?
      ensures peak == if outcome.Rendered? then outcome.peak else old(peak)
      ensures display.trace == old(display.trace) + StepBytes(outcome)
    {
      if barometric.Err? {
        display.ShowErrorAndShutdown();
        halted := true;  // log.Fatal
        return Failed(ReadBarometric);
      }
      if manifold.Err? {
        display.ShowErrorAndShutdown();
        halted := true;
        return Failed(ReadManifold);
      }
      var parsedManifold := ParseUint32(manifold.text);
      if parsedManifold.None? {
        display.ShowErrorAndShutdown();
        halted := true;
        return Failed(ParseManifold);
      }
      var parsedBarometric := ParseUint32(barometric.text);
      if parsedBarometric.None? {
        display.ShowErrorAndShutdown();
        halted := true;
        return Failed(ParseBarometric);
      }
      var calculatedManifoldPressure: nat := 0;
      if parsedManifold.value > parsedBarometric.value {
        calculatedManifoldPressure := Uint64Sub(parsedManifold.value, parsedBarometric.value);
      }
      var calculatedBoost: int := calculatedManifoldPressure * PsiConversionMillionths;
      if calculatedBoost < 0 {
        calculatedBoost := 0;
      }
      if calculatedBoost > peak {
        peak := calculatedBoost;
      }
      ghost var t := display.trace;
      display.LcdDisplayString(Ascii(CurrentLine(calculatedBoost)), 1, 0);
      display.LcdDisplayString(Ascii(PeakLine(peak)), 2, 0);
      outcome := Rendered(calculatedBoost, peak);
      assert outcome == StepOutcome(old(peak), barometric, manifold);
      AppendAssoc(t, DisplayStringBytes(Ascii(CurrentLine(calculatedBoost)), 1, 0), DisplayStringBytes(Ascii(PeakLine(peak)), 2, 0));
    }

    /** GetAndDisplayValues over a finite sequence of read pairs: the peak
        starts at 0 and the loop ends at the first failure. */
    method Run(samples: seq<(Reading, Reading)>) returns (outcomes: seq<Outcome>)
      requires display.Valid() && !halted
      modifies this, display
      ensures display.Valid()
      ensures outcomes == Outcomes(samples)
      ensures halted == Halted(outcomes) && peak == PeakAfter(outcomes)
      ensures display.trace == old(display.trace) + RunBytes(outcomes)
    {
      peak := 0;
      outcomes := [];
      var i := 0;
      while i < |samples| && !halted
        invariant 0 <= i <= |samples|
        invariant display.Valid()
        invariant outcomes == Outcomes(samples[..i])
        invariant halted == Halted(outcomes) && peak == PeakAfter(outcomes)
        invariant display.trace == old(display.trace) + RunBytes(outcomes)
      {
        var o := Step(samples[i].0, samples[i].1);
        RunStep(samples, i, outcomes, o, old(display.trace), display.trace);
        outcomes := outcomes + [o];
        i := i + 1;
      }
      RunEnd(samples, i);
    }
  }
}
