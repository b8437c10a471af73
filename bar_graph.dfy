/** The render half of `process_and_display_fft`: the frequency label and the
    64-band bar graph drawn under it. */
module BarGraph {
  import opened Spectrum
  import opened Display

  const BinWidth: int := 2    // pixels per band
  const MaxHeight: int := 40  // tallest bar, in pixels
  const YOffset: int := 60    // row every bar starts from
  const YMin: int := 20       // topmost row a bar may reach, below the label
  const XMax: int := 127      // rightmost display column

  /** The magnitude of band `i`: bins at or past `len / 2` count as 0. */
  function BandMagnitude(spectrum: seq<Bin>, i: nat): (m: nat)
    ensures i < |spectrum| / 2 ==> m == Mags(spectrum)[i]
    ensures i >= |spectrum| / 2 ==> m == 0
  {
    if i < |spectrum| / 2 then spectrum[i].mag else 0
  }

  /** The height of band `i`. `scale(m, max)` stands for the float expression
      `((m / max) * 40.0) as i32`; it is only used when the maximum is positive. */
  function BarHeight(spectrum: seq<Bin>, scale: (nat, nat) -> int, i: nat): (h: int)
    ensures h != 0 ==> MaxMagnitude(Mags(spectrum)) > 0
  {
    var maxMagnitude := MaxMagnitude(Mags(spectrum));
    if maxMagnitude > 0 then scale(BandMagnitude(spectrum, i), maxMagnitude) else 0
  }

  /** The vertical line drawn for band `i`. */
  function BarLine(spectrum: seq<Bin>, scale: (nat, nat) -> int, i: nat): (l: Command)
    ensures l.Line? && 0 <= l.x <= XMax && l.yStart == YOffset && YMin <= l.yEnd
  {
    Line(Min(XMax, i * BinWidth), YOffset, Max(YMin, YOffset - BarHeight(spectrum, scale, i)))
  }

  /** The 64 bar lines, band 0 first. */
  function Bars(spectrum: seq<Bin>, scale: (nat, nat) -> int): (bars: seq<Command>)
    ensures |bars| == BarsToDraw
    ensures forall i :: 0 <= i < BarsToDraw ==> bars[i] == BarLine(spectrum, scale, i)
  {
    seq(BarsToDraw, i requires 0 <= i => BarLine(spectrum, scale, i))
  }

  /** Everything `process_and_display_fft` asks of the display, in order. */
  function RenderScript(spectrum: seq<Bin>, scale: (nat, nat) -> int): (script: seq<Command>)
    ensures |script| == BarsToDraw + 3
  {
    [Clear, FreqText(DominantBin(Keys(spectrum)))] + Bars(spectrum, scale) + [Flush]
  }

  /** Where each command sits in a render script. */
  lemma RenderScriptAt(spectrum: seq<Bin>, scale: (nat, nat) -> int)
    ensures var script := RenderScript(spectrum, scale);
      |script| == BarsToDraw + 3 && script[0] == Clear && script[BarsToDraw + 2] == Flush &&
      script[1] == FreqText(DominantBin(Keys(spectrum))) &&
      forall i :: 0 <= i < BarsToDraw ==> script[2 + i] == BarLine(spectrum, scale, i)
  {
  }

  /** The render script cut where the render's steps end: after the clear,
      after the label and after the bars. */
  lemma RenderScriptSegments(spectrum: seq<Bin>, scale: (nat, nat) -> int)
    ensures var head := [Clear, FreqText(DominantBin(Keys(spectrum)))];
      var bars := Bars(spectrum, scale);
      RenderScript(spectrum, scale) == [Clear] + ([FreqText(DominantBin(Keys(spectrum)))] + bars + [Flush]) &&
      RenderScript(spectrum, scale) == head + (bars + [Flush]) &&
      RenderScript(spectrum, scale) == (head + bars) + [Flush] &&
      head == [Clear] + [FreqText(DominantBin(Keys(spectrum)))]
  {
  }

  /** The bar lines spelled out as the loop computes them, with the maximum
      magnitude computed once beforehand. */
  lemma BarsAsDrawn(spectrum: seq<Bin>, scale: (nat, nat) -> int, maxMagnitude: nat)
    requires maxMagnitude == MaxMagnitude(Mags(spectrum))
    ensures forall i :: 0 <= i < BarsToDraw ==>
      Bars(spectrum, scale)[i] == Line(Min(XMax, i * BinWidth), YOffset,
        Max(YMin, YOffset - if maxMagnitude > 0 then scale(BandMagnitude(spectrum, i), maxMagnitude) else 0))
  {
  }

  /** A line lies in the graph area: a column of the display, starting at row
      60 and never reaching above row 20. */
  predicate WellPlaced(c: Command) {
    c.Line? ==> 0 <= c.x <= XMax - 1 && c.yStart == YOffset && YMin <= c.yEnd
  }

  /** Render a spectrum: clear, label, 64 bars, flush. The first failing display
      call ends the render and its failure is returned. */
  method ProcessAndDisplayFft(display: Surface, spectrum: seq<Bin>, scale: (nat, nat) -> int) returns (ok: bool)
    modifies display
    ensures var o := Attempt(RenderScript(spectrum, scale), old(display.ops), display.faults);
      display.log == old(display.log) + o.issued && display.ops == old(display.ops) + o.attempted && ok == o.ok
  {
    ghost var faults, log0, ops0 := display.faults, display.log, display.ops;
    var dominantBin := DominantBin(Keys(spectrum));
    ghost var head := [Clear, FreqText(dominantBin)];
    ghost var bars := Bars(spectrum, scale);
    RenderScriptSegments(spectrum, scale);
    ok := display.Issue(Clear);
    if !ok {
      AttemptConcat([Clear], [FreqText(dominantBin)] + bars + [Flush], ops0, faults);
      return;
    }
    ok := display.Issue(FreqText(dominantBin));
    IssueAfter([Clear], [FreqText(dominantBin)], ops0, faults, log0, display.log, display.ops);
    if !ok {
      AttemptConcat(head, bars + [Flush], ops0, faults);
      return;
    }
    var maxMagnitude := MaxMagnitude(Mags(spectrum));
    ok := DrawBars(display, spectrum, scale, maxMagnitude);
    IssueAfter(head, bars, ops0, faults, log0, display.log, display.ops);
    if !ok {
      AttemptConcat(head + bars, [Flush], ops0, faults);
      return;
    }
    ok := display.Issue(Flush);
    IssueAfter(head + bars, [Flush], ops0, faults, log0, display.log, display.ops);
  }

  /** The `for i in 0..64` loop of the render: one line per band, stopping at
      the first failing draw call. */
  method DrawBars(display: Surface, spectrum: seq<Bin>, scale: (nat, nat) -> int, maxMagnitude: nat)
    returns (ok: bool)
    requires maxMagnitude == MaxMagnitude(Mags(spectrum))
    modifies display
    ensures var o := Attempt(Bars(spectrum, scale), old(display.ops), display.faults);
      display.log == old(display.log) + o.issued && display.ops == old(display.ops) + o.attempted && ok == o.ok
  {
    ghost var log0, ops0 := display.log, display.ops;
    ghost var bars := Bars(spectrum, scale);
    BarsAsDrawn(spectrum, scale, maxMagnitude);
    for i := 0 to BarsToDraw
      invariant display.log == log0 + bars[..i]
      invariant display.ops == ops0 + i
      invariant NoFaultIn(display.faults, ops0, ops0 + i)
    {
      var magnitude := if i < |spectrum| / 2 then spectrum[i].mag else 0;
      var height := if maxMagnitude > 0 then scale(magnitude, maxMagnitude) else 0;
      var x := Min(XMax, i * BinWidth);
      var yStart := YOffset;
      var yEnd := Max(YMin, YOffset - height);
      ok := display.Issue(Line(x, yStart, yEnd));
      if !ok {
        AttemptStopsAt(bars, ops0, display.faults, i);
        return;
      }
      assert bars[..i + 1] == bars[..i] + [bars[i]];
    }
    AttemptClean(bars, ops0, display.faults);
    ok := true;
  }

  /** The shape of a render: clear, one frequency label for the dominant bin,
      64 lines, flush; and every line is well placed with x = 2i and
      y_end = max(20, 60 - height). */
  lemma RenderScriptShape(spectrum: seq<Bin>, scale: (nat, nat) -> int)
    ensures var script := RenderScript(spectrum, scale);
      |script| == BarsToDraw + 3 && script[0] == Clear && script[|script| - 1] == Flush &&
      script[1] == FreqText(DominantBin(Keys(spectrum))) &&
      (forall j :: 0 <= j < |script| && script[j].FreqText? ==> j == 1) &&
      (forall j :: 0 <= j < |script| ==> WellPlaced(script[j])) &&
      (forall i :: 0 <= i < BarsToDraw ==>
        script[2 + i] == Line(2 * i, YOffset, Max(YMin, YOffset - BarHeight(spectrum, scale, i))))
  {
    var script := RenderScript(spectrum, scale);
    RenderScriptAt(spectrum, scale);
    forall j | 0 <= j < |script|
      ensures WellPlaced(script[j]) && (script[j].FreqText? ==> j == 1)
    {
      if 2 <= j < 2 + BarsToDraw {
        assert script[2 + (j - 2)] == BarLine(spectrum, scale, j - 2);
      }
    }
  }

  /** Every band's magnitude is at most the folded maximum; bands at or past
      `len / 2` have magnitude 0. */
  lemma BandMagnitudeBounded(spectrum: seq<Bin>, i: nat)
    requires i < BarsToDraw
    ensures BandMagnitude(spectrum, i) <= MaxMagnitude(Mags(spectrum))
    ensures i >= |spectrum| / 2 ==> BandMagnitude(spectrum, i) == 0
  {
    MaxMagnitudeIsMax(Mags(spectrum));
    if i < |spectrum| / 2 {
      assert Mags(spectrum)[i] == spectrum[i].mag;
    }
  }

  /** If the maximum over the first 64 bins is 0, whatever the scaling, every
      bar has height 0 and ends where it starts, on row 60. */
  lemma FlatSpectrumFlatBars(spectrum: seq<Bin>, scale: (nat, nat) -> int)
    requires forall j :: 0 <= j < |spectrum| && j < BarsToDraw ==> spectrum[j].mag == 0
    ensures forall i :: 0 <= i < BarsToDraw ==>
      BarHeight(spectrum, scale, i) == 0 && BarLine(spectrum, scale, i) == Line(2 * i, YOffset, YOffset)
  {
    MaxMagnitudeIsMax(Mags(spectrum));
    assert MaxMagnitude(Mags(spectrum)) == 0;
  }

  /** The float scaling in exact arithmetic, truncated toward zero like `as i32`
      on a non-negative value. */
  function ExactScale(m: nat, maxMagnitude: nat): int {
    if maxMagnitude == 0 then 0 else m * MaxHeight / maxMagnitude
  }

  lemma ScaleAtMost(m: nat, maxMagnitude: nat)
    requires 0 < maxMagnitude && m <= maxMagnitude
    ensures 0 <= ExactScale(m, maxMagnitude) <= MaxHeight
    ensures m == maxMagnitude ==> ExactScale(m, maxMagnitude) == MaxHeight
  {
    assert m * MaxHeight <= maxMagnitude * MaxHeight;
  }

  /** With exact scaling, every height lies in [0, 40], so every bar ends on a
      row in [20, 60]; a drawn band holding the maximum magnitude is exactly 40
      high and reaches row 20. */
  lemma ExactScaleBars(spectrum: seq<Bin>)
    ensures forall i :: 0 <= i < BarsToDraw ==>
      0 <= BarHeight(spectrum, ExactScale, i) <= MaxHeight &&
      YMin <= BarLine(spectrum, ExactScale, i).yEnd <= YOffset
    ensures forall i :: (0 <= i < BarsToDraw && i < |spectrum| / 2 &&
      spectrum[i].mag == MaxMagnitude(Mags(spectrum)) > 0) ==>
      BarHeight(spectrum, ExactScale, i) == MaxHeight && BarLine(spectrum, ExactScale, i).yEnd == YMin
  {
    var maxMagnitude := MaxMagnitude(Mags(spectrum));
    forall i | 0 <= i < BarsToDraw
      ensures 0 <= BarHeight(spectrum, ExactScale, i) <= MaxHeight
      ensures i < |spectrum| / 2 && spectrum[i].mag == maxMagnitude > 0 ==> BarHeight(spectrum, ExactScale, i) == MaxHeight
    {
      BandMagnitudeBounded(spectrum, i);
      if maxMagnitude > 0 {
        ScaleAtMost(BandMagnitude(spectrum, i), maxMagnitude);
      }
    }
  }
}
