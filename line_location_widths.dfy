/**
  The line-location layout settings of the sticker-label generator's sidebar.

  Five sliders give the width of the line-location header cell and of the four
  line-location boxes, each as a whole percentage of the label's content width.
  Their total is compared with 100% and the sidebar shows either a warning or a
  success message; either way the five widths go to label generation as they are.
 */
module LineLocationWidths {

  /** A slider: its bounds, its initial value and its step, all in percent. */
  datatype Slider = Slider(lo: int, hi: int, initial: int, step: int)
  {
    /** The values the slider can produce: from `lo` to `hi` in steps of `step`. */
    predicate Admits(v: int)
      requires step > 0
    {
      lo <= v <= hi && (v - lo) % step == 0
    }
  }

  const HeaderSlider := Slider(10, 50, 25, 5)
  const Box1Slider := Slider(5, 30, 20, 5)
  const Box2Slider := Slider(5, 30, 20, 5)
  const Box3Slider := Slider(5, 30, 20, 5)
  const Box4Slider := Slider(5, 30, 15, 5)

  /** Allowed distance of the total from 100%, in percent (0.01 of the content width). */
  const Tolerance := 1

  /** The five widths, in percent of the content width. */
  datatype Widths = Widths(header: int, box1: int, box2: int, box3: int, box4: int)

  /** The widths the sidebar starts with: every slider at its initial value. */
  function Initial(): (w: Widths)
  {
    Widths(HeaderSlider.initial, Box1Slider.initial, Box2Slider.initial,
           Box3Slider.initial, Box4Slider.initial)
  }

  /** Every width is a value its slider can produce. */
  predicate OnSliders(w: Widths)
  {
    && HeaderSlider.Admits(w.header)
    && Box1Slider.Admits(w.box1)
    && Box2Slider.Admits(w.box2)
    && Box3Slider.Admits(w.box3)
    && Box4Slider.Admits(w.box4)
  }

  function Total(w: Widths): (total: int)
  {
    w.header + w.box1 + w.box2 + w.box3 + w.box4
  }

  function Abs(x: int): (r: nat)
    ensures r == x || r == -x
  {
    if x < 0 then -x else x
  }

  /** The message the sidebar shows, with the total it reports. */
  datatype Report = Warning(total: int) | Success(total: int)

  /** The total-width check: a warning when the total is more than the tolerance away from 100%. */
  function Validate(w: Widths): (r: Report)
    ensures r.total == Total(w)
    ensures r.Success? <==> 100 - Tolerance <= Total(w) <= 100 + Tolerance
  {
    var total := Total(w);
    if Abs(total - 100) > Tolerance then Warning(total) else Success(total)
  }

  /** What the sidebar hands on: the report it shows and the widths that go to label generation. */
  datatype Outcome = Outcome(report: Report, generationWidths: Widths)

  /** The sidebar step: validate, then pass the widths on. */
  function Configure(w: Widths): (outcome: Outcome)
  {
    Outcome(Validate(w), w)
  }

  /** The initial widths are slider values, add up to exactly 100% and pass the check. */
  lemma InitialPasses()
    ensures OnSliders(Initial())
    ensures Total(Initial()) == 100
    ensures Validate(Initial()) == Success(100)
  {
  }

  /** Every slider value is a multiple of 5, so the total is one too. */
  lemma {:induction false} SliderTotalMultipleOfFive(w: Widths)
    requires OnSliders(w)
    ensures Total(w) % 5 == 0
  {
    var h, a, b, c, d := (w.header - 10) / 5, (w.box1 - 5) / 5, (w.box2 - 5) / 5,
                         (w.box3 - 5) / 5, (w.box4 - 5) / 5;
    assert w.header == 10 + 5 * h;
    assert w.box1 == 5 + 5 * a && w.box2 == 5 + 5 * b;
    assert w.box3 == 5 + 5 * c && w.box4 == 5 + 5 * d;
    assert Total(w) == 5 * (6 + h + a + b + c + d);
  }

  /** On the slider grid the tolerance never comes into play: the check passes exactly when the total is 100%. */
  lemma SliderCheckIsExact(w: Widths)
    requires OnSliders(w)
    ensures Validate(w).Success? <==> Total(w) == 100
  {
    SliderTotalMultipleOfFive(w);
  }

  /** Slider totals range from 30% to 170%. */
  lemma SliderTotalBounds(w: Widths)
    requires OnSliders(w)
    ensures 30 <= Total(w) <= 170
  {
  }

  /** The widths as the fractions of the content width the source computes (exactly, as reals). */
  function FractionTotal(w: Widths): (fraction: real)
  {
    w.header as real / 100.0 + w.box1 as real / 100.0 + w.box2 as real / 100.0
      + w.box3 as real / 100.0 + w.box4 as real / 100.0
  }

  /** The integer check agrees with the fraction comparison against 1.0 with tolerance 0.01, in exact arithmetic. */
  lemma FractionCheckAgrees(w: Widths)
    ensures Validate(w).Warning? <==> (FractionTotal(w) - 1.0 > 0.01 || 1.0 - FractionTotal(w) > 0.01)
  {
    assert FractionTotal(w) == Total(w) as real / 100.0;
  }

  /**
    The check only reports: for every slider setting, the widths handed to
    generation are the slider widths, and the sidebar warns exactly when those
    widths do not add up to 100%, so a warned setting reaches generation as it is.
   */
  lemma ConfigurePassesWidthsUnchanged(w: Widths)
    requires OnSliders(w)
    ensures Configure(w).generationWidths == w
    ensures Configure(w).report.Warning? <==> Total(Configure(w).generationWidths) != 100
    ensures Configure(w).report.total == Total(Configure(w).generationWidths)
  {
    SliderCheckIsExact(w);
  }

  /** A slider setting that draws a warning still reaches generation, not renormalised: all maxima total 170%. */
  lemma WarnedWidthsReachGeneration()
    ensures var w := Widths(50, 30, 30, 30, 30);
            && OnSliders(w)
            && Configure(w).report == Warning(170)
            && Total(Configure(w).generationWidths) == 170
  {
  }
}
