/** Metric ranges: raw support with expectation, and its selection and epistemic projections. */
module MetricRanges {
  import opened Common
  import opened Reals
  import opened Sums

  /** How close counts as equal, here and when candidates are compared. */
  const TOLERANCE := 0.000000001

  datatype MetricRange = MetricRange(
    minimum: real, maximum: real, expected: Option<real>,
    selectionMinimum: real, selectionMaximum: real,
    epistemicMinimum: real, epistemicMaximum: real)

  datatype Projection = Raw | Selection | Epistemic

  function Lo(v: MetricRange, p: Projection): real {
    match p
    case Raw => v.minimum
    case Selection => v.selectionMinimum
    case Epistemic => v.epistemicMinimum
  }

  function Hi(v: MetricRange, p: Projection): real {
    match p
    case Raw => v.maximum
    case Selection => v.selectionMaximum
    case Epistemic => v.epistemicMaximum
  }

  predicate Within(v: MetricRange, p: Projection, x: real) {
    Lo(v, p) <= x <= Hi(v, p)
  }

  /** Ordered bounds; projections and expectation lie inside the raw support. */
  predicate Valid(v: MetricRange) {
    && v.minimum <= v.maximum
    && (v.expected.Some? ==> Within(v, Raw, v.expected.value))
    && v.selectionMinimum <= v.selectionMaximum
    && v.epistemicMinimum <= v.epistemicMaximum
    && Within(v, Raw, v.selectionMinimum) && Within(v, Raw, v.selectionMaximum)
    && Within(v, Raw, v.epistemicMinimum) && Within(v, Raw, v.epistemicMaximum)
  }

  /** The checked constructor: missing projections default to the expectation, else to the wider range. */
  function Construct(minimum: real, maximum: real, expected: Option<real>,
                     selection: Option<(real, real)>, epistemic: Option<(real, real)>): (r: Result<MetricRange, string>)
    ensures r.Ok? ==> Valid(r.value)
  {
    if minimum > maximum then Err("feature minimum exceeds maximum")
    else if expected.Some? && !(minimum <= expected.value <= maximum) then
      Err("feature expectation lies outside its bounds")
    else
      var s := if selection.Some? then selection.value
               else if expected.Some? then (expected.value, expected.value)
               else (minimum, maximum);
      var e := if epistemic.Some? then epistemic.value
               else if expected.Some? then (expected.value, expected.value)
               else s;
      if s.0 > s.1 then Err("selection projection minimum exceeds maximum")
      else if e.0 > e.1 then Err("epistemic projection minimum exceeds maximum")
      else if !(minimum <= s.0 <= maximum) then Err("selection minimum lies outside raw support")
      else if !(minimum <= s.1 <= maximum) then Err("selection maximum lies outside raw support")
      else if !(minimum <= e.0 <= maximum) then Err("epistemic minimum lies outside raw support")
      else if !(minimum <= e.1 <= maximum) then Err("epistemic maximum lies outside raw support")
      else Ok(MetricRange(minimum, maximum, expected, s.0, s.1, e.0, e.1))
  }

  function Full(minimum: real, maximum: real, expected: Option<real>,
                selectionMinimum: real, selectionMaximum: real,
                epistemicMinimum: real, epistemicMaximum: real): Result<MetricRange, string>
  {
    Construct(
      minimum, maximum, expected, Some((selectionMinimum, selectionMaximum)),
      Some((epistemicMinimum, epistemicMaximum)))
  }

  function ExactRange(x: real): MetricRange {
    MetricRange(x, x, Some(x), x, x, x, x)
  }

  lemma ExactIsConstructed(x: real)
    ensures Construct(x, x, Some(x), None, None) == Ok(ExactRange(x)) && Valid(ExactRange(x))
  {
  }

  function Clip(x: real): real {
    RMax(-1.0, RMin(1.0, x))
  }

  function Map(o: Option<real>, f: real -> real): Option<real> {
    if o.Some? then Some(f(o.value)) else None
  }

  // ----- The operations -----

  function Weighted(v: MetricRange, w: real): Result<MetricRange, string> {
    Full(Times(v.minimum, w), Times(v.maximum, w), Map(v.expected, x => Times(x, w)),
         Times(v.selectionMinimum, w), Times(v.selectionMaximum, w),
         Times(v.epistemicMinimum, w), Times(v.epistemicMaximum, w))
  }

  function Multiply(v: MetricRange, multiplier: real): Result<MetricRange, string> {
    if multiplier < 0.0 then Err("metric multiplier must be nonnegative") else Weighted(v, multiplier)
  }

  function Scaled(x: real, scale: real, direction: real): real
    requires scale > 0.0
  {
    Clip(Times(direction, x) / scale)
  }

  function Scaling(scale: real, direction: real): real -> real
    requires scale > 0.0
  {
    x => Scaled(x, scale, direction)
  }

  /** The range spanned by the images of the bounds, whichever way round they come. */
  function Image(v: MetricRange, f: real -> real): Result<MetricRange, string> {
    Full(RMin(f(v.minimum), f(v.maximum)), RMax(f(v.minimum), f(v.maximum)), Map(v.expected, f),
         RMin(f(v.selectionMinimum), f(v.selectionMaximum)), RMax(f(v.selectionMinimum), f(v.selectionMaximum)),
         RMin(f(v.epistemicMinimum), f(v.epistemicMaximum)), RMax(f(v.epistemicMinimum), f(v.epistemicMaximum)))
  }

  function Normalized(v: MetricRange, scale: real, direction: real): Result<MetricRange, string>
    requires scale > 0.0
  {
    Image(v, Scaling(scale, direction))
  }

  function Shift(v: MetricRange, amount: real): Result<MetricRange, string> {
    Full(v.minimum + amount, v.maximum + amount, Map(v.expected, x => x + amount),
         v.selectionMinimum + amount, v.selectionMaximum + amount,
         v.epistemicMinimum + amount, v.epistemicMaximum + amount)
  }

  function Subtract(l: MetricRange, r: MetricRange): Result<MetricRange, string> {
    Full(l.minimum - r.maximum, l.maximum - r.minimum,
         if l.expected.Some? && r.expected.Some? then Some(l.expected.value - r.expected.value) else None,
         l.selectionMinimum - r.selectionMaximum, l.selectionMaximum - r.selectionMinimum,
         l.epistemicMinimum - r.epistemicMaximum, l.epistemicMaximum - r.epistemicMinimum)
  }

  function Low(p: Projection): MetricRange -> real {
    v => Lo(v, p)
  }

  function High(p: Projection): MetricRange -> real {
    v => Hi(v, p)
  }

  function Expectation(v: MetricRange): real {
    if v.expected.Some? then v.expected.value else 0.0
  }

  predicate AllExpected(vs: seq<MetricRange>) {
    forall i :: 0 <= i < |vs| ==> vs[i].expected.Some?
  }

  predicate AllValid(vs: seq<MetricRange>) {
    forall i :: 0 <= i < |vs| ==> Valid(vs[i])
  }

  /** The sum of the ranges, divided by `n`. */
  function Pooled(vs: seq<MetricRange>, n: real): Result<MetricRange, string>
    requires n > 0.0
  {
    Full(Sum(vs, Low(Raw)) / n, Sum(vs, High(Raw)) / n,
         if AllExpected(vs) then Some(Sum(vs, Expectation) / n) else None,
         Sum(vs, Low(Selection)) / n, Sum(vs, High(Selection)) / n,
         Sum(vs, Low(Epistemic)) / n, Sum(vs, High(Epistemic)) / n)
  }

  function Add(vs: seq<MetricRange>): Result<MetricRange, string> {
    if vs == [] then Ok(ExactRange(0.0)) else Pooled(vs, 1.0)
  }

  function Average(vs: seq<MetricRange>): Result<MetricRange, string> {
    if vs == [] then Ok(ExactRange(0.0)) else Pooled(vs, |vs| as real)
  }

  // ----- Soundness: results are valid and contain what they should -----

  lemma TimesBetween(lo: real, x: real, hi: real, w: real)
    requires lo <= x <= hi && w >= 0.0
    ensures Times(lo, w) <= Times(x, w) <= Times(hi, w)
  {
    Scale(lo, x, w);
    Scale(x, hi, w);
  }

  lemma WeightedIsValid(v: MetricRange, w: real)
    requires Valid(v) && w >= 0.0
    ensures Weighted(v, w).Ok?
  {
    TimesBetween(v.minimum, v.selectionMinimum, v.maximum, w);
    TimesBetween(v.minimum, v.selectionMaximum, v.maximum, w);
    TimesBetween(v.minimum, v.epistemicMinimum, v.maximum, w);
    TimesBetween(v.minimum, v.epistemicMaximum, v.maximum, w);
    TimesBetween(v.selectionMinimum, v.selectionMaximum, v.maximum, w);
    TimesBetween(v.epistemicMinimum, v.epistemicMaximum, v.maximum, w);
    if v.expected.Some? {
      TimesBetween(v.minimum, v.expected.value, v.maximum, w);
    }
  }

  /** Weighting a valid range by a nonnegative weight is valid and weights every contained value. */
  lemma WeightedSound(v: MetricRange, w: real)
    requires Valid(v) && w >= 0.0
    ensures Weighted(v, w).Ok? && Multiply(v, w) == Weighted(v, w)
    ensures forall p, x :: Within(v, p, x) ==> Within(Weighted(v, w).value, p, Times(x, w))
  {
    WeightedIsValid(v, w);
    forall p, x | Within(v, p, x) ensures Within(Weighted(v, w).value, p, Times(x, w)) {
      TimesBetween(Lo(v, p), x, Hi(v, p), w);
    }
  }

  lemma ScaledMonotone(x: real, y: real, scale: real, direction: real)
    requires scale > 0.0 && x <= y
    ensures direction >= 0.0 ==> Scaled(x, scale, direction) <= Scaled(y, scale, direction)
    ensures direction <= 0.0 ==> Scaled(x, scale, direction) >= Scaled(y, scale, direction)
  {
    hide Times;
    if direction >= 0.0 {
      TimesOrdered(direction, x, y);
      Divide(Times(direction, x), Times(direction, y), scale);
    }
    if direction <= 0.0 {
      TimesReversed(direction, x, y);
      Divide(Times(direction, y), Times(direction, x), scale);
    }
  }

  /** A value between two others is scaled to between their images, whichever way round they come. */
  lemma ScaledBetween(lo: real, x: real, hi: real, scale: real, direction: real)
    requires scale > 0.0 && lo <= x <= hi
    ensures RMin(Scaled(lo, scale, direction), Scaled(hi, scale, direction)) <= Scaled(x, scale, direction)
    ensures Scaled(x, scale, direction) <= RMax(Scaled(lo, scale, direction), Scaled(hi, scale, direction))
  {
    ScaledMonotone(lo, x, scale, direction);
    ScaledMonotone(x, hi, scale, direction);
  }

  /** `f` keeps between the images of the bounds. */
  ghost predicate Between(v: MetricRange, f: real -> real) {
    forall p, x :: Within(v, p, x) ==> RMin(f(Lo(v, p)), f(Hi(v, p))) <= f(x) <= RMax(f(Lo(v, p)), f(Hi(v, p)))
  }

  lemma ImageSound(v: MetricRange, f: real -> real)
    requires Valid(v) && Between(v, f)
    ensures Image(v, f).Ok?
    ensures forall p, x :: Within(v, p, x) ==> Within(Image(v, f).value, p, f(x))
  {
    assert Within(v, Raw, v.selectionMinimum) && Within(v, Raw, v.selectionMaximum);
    assert Within(v, Raw, v.epistemicMinimum) && Within(v, Raw, v.epistemicMaximum);
    if v.expected.Some? {
      assert Within(v, Raw, v.expected.value);
    }
  }

  /** Normalising a valid range is valid, stays in [-1, 1] and scales every contained value. */
  lemma NormalizedSound(v: MetricRange, scale: real, direction: real)
    requires Valid(v) && scale > 0.0
    ensures Normalized(v, scale, direction).Ok?
    ensures -1.0 <= Normalized(v, scale, direction).value.minimum
    ensures Normalized(v, scale, direction).value.maximum <= 1.0
    ensures forall p, x :: Within(v, p, x) ==>
              Within(Normalized(v, scale, direction).value, p, Scaling(scale, direction)(x))
  {
    var f := Scaling(scale, direction);
    forall p, x | Within(v, p, x)
      ensures RMin(f(Lo(v, p)), f(Hi(v, p))) <= f(x) <= RMax(f(Lo(v, p)), f(Hi(v, p)))
    {
      ScaledBetween(Lo(v, p), x, Hi(v, p), scale, direction);
    }
    ImageSound(v, f);
    ScaledIsUnit(v.minimum, scale, direction);
    ScaledIsUnit(v.maximum, scale, direction);
  }

  lemma ScaledIsUnit(x: real, scale: real, direction: real)
    requires scale > 0.0
    ensures -1.0 <= Scaling(scale, direction)(x) <= 1.0
  {
  }

  lemma ShiftSound(v: MetricRange, amount: real)
    requires Valid(v)
    ensures Shift(v, amount).Ok?
    ensures forall p, x :: Within(v, p, x) <==> Within(Shift(v, amount).value, p, x + amount)
  {
  }

  /** Differences of contained values are contained in the difference. */
  lemma SubtractSound(l: MetricRange, r: MetricRange)
    requires Valid(l) && Valid(r)
    ensures Subtract(l, r).Ok?
    ensures forall p, x, y :: Within(l, p, x) && Within(r, p, y) ==> Within(Subtract(l, r).value, p, x - y)
  {
  }

  /** `xs` picks one value out of each range. */
  ghost predicate Picks(vs: seq<MetricRange>, p: Projection, xs: seq<real>) {
    |xs| == |vs| && forall i :: 0 <= i < |vs| ==> Within(vs[i], p, xs[i])
  }

  function Same(x: real): real {
    x
  }

  lemma {:induction false} PickedSum(vs: seq<MetricRange>, p: Projection, xs: seq<real>)
    requires Picks(vs, p, xs)
    ensures Sum(vs, Low(p)) <= Sum(xs, Same) <= Sum(vs, High(p))
  {
    if vs != [] {
      PickedSum(vs[..|vs| - 1], p, xs[..|xs| - 1]);
    }
  }

  lemma PooledOrdered(vs: seq<MetricRange>, f: MetricRange -> real, g: MetricRange -> real, n: real)
    requires n > 0.0 && forall i :: 0 <= i < |vs| ==> f(vs[i]) <= g(vs[i])
    ensures Sum(vs, f) / n <= Sum(vs, g) / n
  {
    SumOrdered(vs, f, g);
    Divide(Sum(vs, f), Sum(vs, g), n);
  }

  lemma PooledIsValid(vs: seq<MetricRange>, n: real)
    requires AllValid(vs) && n > 0.0
    ensures Pooled(vs, n).Ok?
  {
    PooledOrdered(vs, Low(Raw), High(Raw), n);
    PooledOrdered(vs, Low(Raw), Low(Selection), n);
    PooledOrdered(vs, Low(Selection), High(Selection), n);
    PooledOrdered(vs, High(Selection), High(Raw), n);
    PooledOrdered(vs, Low(Raw), Low(Epistemic), n);
    PooledOrdered(vs, Low(Epistemic), High(Epistemic), n);
    PooledOrdered(vs, High(Epistemic), High(Raw), n);
    if AllExpected(vs) {
      PooledOrdered(vs, Low(Raw), Expectation, n);
      PooledOrdered(vs, Expectation, High(Raw), n);
    }
  }

  /** Pooling valid ranges is valid, and the pooled picks lie in the pooled range. */
  lemma PooledSound(vs: seq<MetricRange>, n: real)
    requires AllValid(vs) && n > 0.0
    ensures Pooled(vs, n).Ok?
    ensures forall p, xs :: Picks(vs, p, xs) ==> Within(Pooled(vs, n).value, p, Sum(xs, Same) / n)
  {
    PooledIsValid(vs, n);
    forall p, xs | Picks(vs, p, xs)
      ensures Sum(vs, Low(p)) / n <= Sum(xs, Same) / n <= Sum(vs, High(p)) / n
    {
      PickedSum(vs, p, xs);
      Divide(Sum(vs, Low(p)), Sum(xs, Same), n);
      Divide(Sum(xs, Same), Sum(vs, High(p)), n);
    }
  }

  // ----- Mixtures -----

  datatype Weighing = Weighing(probability: real, metric: MetricRange)

  function TotalProbability(items: seq<Weighing>): real {
    Sum(items, (i: Weighing) => i.probability)
  }

  function Mixed(f: MetricRange -> real): Weighing -> real {
    (i: Weighing) => Times(i.probability, f(i.metric))
  }

  predicate AllExpectedItems(items: seq<Weighing>) {
    forall i :: 0 <= i < |items| ==> items[i].metric.expected.Some?
  }

  /** The smallest of `f` over the items. */
  function LeastOf(items: seq<Weighing>, f: MetricRange -> real): (r: real)
    requires items != []
    ensures forall i :: 0 <= i < |items| ==> r <= f(items[i].metric)
    ensures exists i :: 0 <= i < |items| && r == f(items[i].metric)
  {
    var last := f(items[|items| - 1].metric);
    if |items| == 1 then last else RMin(LeastOf(items[..|items| - 1], f), last)
  }

  /** The largest of `f` over the items. */
  function GreatestOf(items: seq<Weighing>, f: MetricRange -> real): (r: real)
    requires items != []
    ensures forall i :: 0 <= i < |items| ==> f(items[i].metric) <= r
    ensures exists i :: 0 <= i < |items| && r == f(items[i].metric)
  {
    var last := f(items[|items| - 1].metric);
    if |items| == 1 then last else RMax(GreatestOf(items[..|items| - 1], f), last)
  }

  /** The probability-weighted mixture of several ranges; unweighted if the probabilities do not add up to 1. */
  function WeightedRange(items: seq<Weighing>): Result<MetricRange, string> {
    if items == [] then Ok(ExactRange(0.0))
    else
      var minimum, maximum := LeastOf(items, Low(Raw)), GreatestOf(items, High(Raw));
      var total := TotalProbability(items);
      if -TOLERANCE <= total - 1.0 <= TOLERANCE then
        Full(minimum, maximum, if AllExpectedItems(items) then Some(Sum(items, Mixed(Expectation))) else None,
             Sum(items, Mixed(Low(Selection))), Sum(items, Mixed(High(Selection))),
             Sum(items, Mixed(Low(Epistemic))), Sum(items, Mixed(High(Epistemic))))
      else Construct(minimum, maximum, None, None, None)
  }

  ghost predicate ProperItems(items: seq<Weighing>) {
    forall i :: 0 <= i < |items| ==> items[i].probability >= 0.0 && Valid(items[i].metric)
  }

  /** A mixture of values that all lie in [lo, hi] lies in [lo, hi], scaled by the total weight. */
  lemma {:induction false} MixtureBetween(items: seq<Weighing>, f: MetricRange -> real, lo: real, hi: real)
    requires forall i :: 0 <= i < |items| ==> items[i].probability >= 0.0 && lo <= f(items[i].metric) <= hi
    ensures Times(TotalProbability(items), lo) <= Sum(items, Mixed(f)) <= Times(TotalProbability(items), hi)
  {
    if items != [] {
      var front, last := items[..|items| - 1], items[|items| - 1];
      MixtureBetween(front, f, lo, hi);
      TimesOrdered(last.probability, lo, f(last.metric));
      TimesOrdered(last.probability, f(last.metric), hi);
      AddTimes(TotalProbability(front), last.probability, lo);
      AddTimes(TotalProbability(front), last.probability, hi);
    }
  }

  lemma MixtureOrdered(items: seq<Weighing>, f: MetricRange -> real, g: MetricRange -> real)
    requires forall i :: 0 <= i < |items| ==> items[i].probability >= 0.0 && f(items[i].metric) <= g(items[i].metric)
    ensures Sum(items, Mixed(f)) <= Sum(items, Mixed(g))
  {
    forall i | 0 <= i < |items| ensures Mixed(f)(items[i]) <= Mixed(g)(items[i]) {
      TimesOrdered(items[i].probability, f(items[i].metric), g(items[i].metric));
    }
    SumOrdered(items, Mixed(f), Mixed(g));
  }

  lemma MixtureInside(items: seq<Weighing>, f: MetricRange -> real, lo: real, hi: real)
    requires TotalProbability(items) == 1.0
    requires forall i :: 0 <= i < |items| ==> items[i].probability >= 0.0 && lo <= f(items[i].metric) <= hi
    ensures lo <= Sum(items, Mixed(f)) <= hi
  {
    MixtureBetween(items, f, lo, hi);
  }

  /** A mixture of values inside their items' supports lies inside the common support. */
  lemma MixtureInHull(items: seq<Weighing>, f: MetricRange -> real)
    requires items != [] && TotalProbability(items) == 1.0
    requires forall i :: 0 <= i < |items| ==>
               items[i].probability >= 0.0 && Within(items[i].metric, Raw, f(items[i].metric))
    ensures LeastOf(items, Low(Raw)) <= Sum(items, Mixed(f)) <= GreatestOf(items, High(Raw))
  {
    var lo, hi := LeastOf(items, Low(Raw)), GreatestOf(items, High(Raw));
    forall i | 0 <= i < |items| ensures lo <= f(items[i].metric) <= hi {
      assert lo <= Low(Raw)(items[i].metric) && High(Raw)(items[i].metric) <= hi;
    }
    MixtureInside(items, f, lo, hi);
  }

  lemma ProjectionMixes(items: seq<Weighing>, p: Projection)
    requires ProperItems(items) && items != [] && TotalProbability(items) == 1.0
    ensures LeastOf(items, Low(Raw)) <= Sum(items, Mixed(Low(p))) <= Sum(items, Mixed(High(p)))
    ensures Sum(items, Mixed(High(p))) <= GreatestOf(items, High(Raw))
  {
    MixtureInHull(items, Low(p));
    MixtureInHull(items, High(p));
    MixtureOrdered(items, Low(p), High(p));
  }

  lemma ExpectationMixes(items: seq<Weighing>)
    requires ProperItems(items) && items != [] && TotalProbability(items) == 1.0 && AllExpectedItems(items)
    ensures LeastOf(items, Low(Raw)) <= Sum(items, Mixed(Expectation)) <= GreatestOf(items, High(Raw))
  {
    MixtureInHull(items, Expectation);
  }

  /** Mixing valid ranges with probabilities that add up to 1 is valid. */
  lemma MixtureSound(items: seq<Weighing>)
    requires ProperItems(items) && items != [] && TotalProbability(items) == 1.0
    ensures WeightedRange(items).Ok?
  {
    hide LeastOf, GreatestOf, Sum, Mixed, TotalProbability, ProperItems, AllExpectedItems;
    ProjectionMixes(items, Selection);
    ProjectionMixes(items, Epistemic);
    if AllExpectedItems(items) {
      ExpectationMixes(items);
    }
  }

  lemma HullOrdered(items: seq<Weighing>)
    requires ProperItems(items) && items != []
    ensures LeastOf(items, Low(Raw)) <= GreatestOf(items, High(Raw))
  {
    assert LeastOf(items, Low(Raw)) <= Low(Raw)(items[0].metric) <= High(Raw)(items[0].metric);
  }

  lemma WeightedRangeHull(items: seq<Weighing>)
    requires items != [] && WeightedRange(items).Ok?
    ensures WeightedRange(items).value.minimum == LeastOf(items, Low(Raw))
    ensures WeightedRange(items).value.maximum == GreatestOf(items, High(Raw))
  {
  }

  /**
   * Mixing valid ranges never fails when the probabilities add up to exactly 1, nor when they are off
   * by more than the tolerance; either way the result's support covers every item's.
   */
  lemma WeightedRangeSound(items: seq<Weighing>)
    requires ProperItems(items)
    requires TotalProbability(items) == 1.0 || !(-TOLERANCE <= TotalProbability(items) - 1.0 <= TOLERANCE)
    ensures WeightedRange(items).Ok? && Valid(WeightedRange(items).value)
    ensures forall i :: 0 <= i < |items| ==>
              WeightedRange(items).value.minimum <= Low(Raw)(items[i].metric)
              && High(Raw)(items[i].metric) <= WeightedRange(items).value.maximum
  {
    if items != [] {
      if TotalProbability(items) == 1.0 {
        MixtureSound(items);
      } else {
        HullOrdered(items);
      }
      WeightedRangeHull(items);
    }
  }

  // ----- Probabilities that add up to nearly 1 -----

  predicate InHull(x: real, lo: real, hi: real, slack: real) {
    lo - slack <= x <= hi + slack
  }

  /** What a constructor with this much slack asks of a mixture. */
  predicate Accepted(items: seq<Weighing>, slack: real)
    requires items != []
  {
    var lo, hi := LeastOf(items, Low(Raw)), GreatestOf(items, High(Raw));
    && (AllExpectedItems(items) ==> InHull(Sum(items, Mixed(Expectation)), lo, hi, slack))
    && InHull(Sum(items, Mixed(Low(Selection))), lo, hi, slack)
    && InHull(Sum(items, Mixed(High(Selection))), lo, hi, slack)
    && InHull(Sum(items, Mixed(Low(Epistemic))), lo, hi, slack)
    && InHull(Sum(items, Mixed(High(Epistemic))), lo, hi, slack)
    && Sum(items, Mixed(Low(Selection))) <= Sum(items, Mixed(High(Selection)))
    && Sum(items, Mixed(Low(Epistemic))) <= Sum(items, Mixed(High(Epistemic)))
  }

  predicate NearlyOne(total: real) {
    -TOLERANCE <= total - 1.0 <= TOLERANCE
  }

  /** Mixing these items succeeds if ranges are constructed with this much slack. */
  predicate Mixes(items: seq<Weighing>, slack: real) {
    items == [] || !NearlyOne(TotalProbability(items)) || Accepted(items, slack)
  }

  /** What the constructor asks of numbers given in full. */
  lemma FullAccepts(lo: real, hi: real, expected: Option<real>, s0: real, s1: real, e0: real, e1: real)
    requires lo <= hi
    ensures Full(lo, hi, expected, s0, s1, e0, e1).Ok?
            <==> && (expected.Some? ==> InHull(expected.value, lo, hi, 0.0))
                 && InHull(s0, lo, hi, 0.0) && InHull(s1, lo, hi, 0.0)
                 && InHull(e0, lo, hi, 0.0) && InHull(e1, lo, hi, 0.0) && s0 <= s1 && e0 <= e1
  {
  }

  /** Mixing as modelled above is mixing without slack. */
  lemma MixingHasNoSlack(items: seq<Weighing>)
    requires ProperItems(items)
    ensures WeightedRange(items).Ok? <==> Mixes(items, 0.0)
  {
    if items == [] {
      return;
    }
    HullOrdered(items);
    hide LeastOf, GreatestOf, Sum, Mixed, TotalProbability, AllExpectedItems, ProperItems, Full;
    FullAccepts(LeastOf(items, Low(Raw)), GreatestOf(items, High(Raw)),
                if AllExpectedItems(items) then Some(Sum(items, Mixed(Expectation))) else None,
                Sum(items, Mixed(Low(Selection))), Sum(items, Mixed(High(Selection))),
                Sum(items, Mixed(Low(Epistemic))), Sum(items, Mixed(High(Epistemic))));
  }

  /** Probabilities that add up to `total` do not carry a mixture of values in [lo, hi] further out than `slack`. */
  predicate DriftCovered(total: real, lo: real, hi: real, slack: real) {
    Times(total - 1.0, lo) >= -slack && Times(total - 1.0, hi) <= slack
  }

  ghost predicate HasHull(items: seq<Weighing>, total: real, lo: real, hi: real) {
    && ProperItems(items) && items != [] && TotalProbability(items) == total
    && LeastOf(items, Low(Raw)) == lo && GreatestOf(items, High(Raw)) == hi
  }

  lemma MixtureDrifts(items: seq<Weighing>, f: MetricRange -> real, total: real, lo: real, hi: real, slack: real)
    requires HasHull(items, total, lo, hi) && DriftCovered(total, lo, hi, slack)
    requires forall i :: 0 <= i < |items| ==> Within(items[i].metric, Raw, f(items[i].metric))
    ensures InHull(Sum(items, Mixed(f)), lo, hi, slack)
  {
    forall i | 0 <= i < |items| ensures lo <= f(items[i].metric) <= hi {
      assert lo <= Low(Raw)(items[i].metric) && High(Raw)(items[i].metric) <= hi;
    }
    MixtureBetween(items, f, lo, hi);
    AddTimes(total - 1.0, 1.0, lo);
    AddTimes(total - 1.0, 1.0, hi);
  }

  lemma ProjectionDrifts(items: seq<Weighing>, p: Projection, total: real, lo: real, hi: real, slack: real)
    requires HasHull(items, total, lo, hi) && DriftCovered(total, lo, hi, slack)
    ensures InHull(Sum(items, Mixed(Low(p))), lo, hi, slack) && InHull(Sum(items, Mixed(High(p))), lo, hi, slack)
    ensures Sum(items, Mixed(Low(p))) <= Sum(items, Mixed(High(p)))
  {
    MixtureDrifts(items, Low(p), total, lo, hi, slack);
    MixtureDrifts(items, High(p), total, lo, hi, slack);
    MixtureOrdered(items, Low(p), High(p));
  }

  lemma ExpectationDrifts(items: seq<Weighing>, total: real, lo: real, hi: real, slack: real)
    requires HasHull(items, total, lo, hi) && DriftCovered(total, lo, hi, slack) && AllExpectedItems(items)
    ensures InHull(Sum(items, Mixed(Expectation)), lo, hi, slack)
  {
    MixtureDrifts(items, Expectation, total, lo, hi, slack);
  }

  lemma CoveredIsAccepted(items: seq<Weighing>, total: real, lo: real, hi: real, slack: real)
    requires HasHull(items, total, lo, hi) && DriftCovered(total, lo, hi, slack)
    ensures Accepted(items, slack)
  {
    assert LeastOf(items, Low(Raw)) == lo && GreatestOf(items, High(Raw)) == hi;
    hide LeastOf, GreatestOf, Sum, Mixed, HasHull, AllExpectedItems, DriftCovered;
    ProjectionDrifts(items, Selection, total, lo, hi, slack);
    ProjectionDrifts(items, Epistemic, total, lo, hi, slack);
    if AllExpectedItems(items) {
      ExpectationDrifts(items, total, lo, hi, slack);
    }
  }

  /** All the weight on `x`, with the support stretched to `y`. */
  function OneSided(total: real, x: real, y: real): seq<Weighing> {
    [Weighing(total, ExactRange(x)), Weighing(0.0, ExactRange(y))]
  }

  lemma OneSidedSums(total: real, x: real, y: real, f: Weighing -> real)
    ensures Sum(OneSided(total, x, y), f) == f(Weighing(total, ExactRange(x))) + f(Weighing(0.0, ExactRange(y)))
  {
    var items := OneSided(total, x, y);
    assert items[..1] == [Weighing(total, ExactRange(x))];
    SumOne(items[0], f);
  }

  lemma OneSidedHull(total: real, x: real, y: real)
    requires total >= 0.0
    ensures HasHull(OneSided(total, x, y), total, RMin(x, y), RMax(x, y))
  {
    OneSidedSums(total, x, y, (i: Weighing) => i.probability);
    var items := OneSided(total, x, y);
    assert items[..1] == [Weighing(total, ExactRange(x))];
  }

  lemma OneSidedMean(total: real, x: real, y: real)
    ensures Sum(OneSided(total, x, y), Mixed(Low(Selection))) == x + Times(total - 1.0, x)
  {
    OneSidedSums(total, x, y, Mixed(Low(Selection)));
    AddTimes(total - 1.0, 1.0, x);
    assert Times(1.0, x) == x && Times(0.0, y) == 0.0;
  }

  /** Such a list is accepted only if the slack covers the drift of `x`. */
  lemma OneSidedNeeds(total: real, x: real, y: real, slack: real)
    requires total >= 0.0 && Accepted(OneSided(total, x, y), slack)
    ensures InHull(x + Times(total - 1.0, x), RMin(x, y), RMax(x, y), slack)
  {
    OneSidedHull(total, x, y);
    OneSidedMean(total, x, y);
    hide Sum, Mixed, LeastOf, GreatestOf, OneSided, Times;
  }

  /**
   * The total and the common support decide whether mixing can be refused: every list of valid ranges with
   * that total and support is accepted exactly if the slack covers the drift.
   */
  lemma AcceptedIffCovered(total: real, lo: real, hi: real, slack: real)
    requires total >= 0.0 && lo <= hi
    ensures (forall items :: HasHull(items, total, lo, hi) ==> Accepted(items, slack))
            <==> DriftCovered(total, lo, hi, slack)
  {
    if DriftCovered(total, lo, hi, slack) {
      forall items | HasHull(items, total, lo, hi) ensures Accepted(items, slack) {
        CoveredIsAccepted(items, total, lo, hi, slack);
      }
    }
    if forall items :: HasHull(items, total, lo, hi) ==> Accepted(items, slack) {
      OneSidedHull(total, lo, hi);
      OneSidedHull(total, hi, lo);
      OneSidedNeeds(total, lo, hi, slack);
      OneSidedNeeds(total, hi, lo, slack);
    }
  }

  // ----- No slack is needed where mixing is used -----

  /** Probabilities that add up to 1 need no slack at all. */
  lemma NormalisedMixes(items: seq<Weighing>)
    requires ProperItems(items) && TotalProbability(items) == 1.0
    ensures Mixes(items, 0.0)
  {
    MixtureSound(items);
    MixingHasNoSlack(items);
  }

  /** Supports inside [0, 1] are never refused, whatever the probabilities add up to. */
  lemma UnitSupportMixes(items: seq<Weighing>)
    requires ProperItems(items)
    requires forall i :: 0 <= i < |items| ==> 0.0 <= items[i].metric.minimum && items[i].metric.maximum <= 1.0
    ensures Mixes(items, TOLERANCE)
  {
    if items != [] && NearlyOne(TotalProbability(items)) {
      var total, lo, hi := TotalProbability(items), LeastOf(items, Low(Raw)), GreatestOf(items, High(Raw));
      HullOrdered(items);
      UnitDrift(total, lo, hi);
      CoveredIsAccepted(items, total, lo, hi, TOLERANCE);
    }
  }

  lemma UnitDrift(total: real, lo: real, hi: real)
    requires NearlyOne(total) && 0.0 <= lo <= hi <= 1.0
    ensures DriftCovered(total, lo, hi, TOLERANCE)
  {
    TimesRises(-TOLERANCE, total - 1.0, lo);
    TimesOrdered(TOLERANCE, lo, 1.0);
    TimesRises(total - 1.0, TOLERANCE, hi);
    TimesOrdered(TOLERANCE, hi, 1.0);
    assert Times(-TOLERANCE, lo) == -Times(TOLERANCE, lo);
  }
}
