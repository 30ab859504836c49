/** Metric ranges are no wider than they need be: every bound is attained, and expectations are carried along. */
module MetricTightness {
  import opened Common
  import opened Reals
  import opened Sums
  import opened MetricRanges

  // ----- Construction -----

  /** A projection that is given, or else the bounds `otherwise`. */
  predicate ProjectsTo(given: Option<(real, real)>, otherwise: (real, real), lo: real, hi: real) {
    if given.Some? then given == Some((lo, hi)) else otherwise == (lo, hi)
  }

  /** `v` has these bounds and this expectation; what is not given of its projections is the expectation if known. */
  predicate BuiltOf(minimum: real, maximum: real, expected: Option<real>,
                    selection: Option<(real, real)>, epistemic: Option<(real, real)>, v: MetricRange)
  {
    && v.minimum == minimum && v.maximum == maximum && v.expected == expected
    && ProjectsTo(selection, if expected.Some? then (expected.value, expected.value) else (minimum, maximum),
                  v.selectionMinimum, v.selectionMaximum)
    && ProjectsTo(epistemic, if expected.Some? then (expected.value, expected.value)
                             else (v.selectionMinimum, v.selectionMaximum),
                  v.epistemicMinimum, v.epistemicMaximum)
  }

  /** The constructor builds exactly the valid ranges. */
  lemma ConstructIff(minimum: real, maximum: real, expected: Option<real>,
                     selection: Option<(real, real)>, epistemic: Option<(real, real)>, v: MetricRange)
    ensures Construct(minimum, maximum, expected, selection, epistemic) == Ok(v)
            <==> BuiltOf(minimum, maximum, expected, selection, epistemic, v) && Valid(v)
  {
  }

  // ----- One range -----

  ghost predicate AttainedAt(v: MetricRange, p: Projection, f: real -> real, bound: real, x: real) {
    Within(v, p, x) && f(x) == bound
  }

  /** `bound` is the image of something in the projection. */
  ghost predicate Attained(v: MetricRange, p: Projection, f: real -> real, bound: real) {
    exists x :: AttainedAt(v, p, f, bound, x)
  }

  /** `r` is just the image of `v` under `f`: both its bounds are attained, and its expectation is `v`'s. */
  ghost predicate IsImage(v: MetricRange, f: real -> real, r: MetricRange) {
    && (forall p :: Attained(v, p, f, Lo(r, p)) && Attained(v, p, f, Hi(r, p)))
    && (v.expected.Some? <==> r.expected.Some?)
    && (v.expected.Some? ==> r.expected.value == f(v.expected.value))
  }

  function By(w: real): real -> real {
    (x: real) => Times(x, w)
  }

  lemma WeightedTight(v: MetricRange, w: real)
    requires Valid(v) && w >= 0.0
    ensures Weighted(v, w).Ok? && IsImage(v, By(w), Weighted(v, w).value)
  {
    WeightedSound(v, w);
    var r := Weighted(v, w).value;
    forall p ensures Attained(v, p, By(w), Lo(r, p)) && Attained(v, p, By(w), Hi(r, p)) {
      assert AttainedAt(v, p, By(w), Lo(r, p), Lo(v, p));
      assert AttainedAt(v, p, By(w), Hi(r, p), Hi(v, p));
    }
  }

  lemma NormalizedTight(v: MetricRange, scale: real, direction: real)
    requires Valid(v) && scale > 0.0
    ensures Normalized(v, scale, direction).Ok?
    ensures IsImage(v, Scaling(scale, direction), Normalized(v, scale, direction).value)
  {
    NormalizedSound(v, scale, direction);
    var f, r := Scaling(scale, direction), Normalized(v, scale, direction).value;
    forall p ensures Attained(v, p, f, Lo(r, p)) && Attained(v, p, f, Hi(r, p)) {
      assert AttainedAt(v, p, f, f(Lo(v, p)), Lo(v, p));
      assert AttainedAt(v, p, f, f(Hi(v, p)), Hi(v, p));
    }
  }

  // ----- Two ranges -----

  ghost predicate DiffersBy(l: MetricRange, r: MetricRange, p: Projection, d: real, x: real) {
    Within(l, p, x) && Within(r, p, x - d)
  }

  /** `d` is the difference of something in the one and something in the other. */
  ghost predicate IsDifference(l: MetricRange, r: MetricRange, p: Projection, d: real) {
    exists x :: DiffersBy(l, r, p, d, x)
  }

  /** A difference range holds exactly the differences, and the difference of the expectations if both are known. */
  lemma SubtractTight(l: MetricRange, r: MetricRange, p: Projection, d: real)
    requires Valid(l) && Valid(r)
    ensures Subtract(l, r).Ok?
    ensures Within(Subtract(l, r).value, p, d) <==> IsDifference(l, r, p, d)
    ensures var e := Subtract(l, r).value.expected;
            && (e.Some? <==> l.expected.Some? && r.expected.Some?)
            && (e.Some? ==> e.value + r.expected.value == l.expected.value)
  {
    SubtractSound(l, r);
    if Within(Subtract(l, r).value, p, d) {
      var x := RMax(Lo(l, p), Lo(r, p) + d);
      assert DiffersBy(l, r, p, d, x);
    }
    if x :| DiffersBy(l, r, p, d, x) {
      assert Within(r, p, x - d) && x - (x - d) == d;
    }
  }

  /** Shifting moves every value and the expectation alike. */
  lemma ShiftTight(v: MetricRange, amount: real, p: Projection, x: real)
    requires Valid(v)
    ensures Shift(v, amount).Ok?
    ensures Within(Shift(v, amount).value, p, x + amount) <==> Within(v, p, x)
    ensures var e := Shift(v, amount).value.expected;
            && (e.Some? <==> v.expected.Some?)
            && (e.Some? ==> e.value == v.expected.value + amount)
  {
  }

  // ----- Many ranges -----

  ghost predicate PooledAs(vs: seq<MetricRange>, p: Projection, n: real, bound: real, xs: seq<real>)
    requires n > 0.0
  {
    Picks(vs, p, xs) && Sum(xs, Same) / n == bound
  }

  function Bounds(vs: seq<MetricRange>, f: MetricRange -> real): (xs: seq<real>)
    ensures |xs| == |vs| && forall i :: 0 <= i < |xs| ==> xs[i] == f(vs[i])
  {
    seq(|vs|, i requires 0 <= i < |vs| => f(vs[i]))
  }

  /** The pooled range's bounds are pooled picks, and so is its expectation, of the expectations. */
  lemma PooledTight(vs: seq<MetricRange>, n: real, p: Projection)
    requires AllValid(vs) && n > 0.0
    ensures Pooled(vs, n).Ok?
    ensures var r := Pooled(vs, n).value;
            && (exists xs :: PooledAs(vs, p, n, Lo(r, p), xs))
            && (exists xs :: PooledAs(vs, p, n, Hi(r, p), xs))
            && (r.expected.Some? <==> AllExpected(vs))
            && (r.expected.Some? ==> r.expected.value == Sum(Bounds(vs, Expectation), Same) / n)
  {
    hide Sum, AllExpected;
    PooledSound(vs, n);
    var r := Pooled(vs, n).value;
    SumMatches(Bounds(vs, Low(p)), Same, vs, Low(p));
    SumMatches(Bounds(vs, High(p)), Same, vs, High(p));
    SumMatches(Bounds(vs, Expectation), Same, vs, Expectation);
    assert PooledAs(vs, p, n, Lo(r, p), Bounds(vs, Low(p)));
    assert PooledAs(vs, p, n, Hi(r, p), Bounds(vs, High(p)));
  }

  // ----- Mixtures -----

  /** One value out of each item's range. */
  ghost predicate ItemPicks(items: seq<Weighing>, p: Projection, xs: seq<real>) {
    |xs| == |items| && forall i :: 0 <= i < |items| ==> Within(items[i].metric, p, xs[i])
  }

  /** The values, each by its item's probability. */
  function Mixture(items: seq<Weighing>, xs: seq<real>): real
    requires |xs| == |items|
  {
    if items == [] then 0.0
    else
      var n := |items| - 1;
      Mixture(items[..n], xs[..n]) + Times(items[n].probability, xs[n])
  }

  lemma {:induction false} MixtureOfBounds(items: seq<Weighing>, xs: seq<real>, f: MetricRange -> real)
    requires |xs| == |items| && forall i :: 0 <= i < |items| ==> xs[i] == f(items[i].metric)
    ensures Mixture(items, xs) == Sum(items, Mixed(f))
  {
    if items != [] {
      MixtureOfBounds(items[..|items| - 1], xs[..|xs| - 1], f);
    }
  }

  lemma {:induction false} MixtureOrders(items: seq<Weighing>, p: Projection, xs: seq<real>)
    requires ProperItems(items) && ItemPicks(items, p, xs)
    ensures Sum(items, Mixed(Low(p))) <= Mixture(items, xs) <= Sum(items, Mixed(High(p)))
  {
    hide Times;
    if items != [] {
      var n := |items| - 1;
      MixtureOrders(items[..n], p, xs[..n]);
      TimesOrdered(items[n].probability, Lo(items[n].metric, p), xs[n]);
      TimesOrdered(items[n].probability, xs[n], Hi(items[n].metric, p));
    }
  }

  function ItemBounds(items: seq<Weighing>, f: MetricRange -> real): (xs: seq<real>)
    ensures |xs| == |items| && forall i :: 0 <= i < |xs| ==> xs[i] == f(items[i].metric)
  {
    seq(|items|, i requires 0 <= i < |items| => f(items[i].metric))
  }

  ghost predicate MixesTo(items: seq<Weighing>, p: Projection, x: real, xs: seq<real>) {
    ItemPicks(items, p, xs) && Mixture(items, xs) == x
  }

  ghost predicate IsMixture(items: seq<Weighing>, p: Projection, x: real) {
    exists xs :: MixesTo(items, p, x, xs)
  }

  /** The range's projection reaches from one mixture to another and holds them all. */
  ghost predicate SpansMixtures(items: seq<Weighing>, r: MetricRange, p: Projection) {
    && IsMixture(items, p, Lo(r, p)) && IsMixture(items, p, Hi(r, p))
    && forall xs :: ItemPicks(items, p, xs) ==> Within(r, p, Mixture(items, xs))
  }

  lemma ProjectionSpans(items: seq<Weighing>, r: MetricRange, p: Projection)
    requires ProperItems(items)
    requires Lo(r, p) == Sum(items, Mixed(Low(p))) && Hi(r, p) == Sum(items, Mixed(High(p)))
    ensures SpansMixtures(items, r, p)
  {
    hide Sum;
    MixtureOfBounds(items, ItemBounds(items, Low(p)), Low(p));
    MixtureOfBounds(items, ItemBounds(items, High(p)), High(p));
    assert MixesTo(items, p, Lo(r, p), ItemBounds(items, Low(p)));
    assert MixesTo(items, p, Hi(r, p), ItemBounds(items, High(p)));
    forall xs | ItemPicks(items, p, xs) ensures Within(r, p, Mixture(items, xs)) {
      MixtureOrders(items, p, xs);
    }
  }

  /** What the mixed range is built of. */
  lemma MixtureParts(items: seq<Weighing>)
    requires items != [] && WeightedRange(items).Ok? && NearlyOne(TotalProbability(items))
    ensures var r := WeightedRange(items).value;
            && r.selectionMinimum == Sum(items, Mixed(Low(Selection)))
            && r.selectionMaximum == Sum(items, Mixed(High(Selection)))
            && r.epistemicMinimum == Sum(items, Mixed(Low(Epistemic)))
            && r.epistemicMaximum == Sum(items, Mixed(High(Epistemic)))
            && r.expected == if AllExpectedItems(items) then Some(Sum(items, Mixed(Expectation))) else None
  {
    hide Sum, AllExpectedItems, LeastOf, GreatestOf, TotalProbability;
  }

  /** The support reaches from some item's least value to some item's greatest. */
  ghost predicate SpansItems(items: seq<Weighing>, lo: real, hi: real) {
    && (exists i :: 0 <= i < |items| && lo == items[i].metric.minimum)
    && (exists i :: 0 <= i < |items| && hi == items[i].metric.maximum)
    && forall i :: 0 <= i < |items| ==> lo <= items[i].metric.minimum && items[i].metric.maximum <= hi
  }

  lemma HullSpans(items: seq<Weighing>)
    requires items != [] && ProperItems(items)
    ensures SpansItems(items, LeastOf(items, Low(Raw)), GreatestOf(items, High(Raw)))
  {
    assert forall i :: 0 <= i < |items| ==>
      Low(Raw)(items[i].metric) == items[i].metric.minimum && High(Raw)(items[i].metric) == items[i].metric.maximum;
  }

  /**
   * Ranges that are mixed by probabilities adding up to nearly 1: the projections hold just the mixtures, and
   * the expectation mixes the expectations if all are known. By any others: nothing but the common support.
   */
  lemma MixtureTight(items: seq<Weighing>)
    requires items != [] && ProperItems(items) && WeightedRange(items).Ok?
    ensures var r := WeightedRange(items).value;
            && SpansItems(items, r.minimum, r.maximum)
            && (NearlyOne(TotalProbability(items)) ==>
                  && SpansMixtures(items, r, Selection) && SpansMixtures(items, r, Epistemic)
                  && (r.expected.Some? <==> AllExpectedItems(items))
                  && (r.expected.Some? ==> r.expected.value == Mixture(items, ItemBounds(items, Expectation))))
            && (!NearlyOne(TotalProbability(items)) ==>
                  && r.expected.None?
                  && r.selectionMinimum == r.epistemicMinimum == r.minimum
                  && r.selectionMaximum == r.epistemicMaximum == r.maximum)
  {
    var r := WeightedRange(items).value;
    HullSpans(items);
    WeightedRangeHull(items);
    hide Sum, LeastOf, GreatestOf, SpansMixtures, SpansItems, ProperItems, AllExpectedItems, TotalProbability;
    if NearlyOne(TotalProbability(items)) {
      MixtureParts(items);
      ProjectionSpans(items, r, Selection);
      ProjectionSpans(items, r, Epistemic);
      MixtureOfBounds(items, ItemBounds(items, Expectation), Expectation);
    }
  }
}
