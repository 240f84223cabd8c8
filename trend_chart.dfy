/** The trend chart of the web front end (StyleTrendChart.jsx): for each of
    the four learning styles a line of seven rounded points drawn from a
    start value towards the style's final percentage, and the mapping of
    phases and values onto the drawing area. Numbers are exact reals and
    Math.round is Base.Round. */
module TrendChart {
  import opened Base

  /** One entry of the predictions prop. A percentage that is missing, null
      or NaN is None. */
  datatype Prediction = Prediction(style: string, percentage: Option<real>, isPredicted: bool)

  /** Number of analysis phases, hence of points per line. */
  const Phases: nat := 7

  const StyleCount: nat := 4

  /** predictions.findIndex(p => p.is_predicted): the first flagged position,
      or -1 when none is flagged. */
  function FindIndex(ps: seq<Prediction>): (r: int)
    ensures -1 <= r < |ps|
    ensures r == -1 <==> forall i :: 0 <= i < |ps| ==> !ps[i].isPredicted
    ensures r >= 0 ==> ps[r].isPredicted && forall i :: 0 <= i < r ==> !ps[i].isPredicted
  {
    if ps == [] then -1
    else if ps[0].isPredicted then 0
    else
      var k := FindIndex(ps[1..]);
      if k == -1 then -1 else k + 1
  }

  /** predictedIndex: findIndex(...) || 0. Only 0 is falsy among the results,
      and 0 || 0 is 0, so the fallback never applies: with nothing flagged the
      index stays -1 and no series is drawn as the predicted one. */
  function PredictedIndex(ps: seq<Prediction>): (r: int)
    ensures r == FindIndex(ps)
  {
    var k := FindIndex(ps);
    if k != 0 then k else 0
  }

  /** currentPercentages: the four percentages when there are exactly four
      predictions, otherwise 25 for every style. */
  function CurrentPercentages(ps: seq<Prediction>): (r: seq<Option<real>>)
    ensures |r| == StyleCount
    ensures |ps| == StyleCount ==> forall i :: 0 <= i < StyleCount ==> r[i] == ps[i].percentage
    ensures |ps| != StyleCount ==> forall i :: 0 <= i < StyleCount ==> r[i] == Some(25.0)
  {
    if |ps| == StyleCount then seq(StyleCount, i requires 0 <= i < StyleCount => ps[i].percentage)
    else [Some(25.0), Some(25.0), Some(25.0), Some(25.0)]
  }

  /** finalValue: the percentage, or 25 when it is 0 or missing. */
  function FinalValue(p: Option<real>): (f: real)
    ensures f != 0.0
    ensures p.Some? && p.value != 0.0 ==> f == p.value
    ensures p.None? || p.value == 0.0 ==> f == 25.0
  {
    if p.None? || p.value == 0.0 then 25.0 else p.value
  }

  /** startValue: the predicted style starts 25 below its final value but not
      below 20; the others start 10 above theirs but not above 35. */
  function StartValue(final: real, isPredicted: bool): (s: real)
    ensures isPredicted ==> s >= 20.0 && s >= final - 25.0 && (s == 20.0 || s == final - 25.0)
    ensures !isPredicted ==> s <= 35.0 && s <= final + 10.0 && (s == 35.0 || s == final + 10.0)
  {
    if isPredicted then MaxReal(20.0, final - 25.0) else MinReal(35.0, final + 10.0)
  }

  /** The value at phase i, a fraction i/6 of the way from start to final. */
  function PointValue(start: real, final: real, i: int): real
  {
    start + (final - start) * (i as real / (Phases - 1) as real)
  }

  /** A trend line: the rounded values at the seven phases. */
  function Line(start: real, final: real): (line: seq<int>)
    ensures |line| == Phases
  {
    seq(Phases, i requires 0 <= i < Phases => Round(PointValue(start, final, i)))
  }

  /** The loop that fills trendData for one style. */
  method TrendLine(start: real, final: real) returns (trend: seq<int>)
    ensures trend == Line(start, final)
  {
    trend := [];
    var i := 0;
    while i < Phases
      invariant 0 <= i <= Phases
      invariant trend == Line(start, final)[..i]
    {
      var progress := i as real / (Phases - 1) as real;
      var value := start + (final - start) * progress;
      assert value == PointValue(start, final, i);
      assert Line(start, final)[..i + 1] == Line(start, final)[..i] + [Round(value)];
      trend := trend + [Round(value)];
      i := i + 1;
    }
  }

  const Styles: seq<string> := ["Visual", "Auditory", "Kinesthetic", "Reading/Writing"]

  /** The line drawn for style idx. */
  function StyleLine(ps: seq<Prediction>, idx: int): (line: seq<int>)
    requires 0 <= idx < StyleCount
    ensures |line| == Phases
    ensures line[0] == Round(StartValue(FinalValue(CurrentPercentages(ps)[idx]), idx == PredictedIndex(ps)))
    ensures line[Phases - 1] == Round(FinalValue(CurrentPercentages(ps)[idx]))
  {
    var final := FinalValue(CurrentPercentages(ps)[idx]);
    var start := StartValue(final, idx == PredictedIndex(ps));
    LineEnds(start, final);
    Line(start, final)
  }

  /** series: one line per style, in the order of Styles. */
  method Series(ps: seq<Prediction>) returns (series: seq<seq<int>>)
    ensures |series| == StyleCount
    ensures forall idx :: 0 <= idx < StyleCount ==> series[idx] == StyleLine(ps, idx)
  {
    var predictedIndex := PredictedIndex(ps);
    var current := CurrentPercentages(ps);
    series := [];
    for idx := 0 to |Styles|
      invariant |series| == idx
      invariant forall k :: 0 <= k < idx ==> series[k] == StyleLine(ps, k)
    {
      var final := FinalValue(current[idx]);
      var isPredicted := idx == predictedIndex;
      var start := StartValue(final, isPredicted);
      var trend := TrendLine(start, final);
      series := series + [trend];
    }
  }

  /** With no prediction flagged, no style is drawn as the predicted one:
      every line starts from the decline start value. */
  lemma UnflaggedDrawsNoGrowth(ps: seq<Prediction>, idx: int)
    requires forall i :: 0 <= i < |ps| ==> !ps[i].isPredicted
    requires 0 <= idx < StyleCount
    ensures StyleLine(ps, idx) ==
      Line(StartValue(FinalValue(CurrentPercentages(ps)[idx]), false), FinalValue(CurrentPercentages(ps)[idx]))
  {
    assert PredictedIndex(ps) == -1;
  }

  /** At most one style is drawn as the predicted one: the first flagged. */
  lemma OnePredictedLine(ps: seq<Prediction>, idx: int)
    requires 0 <= idx < StyleCount
    ensures idx == PredictedIndex(ps) <==>
      idx < |ps| && ps[idx].isPredicted && forall i :: 0 <= i < idx ==> !ps[i].isPredicted
  {
  }

  // ---------------------------------------------------------------------
  // Shape of a line

  predicate NonDecreasing(xs: seq<int>)
  {
    forall i, j :: 0 <= i <= j < |xs| ==> xs[i] <= xs[j]
  }

  predicate NonIncreasing(xs: seq<int>)
  {
    forall i, j :: 0 <= i <= j < |xs| ==> xs[i] >= xs[j]
  }

  /** Every line starts at the rounded start value and ends at the rounded
      final value. */
  lemma LineEnds(start: real, final: real)
    ensures Line(start, final)[0] == Round(start)
    ensures Line(start, final)[Phases - 1] == Round(final)
  {
    assert PointValue(start, final, 0) == start;
    assert PointValue(start, final, Phases - 1) == final;
  }

  /** The phase values lie between start and final and move towards final. */
  lemma PointsBetween(start: real, final: real, i: int, j: int)
    requires 0 <= i <= j <= Phases - 1
    ensures start <= final ==> start <= PointValue(start, final, i) <= PointValue(start, final, j) <= final
    ensures start >= final ==> start >= PointValue(start, final, i) >= PointValue(start, final, j) >= final
  {
    var a, b := i as real / 6.0, j as real / 6.0;
    assert 0.0 <= a <= b <= 1.0;
    var d := final - start;
    assert PointValue(start, final, i) == start + d * a;
    assert PointValue(start, final, j) == start + d * b;
    if d >= 0.0 {
      ProductSign(d, a);
      ProductSign(d, b - a);
      ProductSign(d, 1.0 - b);
    } else {
      ProductSign(-d, a);
      ProductSign(-d, b - a);
      ProductSign(-d, 1.0 - b);
    }
  }

  lemma ProductSign(x: real, y: real)
    requires x >= 0.0 && y >= 0.0
    ensures x * y >= 0.0
  {
  }

  /** A line never moves away from its final value. */
  lemma LineMonotone(start: real, final: real)
    ensures start <= final ==> NonDecreasing(Line(start, final))
    ensures start >= final ==> NonIncreasing(Line(start, final))
  {
    var line := Line(start, final);
    forall i, j | 0 <= i <= j < Phases
      ensures start <= final ==> line[i] <= line[j]
      ensures start >= final ==> line[i] >= line[j]
    {
      PointsBetween(start, final, i, j);
      if start <= final {
        RoundMonotone(PointValue(start, final, i), PointValue(start, final, j));
      }
      if start >= final {
        RoundMonotone(PointValue(start, final, j), PointValue(start, final, i));
      }
    }
  }

  /** A line never falls exactly when its rounded start is at most its
      rounded end. */
  lemma NonDecreasingIff(start: real, final: real)
    ensures NonDecreasing(Line(start, final)) <==> Round(start) <= Round(final)
  {
    var line := Line(start, final);
    LineEnds(start, final);
    LineMonotone(start, final);
    if start > final && Round(start) <= Round(final) {
      RoundMonotone(final, start);
      forall i | 0 <= i < Phases ensures line[i] == Round(start) {
        PointsBetween(start, final, i, i);
        RoundMonotone(final, PointValue(start, final, i));
        RoundMonotone(PointValue(start, final, i), start);
      }
    }
  }

  /** A line never rises exactly when its rounded end is at most its rounded
      start. */
  lemma NonIncreasingIff(start: real, final: real)
    ensures NonIncreasing(Line(start, final)) <==> Round(final) <= Round(start)
  {
    var line := Line(start, final);
    LineEnds(start, final);
    LineMonotone(start, final);
    if start < final && Round(final) <= Round(start) {
      RoundMonotone(start, final);
      forall i | 0 <= i < Phases ensures line[i] == Round(start) {
        PointsBetween(start, final, i, i);
        RoundMonotone(start, PointValue(start, final, i));
        RoundMonotone(PointValue(start, final, i), final);
      }
    }
  }

  /** The predicted style's line shows growth (never falls) exactly when its
      final value is at least 19.5; below that it starts at 20 and declines. */
  lemma PredictedGrowsIff(final: real)
    ensures NonDecreasing(Line(StartValue(final, true), final)) <==> final >= 19.5
  {
    var start := StartValue(final, true);
    NonDecreasingIff(start, final);
    if final - 25.0 < 20.0 {
      assert start == 20.0;
      assert Round(start) == 20;
    } else {
      RoundMonotone(start, final);
    }
  }

  /** Another style's line shows decline or stays level (never rises) exactly
      when its final value is below 35.5; above that it starts at 35 and rises. */
  lemma OthersDeclineIff(final: real)
    ensures NonIncreasing(Line(StartValue(final, false), final)) <==> final < 35.5
  {
    var start := StartValue(final, false);
    NonIncreasingIff(start, final);
    if final + 10.0 > 35.0 {
      assert start == 35.0;
      assert Round(start) == 35;
    } else {
      RoundMonotone(final, start);
    }
  }

  // ---------------------------------------------------------------------
  // Scales

  /** Math.min over a non-empty list. */
  function SeqMin(xs: seq<int>): (m: int)
    requires |xs| > 0
    ensures m in xs
    ensures forall i :: 0 <= i < |xs| ==> m <= xs[i]
  {
    if |xs| == 1 then xs[0] else Min(xs[0], SeqMin(xs[1..]))
  }

  /** Math.max over a non-empty list. */
  function SeqMax(xs: seq<int>): (m: int)
    requires |xs| > 0
    ensures m in xs
    ensures forall i :: 0 <= i < |xs| ==> xs[i] <= m
  {
    if |xs| == 1 then xs[0] else Max(xs[0], SeqMax(xs[1..]))
  }

  /** series.flat() */
  function Flatten(xss: seq<seq<int>>): (xs: seq<int>)
    ensures forall k, i :: 0 <= k < |xss| && 0 <= i < |xss[k]| ==> xss[k][i] in xs
    ensures forall v :: v in xs ==> exists k :: 0 <= k < |xss| && v in xss[k]
  {
    if xss == [] then [] else xss[0] + Flatten(xss[1..])
  }

  const Width: real := 760.0
  const Height: real := 260.0
  const PadTop: real := 24.0
  const PadRight: real := 24.0
  const PadBottom: real := 32.0
  const PadLeft: real := 48.0

  /** x(i): the horizontal position of phase i. */
  function X(i: int): (x: real)
    ensures 0 <= i < Phases ==> PadLeft <= x <= Width - PadRight
  {
    PadLeft + (i as real * (Width - PadLeft - PadRight) / (Phases - 1) as real)
  }

  /** y(v): the vertical position of value v, the largest value at the top;
      when all values are equal the span falls back to 1. */
  function Y(v: int, min: int, max: int): (y: real)
    ensures min <= v <= max ==> PadTop <= y <= Height - PadBottom
  {
    var span := if max - min != 0 then max - min else 1;
    var y := PadTop + ((max - v) as real * (Height - PadTop - PadBottom) / span as real);
    assert min <= v <= max ==> PadTop <= y <= Height - PadBottom by {
      if min <= v <= max && min < max {
        FractionOfHeight((max - v) as real, span as real, Height - PadTop - PadBottom);
      }
    }
    y
  }

  /** The phases span the drawing area from the left padding to the right
      one, left to right. */
  lemma XSpansWidth(i: int, j: int)
    ensures X(0) == 48.0 && X(Phases - 1) == 736.0
    ensures i < j ==> X(i) < X(j)
  {
  }

  /** Dividing by a positive span keeps the order of two numerators. */
  lemma DivideByPositive(a: real, b: real, c: real)
    requires c > 0.0
    ensures a < b ==> a / c < b / c
    ensures a <= b ==> a / c <= b / c
  {
    assert b / c - a / c == (b - a) / c;
  }

  /** A part a of a whole c, scaled to a height h, stays within 0 and h. */
  lemma FractionOfHeight(a: real, c: real, h: real)
    requires 0.0 <= a <= c && c > 0.0 && h >= 0.0
    ensures 0.0 <= a * h / c <= h
  {
    var q := a / c;
    DivideByPositive(0.0, a, c);
    DivideByPositive(a, c, c);
    assert a * h / c == q * h;
    ProductSign(q, h);
    ProductSign(1.0 - q, h);
  }

  /** The largest value is drawn at the top edge and, when the values differ,
      the smallest at the bottom edge; higher values are drawn higher. */
  lemma YSpansHeight(min: int, max: int, v: int, w: int)
    ensures Y(max, min, max) == 24.0
    ensures min < max ==> Y(min, min, max) == 228.0
    ensures min < max && v < w ==> Y(v, min, max) > Y(w, min, max)
    ensures min <= v <= max ==> 24.0 <= Y(v, min, max) <= 228.0
  {
    if min < max {
      var span := (max - min) as real;
      var a, b := (max - v) as real * 204.0, (max - w) as real * 204.0;
      assert Y(v, min, max) == 24.0 + a / span;
      assert Y(w, min, max) == 24.0 + b / span;
      DivideByPositive(b, a, span);
      DivideByPositive(0.0, a, span);
      DivideByPositive(a, span * 204.0, span);
    }
  }

  /** Every point of the chart lies inside the drawing area: the series have
      28 points, and the global minimum and maximum bound them. */
  lemma PointsInsideChart(series: seq<seq<int>>, k: int, i: int)
    requires |series| == StyleCount
    requires forall j :: 0 <= j < StyleCount ==> |series[j]| == Phases
    requires 0 <= k < StyleCount && 0 <= i < Phases
    ensures |Flatten(series)| > 0
    ensures 24.0 <= Y(series[k][i], SeqMin(Flatten(series)), SeqMax(Flatten(series))) <= 228.0
    ensures 48.0 <= X(i) <= 736.0
  {
    var all := Flatten(series);
    assert series[k][i] in all;
    var min, max := SeqMin(all), SeqMax(all);
    var j :| 0 <= j < |all| && all[j] == series[k][i];
    YSpansHeight(min, max, series[k][i], series[k][i]);
    XSpansWidth(0, i);
    XSpansWidth(i, Phases - 1);
  }
}
