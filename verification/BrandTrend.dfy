/**
 * What brand analysis concludes from a month series (src/modules/analytics/brand-performance.ts):
 * the history a trend is fitted to, the projection of next month, and the momentum verdict. Figures
 * are exact reals; the rounding of reported figures is not part of this model.
 */
module BrandTrend {
  import opened Common
  import opened LinearFit

  datatype Month = Month(netSales: real, contribution: real)

  datatype Confidence = NoConfidence | Low | Medium | High

  datatype Momentum = InsufficientHistory | Growing | Stable | Declining

  /** `variance` is the square of the band around the projected contribution. */
  datatype Projection = Projection(netSales: real, contribution: real, variance: real)

  datatype Trend = Trend(months: nat, salesFit: Fit, contributionFit: Fit, confidence: Confidence,
                         next: Option<Projection>, momentum: Momentum)

  const MIN_HISTORY_MONTHS := 3
  const MOMENTUM_THRESHOLD := 0.05

  /** The months before the one in progress. */
  function Completed(series: seq<Month>): seq<Month> {
    if series == [] then [] else series[..|series| - 1]
  }

  /** From the first month with sales on; nothing when there is none. */
  function SinceFirstSale(months: seq<Month>): seq<Month> {
    if months == [] || months[0].netSales > 0.0 then months else SinceFirstSale(months[1..])
  }

  function History(series: seq<Month>): seq<Month> { SinceFirstSale(Completed(series)) }

  function Sales(months: seq<Month>): (ys: seq<real>)
    ensures |ys| == |months|
  {
    seq(|months|, i requires 0 <= i < |months| => months[i].netSales)
  }

  function Contributions(months: seq<Month>): (ys: seq<real>)
    ensures |ys| == |months|
  {
    seq(|months|, i requires 0 <= i < |months| => months[i].contribution)
  }

  function MeanSales(months: seq<Month>): real {
    if months == [] then 0.0 else MeanY(Sales(months))
  }

  function ConfidenceOf(months: nat, r2: Option<real>): Confidence {
    if months < MIN_HISTORY_MONTHS then NoConfidence
    else if months >= 6 && (if r2.Some? then r2.value else 0.0) >= 0.5 then High
    else if months >= 4 then Medium
    else Low
  }

  /** The point of the line a + b x at month x. */
  function LineAt(a: real, b: real, x: nat): real { a + b * (x as real) }

  function Floored(x: real): real { if x > 0.0 then x else 0.0 }

  function ProjectionOf(months: nat, sales: Fit, contribution: Fit): Option<Projection> {
    if months < MIN_HISTORY_MONTHS then None
    else Some(Projection(Floored(LineAt(sales.intercept, sales.slope, months)),
                         LineAt(contribution.intercept, contribution.slope, months), contribution.variance))
  }

  function MomentumOf(months: nat, slope: real, meanSales: real): Momentum {
    var relative := if meanSales > 0.0 then slope / meanSales else 0.0;
    if months < MIN_HISTORY_MONTHS then InsufficientHistory
    else if relative > MOMENTUM_THRESHOLD then Growing
    else if relative < -MOMENTUM_THRESHOLD then Declining
    else Stable
  }

  function TrendOf(series: seq<Month>): Trend {
    var history := History(series);
    var sales, contribution := FitOf(Sales(history)), FitOf(Contributions(history));
    Trend(|history|, sales, contribution, ConfidenceOf(|history|, sales.r2),
          ProjectionOf(|history|, sales, contribution), MomentumOf(|history|, sales.slope, MeanSales(history)))
  }

  // ---------------------------------------------------------------------------
  // What the trend depends on

  lemma {:induction false} SinceFirstSaleSkips(idle: seq<Month>, months: seq<Month>)
    requires forall m :: m in idle ==> m.netSales <= 0.0
    ensures SinceFirstSale(idle + months) == SinceFirstSale(months)
  {
    if idle == [] {
      assert idle + months == months;
    } else {
      assert idle[0] in idle;
      assert (idle + months)[1..] == idle[1..] + months;
      SinceFirstSaleSkips(idle[1..], months);
    }
  }

  /**
   * The trend is that of the completed months since the first sale: idle months before that one and
   * the month in progress change no part of it.
   */
  lemma OnlyHistoryMatters(idle: seq<Month>, completed: seq<Month>, current: Month, other: Month)
    requires forall m :: m in idle ==> m.netSales <= 0.0
    ensures TrendOf(idle + completed + [current]) == TrendOf(completed + [other])
  {
    assert Completed(idle + completed + [current]) == idle + completed;
    assert Completed(completed + [other]) == completed;
    SinceFirstSaleSkips(idle, completed);
  }

  /** The history starts with a month of sales and is the whole of what follows it. */
  lemma {:induction false} HistoryStartsWithSales(months: seq<Month>) returns (k: nat)
    ensures k <= |months| && SinceFirstSale(months) == months[k..]
    ensures forall i :: 0 <= i < k ==> months[i].netSales <= 0.0
    ensures k < |months| ==> months[k].netSales > 0.0
  {
    if months == [] || months[0].netSales > 0.0 {
      k := 0;
    } else {
      k := HistoryStartsWithSales(months[1..]);
      k := k + 1;
      assert months[1..][k - 1..] == months[k..];
      forall i | 0 <= i < k ensures months[i].netSales <= 0.0 {
        if i > 0 { assert months[1..][i - 1] == months[i]; }
      }
    }
  }

  /** Growing means exactly: a monthly rise of more than 5% of average monthly sales, over enough months. */
  lemma MomentumMeans(series: seq<Month>)
    ensures var t, mean := TrendOf(series), MeanSales(History(series));
      && (t.momentum == Growing <==> t.months >= 3 && mean > 0.0 && t.salesFit.slope > 0.05 * mean)
      && (t.momentum == Declining <==> t.months >= 3 && mean > 0.0 && t.salesFit.slope < -(0.05 * mean))
      && (t.momentum == InsufficientHistory <==> t.months < 3)
      && (t.next.None? <==> t.months < 3)
  {
    MomentumExact(TrendOf(series).months, TrendOf(series).salesFit.slope, MeanSales(History(series)));
  }

  lemma MomentumExact(months: nat, slope: real, mean: real)
    ensures var momentum := MomentumOf(months, slope, mean);
      && (momentum == Growing <==> months >= 3 && mean > 0.0 && slope > 0.05 * mean)
      && (momentum == Declining <==> months >= 3 && mean > 0.0 && slope < -(0.05 * mean))
      && (momentum == InsufficientHistory <==> months < 3)
  {
    if mean > 0.0 { RatioCompares(slope, mean); }
  }

  lemma RatioCompares(p: real, q: real)
    requires q > 0.0
    ensures p / q > 0.05 <==> p > 0.05 * q
    ensures p / q < -0.05 <==> p < -(0.05 * q)
  {
    var t := p / q;
    assert t * q == p;
    if t > 0.05 { assert (t - 0.05) * q > 0.0; } else { assert (0.05 - t) * q >= 0.0; }
    if t < -0.05 { assert (-0.05 - t) * q > 0.0; } else { assert (t + 0.05) * q >= 0.0; }
  }

  /** All the net sales of some months. */
  function SalesTotal(months: seq<Month>): real {
    if months == [] then 0.0 else SalesTotal(months[..|months| - 1]) + months[|months| - 1].netSales
  }

  lemma {:induction false} SalesSum(months: seq<Month>, n: nat)
    requires n <= |months|
    ensures Sum(Points(Sales(months)), n) == SalesTotal(months[..n])
  {
    if n > 0 {
      SalesSum(months, n - 1);
      assert months[..n][..n - 1] == months[..n - 1];
    }
  }

  /** The average that momentum is measured against. */
  lemma MeanSalesMeans(months: seq<Month>)
    requires months != []
    ensures MeanSales(months) == SalesTotal(months) / (|months| as real)
  {
    var ys, n := Sales(months), |months|;
    SalesSum(months, n);
    assert months[..n] == months;
  }

  /**
   * A trend in numbers: which fits it holds, which grade it has, and that it projects both fits to the month
   * after the history, sales no lower than zero.
   */
  lemma TrendMeans(series: seq<Month>, sales: seq<real>, contributions: seq<real>)
    requires var h := History(series);
      && |sales| == |contributions| == |h|
      && forall i :: 0 <= i < |h| ==> sales[i] == h[i].netSales && contributions[i] == h[i].contribution
    ensures var t := TrendOf(series);
      && t.months == |History(series)| && t.salesFit == FitOf(sales) && t.contributionFit == FitOf(contributions)
      && (t.confidence == NoConfidence <==> t.months < 3)
      && (t.confidence == High <==> t.months >= 6 && t.salesFit.r2.Some? && t.salesFit.r2.value >= 0.5)
      && (t.confidence == Low <==> t.months == 3)
      && (t.next.Some? <==> t.months >= 3)
      && (t.next.Some? ==>
           && t.next.value.netSales == Floored(LineAt(t.salesFit.intercept, t.salesFit.slope, t.months))
           && t.next.value.contribution == LineAt(t.contributionFit.intercept, t.contributionFit.slope, t.months)
           && t.next.value.variance == t.contributionFit.variance)
  {
    assert sales == Sales(History(series)) && contributions == Contributions(History(series));
    GradeMeans(TrendOf(series).months, FitOf(sales).r2);
    ProjectionMeans(TrendOf(series).months, FitOf(sales), FitOf(contributions));
  }

  lemma GradeMeans(months: nat, r2: Option<real>)
    ensures var grade := ConfidenceOf(months, r2);
      && (grade == NoConfidence <==> months < 3)
      && (grade == High <==> months >= 6 && r2.Some? && r2.value >= 0.5)
      && (grade == Low <==> months == 3)
  {
  }

  lemma ProjectionMeans(months: nat, sales: Fit, contribution: Fit)
    ensures var next := ProjectionOf(months, sales, contribution);
      && (next.Some? <==> months >= 3)
      && (next.Some? ==>
           && next.value.netSales == Floored(LineAt(sales.intercept, sales.slope, months))
           && next.value.contribution == LineAt(contribution.intercept, contribution.slope, months)
           && next.value.variance == contribution.variance)
  {
  }

  /** A line's point, and the larger of a figure and zero. */
  lemma LinePoint(a: real, b: real, x: nat)
    ensures LineAt(a, b, 0) == a && LineAt(a, b, x + 1) == LineAt(a, b, x) + b
    ensures Floored(a) >= 0.0 && Floored(a) >= a && (Floored(a) == a || Floored(a) == 0.0)
  {
  }

  /** What the projection and its grade are worth once the sales fit is the line c + d x. */
  lemma ProjectionExact(months: nat, sales: Fit, contribution: Fit, c: real, d: real)
    requires months >= 3 && sales.slope == d && sales.intercept == c && (sales.r2.Some? ==> sales.r2.value == 1.0)
    ensures var next := ProjectionOf(months, sales, contribution);
      next.Some? && next.value.netSales == Floored(LineAt(c, d, months))
    ensures ConfidenceOf(months, sales.r2) == High <==> months >= 6 && sales.r2.Some?
  {
  }

  /** A trend whose parts fit together. */
  predicate Assembled(t: Trend) {
    t.next == ProjectionOf(t.months, t.salesFit, t.contributionFit) &&
      t.confidence == ConfidenceOf(t.months, t.salesFit.r2)
  }

  lemma TrendProjects(t: Trend, c: real, d: real)
    requires Assembled(t) && t.months >= 3
    requires t.salesFit.slope == d && t.salesFit.intercept == c && (t.salesFit.r2.Some? ==> t.salesFit.r2.value == 1.0)
    ensures t.next.Some? && t.next.value.netSales == Floored(LineAt(c, d, t.months))
    ensures (t.confidence == High <==> t.months >= 6 && t.salesFit.r2.Some?)
  {
    ProjectionExact(t.months, t.salesFit, t.contributionFit, c, d);
  }

  lemma ContributionExact(months: nat, sales: Fit, contribution: Fit, c: real, d: real)
    requires months >= 3 && contribution.slope == d && contribution.intercept == c && contribution.variance == 0.0
    ensures var next := ProjectionOf(months, sales, contribution);
      next.Some? && next.value.contribution == LineAt(c, d, months) && next.value.variance == 0.0
  {
  }

  lemma SalesRecovered(series: seq<Month>, c: real, d: real)
    requires |History(series)| >= 3 && OnLine(Sales(History(series)), c, d)
    ensures var t := TrendOf(series);
      && Assembled(t) && t.months >= 3
      && t.salesFit.slope == d && t.salesFit.intercept == c && (t.salesFit.r2.Some? ==> t.salesFit.r2.value == 1.0)
      && (t.salesFit.r2.Some? <==> d != 0.0)
  {
    RecoversFit(Sales(History(series)), c, d);
    SteepnessShows(Sales(History(series)), c, d);
  }

  /**
   * Sales on a straight line are projected to the next point of that line, or to zero below it; the
   * grade is the highest exactly for six months or more of a line that rises or falls.
   */
  lemma ProjectsLine(series: seq<Month>, c: real, d: real)
    requires |History(series)| >= 3 && OnLine(Sales(History(series)), c, d)
    ensures var t := TrendOf(series);
      && t.next.Some? && t.next.value.netSales == Floored(LineAt(c, d, t.months))
      && t.salesFit.slope == d
      && (t.confidence == High <==> t.months >= 6 && d != 0.0)
  {
    SalesRecovered(series, c, d);
    TrendProjects(TrendOf(series), c, d);
  }

  /** Contribution on a straight line is projected exactly, with no band around it. */
  lemma ProjectsContribution(series: seq<Month>, c: real, d: real)
    requires |History(series)| >= 3 && OnLine(Contributions(History(series)), c, d)
    ensures var t := TrendOf(series);
      t.next.Some? && t.next.value.contribution == LineAt(c, d, t.months) && t.next.value.variance == 0.0
  {
    RecoversFit(Contributions(History(series)), c, d);
    ContributionExact(TrendOf(series).months, TrendOf(series).salesFit, TrendOf(series).contributionFit, c, d);
  }
}
