/**
 * The least-squares trend (src/modules/analytics/brand-performance.ts), over exact reals. Rounding
 * and the square root of the residual variance are not part of this model.
 */
module LinearFit {
  import opened Common

  /** `variance` is the square of the reported residual deviation. */
  datatype Fit = Fit(slope: real, intercept: real, r2: Option<real>, variance: real)

  // ---------------------------------------------------------------------------
  // Sums over positions 0, 1, ..., n - 1

  function Sum(f: nat -> real, n: nat): real {
    if n == 0 then 0.0 else Sum(f, n - 1) + f(n - 1)
  }

  /** Sums are linear. */
  lemma {:induction false} SumLinear(h: nat -> real, f: nat -> real, c: real, g: nat -> real, n: nat)
    requires forall i: nat :: i < n ==> h(i) == f(i) + c * g(i)
    ensures Sum(h, n) == Sum(f, n) + c * Sum(g, n)
  {
    if n > 0 {
      SumLinear(h, f, c, g, n - 1);
      Distribute(c, Sum(g, n - 1), g(n - 1));
    }
  }

  lemma Distribute(c: real, x: real, y: real)
    ensures c * (x + y) == c * x + c * y
  {
  }

  lemma {:induction false} SumAdds(h: nat -> real, f: nat -> real, g: nat -> real, n: nat)
    requires forall i: nat :: i < n ==> h(i) == f(i) + g(i)
    ensures Sum(h, n) == Sum(f, n) + Sum(g, n)
  {
    if n > 0 { SumAdds(h, f, g, n - 1); }
  }

  lemma {:induction false} SumNonNegative(f: nat -> real, n: nat)
    requires forall i: nat :: i < n ==> f(i) >= 0.0
    ensures Sum(f, n) >= 0.0
    ensures Sum(f, n) == 0.0 <==> forall i: nat :: i < n ==> f(i) == 0.0
  {
    if n > 0 { SumNonNegative(f, n - 1); }
  }

  lemma {:induction false} SumOfOnes(f: nat -> real, n: nat)
    requires forall i: nat :: i < n ==> f(i) == 1.0
    ensures Sum(f, n) == n as real
  {
    if n > 0 { SumOfOnes(f, n - 1); }
  }

  function Sq(x: real): real { x * x }

  lemma SameSign(x: real, y: real, p: real)
    requires p == x * y && ((x > 0.0 && y > 0.0) || (x < 0.0 && y < 0.0))
    ensures p > 0.0
  {
  }

  lemma SqNonNegative(x: real)
    ensures Sq(x) >= 0.0 && (Sq(x) == 0.0 <==> x == 0.0)
  {
    if x != 0.0 { SameSign(x, x, Sq(x)); }
  }

  // ---------------------------------------------------------------------------
  // Series, as functions of the position

  function Squared(f: nat -> real): nat -> real { (i: nat) => Sq(f(i)) }

  /** Each value times the distance of its position from `mx`. */
  function Weighted(f: nat -> real, mx: real): nat -> real { (i: nat) => ((i as real) - mx) * f(i) }

  function Product(f: nat -> real, g: nat -> real): nat -> real { (i: nat) => f(i) * g(i) }

  function Scaled(c: real, f: nat -> real): nat -> real { (i: nat) => c * f(i) }

  function Line(a: real, b: real): nat -> real { (i: nat) => a + b * (i as real) }

  function Positions(): nat -> real { (i: nat) => i as real }

  function Ones(): nat -> real { (i: nat) => 1.0 }

  function CentredX(mx: real): nat -> real { (i: nat) => (i as real) - mx }

  function At(ys: seq<real>, i: nat): real { if i < |ys| then ys[i] else 0.0 }

  function Points(ys: seq<real>): nat -> real { (i: nat) => At(ys, i) }

  function CentredY(ys: seq<real>, my: real): nat -> real { (i: nat) => At(ys, i) - my }

  /** Distances of the points from the line a + b x. */
  function Residuals(ys: seq<real>, a: real, b: real): nat -> real { (i: nat) => At(ys, i) - (a + b * (i as real)) }

  lemma {:induction false} SumScaled(c: real, f: nat -> real, n: nat)
    ensures Sum(Scaled(c, f), n) == c * Sum(f, n)
  {
    if n > 0 {
      SumScaled(c, f, n - 1);
      Distribute(c, Sum(f, n - 1), f(n - 1));
    }
  }

  // ---------------------------------------------------------------------------
  // The fit

  /** Residual sum of squares of the line a + b x. */
  function SumSquares(ys: seq<real>, a: real, b: real): real { Sum(Squared(Residuals(ys, a, b)), |ys|) }

  function MeanX(n: nat): real { ((n as real) - 1.0) / 2.0 }

  function MeanY(ys: seq<real>): real
    requires ys != []
  {
    Sum(Points(ys), |ys|) / (|ys| as real)
  }

  function Sxx(ys: seq<real>): real { Sum(Squared(CentredX(MeanX(|ys|))), |ys|) }

  function Sxy(ys: seq<real>): real
    requires ys != []
  {
    Sum(Weighted(CentredY(ys, MeanY(ys)), MeanX(|ys|)), |ys|)
  }

  function Slope(ys: seq<real>): real
    requires ys != []
  {
    if Sxx(ys) > 0.0 then Sxy(ys) / Sxx(ys) else 0.0
  }

  function Intercept(ys: seq<real>): real
    requires ys != []
  {
    MeanY(ys) - Slope(ys) * MeanX(|ys|)
  }

  function RSquared(ssRes: real, ssTot: real): Option<real> {
    if ssTot > 0.0 then Some(1.0 - ssRes / ssTot) else None
  }

  function Variance(ssRes: real, n: nat): real {
    if n > 2 then ssRes / ((n - 2) as real) else 0.0
  }

  function FitOf(ys: seq<real>): Fit {
    if ys == [] then Fit(0.0, 0.0, None, 0.0)
    else
      var ssRes := SumSquares(ys, Intercept(ys), Slope(ys));
      Fit(Slope(ys), Intercept(ys), RSquared(ssRes, SumSquares(ys, MeanY(ys), 0.0)), Variance(ssRes, |ys|))
  }

  lemma SumOfSquares(f: nat -> real, n: nat)
    ensures Sum(Squared(f), n) >= 0.0
    ensures Sum(Squared(f), n) == 0.0 <==> forall i: nat :: i < n ==> f(i) == 0.0
  {
    forall i: nat ensures Squared(f)(i) >= 0.0 && (Squared(f)(i) == 0.0 <==> f(i) == 0.0) {
      SqNonNegative(f(i));
    }
    SumNonNegative(Squared(f), n);
  }

  // ---------------------------------------------------------------------------
  // Sums about the means

  lemma {:induction false} SumPositions(n: nat)
    ensures Sum(Positions(), n) == (n as real) * MeanX(n)
  {
    if n > 0 {
      SumPositions(n - 1);
      HalfSquare((n - 1) as real);
    }
  }

  lemma HalfSquare(m: real)
    ensures m * ((m - 1.0) / 2.0) + m == (m + 1.0) * (((m + 1.0) - 1.0) / 2.0)
  {
  }

  /** Subtracting a mean leaves a sum of zero. */
  lemma SumCentred(h: nat -> real, f: nat -> real, mean: real, n: nat)
    requires forall i: nat :: i < n ==> h(i) == f(i) - mean
    requires Sum(f, n) == (n as real) * mean
    ensures Sum(h, n) == 0.0
  {
    SumOfOnes(Ones(), n);
    SumLinear(h, f, -mean, Ones(), n);
  }

  lemma MeanTotal(ys: seq<real>)
    requires ys != []
    ensures Sum(Points(ys), |ys|) == (|ys| as real) * MeanY(ys)
  {
  }

  /** Positions and values have no mean left once theirs is subtracted. */
  lemma CentredSums(ys: seq<real>)
    requires ys != []
    ensures Sum(CentredX(MeanX(|ys|)), |ys|) == 0.0
    ensures Sum(CentredY(ys, MeanY(ys)), |ys|) == 0.0
  {
    SumPositions(|ys|);
    SumCentred(CentredX(MeanX(|ys|)), Positions(), MeanX(|ys|), |ys|);
    MeanTotal(ys);
    SumCentred(CentredY(ys, MeanY(ys)), Points(ys), MeanY(ys), |ys|);
  }

  /** The sum of the residuals, and that of the residuals weighted by position. */
  function SumResiduals(ys: seq<real>, a: real, b: real): real { Sum(Residuals(ys, a, b), |ys|) }

  function SumXResiduals(ys: seq<real>, a: real, b: real): real { Sum(Weighted(Residuals(ys, a, b), 0.0), |ys|) }

  /** The residuals of a line through the means are those of the centred values from the centred line. */
  ghost predicate Apart(d: nat -> real, v: nat -> real, b: real, u: nat -> real) {
    forall i: nat :: d(i) == v(i) + -b * u(i)
  }

  lemma ResidualsAbout(ys: seq<real>, a: real, b: real, mx: real, my: real)
    requires a == my - b * mx
    ensures Apart(Residuals(ys, a, b), CentredY(ys, my), b, CentredX(mx))
  {
    forall i: nat ensures Residuals(ys, a, b)(i) == CentredY(ys, my)(i) + -b * CentredX(mx)(i) {
      OneResidual(At(ys, i), a, b, i as real, mx, my);
    }
  }

  lemma OneResidual(y: real, a: real, b: real, x: real, mx: real, my: real)
    requires a == my - b * mx
    ensures y - (a + b * x) == (y - my) + -b * (x - mx)
  {
  }

  lemma SumApart(d: nat -> real, v: nat -> real, b: real, u: nat -> real, n: nat)
    requires Apart(d, v, b, u)
    ensures Sum(d, n) == Sum(v, n) + -b * Sum(u, n)
    ensures Sum(v, n) == 0.0 && Sum(u, n) == 0.0 ==> Sum(d, n) == 0.0
  {
    SumLinear(d, v, -b, u, n);
  }

  lemma WeightedApartAt(d: nat -> real, v: nat -> real, b: real, mx: real, i: nat)
    requires Apart(d, v, b, CentredX(mx))
    ensures Weighted(d, mx)(i) == Weighted(v, mx)(i) + -b * Squared(CentredX(mx))(i)
  {
    assert d(i) == v(i) + -b * CentredX(mx)(i);
    OneProduct((i as real) - mx, v(i), b, d(i));
  }

  lemma OneProduct(u: real, v: real, b: real, d: real)
    requires d == v + -b * u
    ensures u * d == u * v + -b * Sq(u)
  {
  }

  lemma WeightedApart(d: nat -> real, v: nat -> real, b: real, mx: real)
    requires Apart(d, v, b, CentredX(mx))
    ensures Apart(Weighted(d, mx), Weighted(v, mx), b, Squared(CentredX(mx)))
  {
    forall i: nat ensures Weighted(d, mx)(i) == Weighted(v, mx)(i) + -b * Squared(CentredX(mx))(i) {
      WeightedApartAt(d, v, b, mx, i);
    }
  }

  /** Weighted by the centred positions, they split into products and squares. */
  lemma SumWeightedApart(d: nat -> real, v: nat -> real, b: real, mx: real, n: nat)
    requires Apart(d, v, b, CentredX(mx))
    ensures Sum(Weighted(d, mx), n) == Sum(Weighted(v, mx), n) + -b * Sum(Squared(CentredX(mx)), n)
  {
    WeightedApart(d, v, b, mx);
    SumApart(Weighted(d, mx), Weighted(v, mx), b, Squared(CentredX(mx)), n);
  }

  /** The weights may be taken from any origin when the values sum to zero. */
  lemma SumRecentred(d: nat -> real, mx: real, n: nat)
    requires Sum(d, n) == 0.0
    ensures Sum(Weighted(d, 0.0), n) == Sum(Weighted(d, mx), n)
  {
    forall i: nat ensures Weighted(d, 0.0)(i) == Weighted(d, mx)(i) + mx * d(i) {
      Recentre(i as real, mx, d(i));
    }
    SumLinear(Weighted(d, 0.0), Weighted(d, mx), mx, d, n);
  }

  lemma Recentre(x: real, mx: real, d: real)
    ensures (x - 0.0) * d == (x - mx) * d + mx * d
  {
  }

  /** The residuals of any line through the means sum to zero. */
  lemma ThroughMeans(ys: seq<real>, a: real, b: real)
    requires ys != [] && a == MeanY(ys) - b * MeanX(|ys|)
    ensures SumResiduals(ys, a, b) == 0.0
  {
    CentredSums(ys);
    ResidualsAbout(ys, a, b, MeanX(|ys|), MeanY(ys));
    SumApart(Residuals(ys, a, b), CentredY(ys, MeanY(ys)), b, CentredX(MeanX(|ys|)), |ys|);
  }

  /** Weighted by position, they sum to Sxy - b Sxx. */
  lemma WeightedThroughMeans(ys: seq<real>, a: real, b: real)
    requires ys != [] && a == MeanY(ys) - b * MeanX(|ys|)
    ensures SumXResiduals(ys, a, b) == Sxy(ys) + -b * Sxx(ys)
  {
    ThroughMeans(ys, a, b);
    SumRecentred(Residuals(ys, a, b), MeanX(|ys|), |ys|);
    ResidualsAbout(ys, a, b, MeanX(|ys|), MeanY(ys));
    SumWeightedApart(Residuals(ys, a, b), CentredY(ys, MeanY(ys)), b, MeanX(|ys|), |ys|);
  }

  lemma SxxPositive(ys: seq<real>)
    requires |ys| >= 2
    ensures Sxx(ys) > 0.0
  {
    var u := CentredX(MeanX(|ys|));
    SumOfSquares(u, |ys|);
    assert u(0) != 0.0;
  }

  lemma SlopeEquation(ys: seq<real>)
    requires |ys| >= 2
    ensures Sxy(ys) + -Slope(ys) * Sxx(ys) == 0.0
  {
    SxxPositive(ys);
  }

  /** The residuals of the fitted line sum to zero and are orthogonal to the positions. */
  lemma NormalEquations(ys: seq<real>)
    requires ys != []
    ensures SumResiduals(ys, Intercept(ys), Slope(ys)) == 0.0
    ensures SumXResiduals(ys, Intercept(ys), Slope(ys)) == 0.0
  {
    ThroughMeans(ys, Intercept(ys), Slope(ys));
    if |ys| >= 2 {
      WeightedThroughMeans(ys, Intercept(ys), Slope(ys));
      SlopeEquation(ys);
    } else {
      OneWeight(Residuals(ys, Intercept(ys), Slope(ys)));
    }
  }

  lemma OneWeight(d: nat -> real)
    ensures Sum(Weighted(d, 0.0), 1) == 0.0
  {
    assert Sum(Weighted(d, 0.0), 0) == 0.0;
    assert Weighted(d, 0.0)(0) == 0.0;
  }

  // ---------------------------------------------------------------------------
  // Optimality

  /** Sum of squares of the line da + db x itself, over the positions of the points. */
  function LineSquares(n: nat, da: real, db: real): real { Sum(Squared(Line(da, db)), n) }

  lemma SqDifference(d: real, w: real)
    ensures Sq(d - w) == Sq(d) + Sq(w) + -2.0 * (d * w)
  {
  }

  /** The squares of a difference. */
  lemma {:induction false} SumOfDifference(e: nat -> real, d: nat -> real, w: nat -> real, n: nat)
    requires forall i: nat :: e(i) == d(i) - w(i)
    ensures Sum(Squared(e), n) == Sum(Squared(d), n) + Sum(Squared(w), n) + -2.0 * Sum(Product(d, w), n)
  {
    if n > 0 {
      SumOfDifference(e, d, w, n - 1);
      SqDifference(d(n - 1), w(n - 1));
      Distribute(-2.0, Sum(Product(d, w), n - 1), d(n - 1) * w(n - 1));
    }
  }

  lemma OneCross(d: real, da: real, db: real, x: real)
    ensures d * (da + db * x) == da * d + db * ((x - 0.0) * d)
  {
  }

  /** Products with a line. */
  lemma SumOfCross(d: nat -> real, da: real, db: real, n: nat)
    ensures Sum(Product(d, Line(da, db)), n) == da * Sum(d, n) + db * Sum(Weighted(d, 0.0), n)
  {
    forall i: nat ensures Product(d, Line(da, db))(i) == Scaled(da, d)(i) + Scaled(db, Weighted(d, 0.0))(i) {
      OneCross(d(i), da, db, i as real);
    }
    SumAdds(Product(d, Line(da, db)), Scaled(da, d), Scaled(db, Weighted(d, 0.0)), n);
    SumScaled(da, d, n);
    SumScaled(db, Weighted(d, 0.0), n);
  }

  lemma ResidualsMoved(ys: seq<real>, a: real, b: real, da: real, db: real, i: nat)
    ensures Residuals(ys, a + da, b + db)(i) == Residuals(ys, a, b)(i) - Line(da, db)(i)
  {
    Distribute(i as real, b, db);
  }

  /** Values orthogonal to every line. */
  lemma CrossVanishes(d: nat -> real, da: real, db: real, n: nat)
    requires Sum(d, n) == 0.0 && Sum(Weighted(d, 0.0), n) == 0.0
    ensures Sum(Product(d, Line(da, db)), n) == 0.0
  {
    SumOfCross(d, da, db, n);
  }

  /** Any line is worse than the fitted one by exactly the squares of the difference of the two lines. */
  lemma ExcessSquares(ys: seq<real>, a: real, b: real)
    requires ys != []
    ensures SumSquares(ys, a, b)
         == SumSquares(ys, Intercept(ys), Slope(ys)) + LineSquares(|ys|, a - Intercept(ys), b - Slope(ys))
  {
    var a0, b0 := Intercept(ys), Slope(ys);
    var da, db := a - a0, b - b0;
    NormalEquations(ys);
    CrossVanishes(Residuals(ys, a0, b0), da, db, |ys|);
    assert a0 + da == a && b0 + db == b;
    forall i: nat ensures Residuals(ys, a, b)(i) == Residuals(ys, a0, b0)(i) - Line(da, db)(i) {
      ResidualsMoved(ys, a0, b0, da, db, i);
    }
    SumOfDifference(Residuals(ys, a, b), Residuals(ys, a0, b0), Line(da, db), |ys|);
  }

  lemma LineSquaresNonNegative(n: nat, da: real, db: real)
    ensures LineSquares(n, da, db) >= 0.0
    ensures n >= 2 ==> (LineSquares(n, da, db) == 0.0 <==> da == 0.0 && db == 0.0)
  {
    var f := Line(da, db);
    SumOfSquares(f, n);
    assert f(0) == da && f(1) == da + db;
  }

  /** Least squares: no line is closer to the points than the fitted one. */
  lemma Optimal(ys: seq<real>, a: real, b: real)
    requires ys != []
    ensures SumSquares(ys, FitOf(ys).intercept, FitOf(ys).slope) <= SumSquares(ys, a, b)
  {
    ExcessSquares(ys, a, b);
    LineSquaresNonNegative(|ys|, a - Intercept(ys), b - Slope(ys));
  }

  /** With two points or more the fitted line is the only closest line. */
  lemma UniquelyOptimal(ys: seq<real>, a: real, b: real)
    requires |ys| >= 2
    ensures SumSquares(ys, a, b) == SumSquares(ys, FitOf(ys).intercept, FitOf(ys).slope)
       <==> a == FitOf(ys).intercept && b == FitOf(ys).slope
  {
    ExcessSquares(ys, a, b);
    LineSquaresNonNegative(|ys|, a - Intercept(ys), b - Slope(ys));
  }

  /** The reported r-squared, when there is one, lies between 0 and 1; the variance is never negative. */
  lemma RSquaredBounded(ys: seq<real>)
    ensures var f := FitOf(ys); (f.r2.Some? ==> 0.0 <= f.r2.value <= 1.0) && f.variance >= 0.0
  {
    if ys != [] {
      Optimal(ys, MeanY(ys), 0.0);
      SumOfSquares(Residuals(ys, Intercept(ys), Slope(ys)), |ys|);
      RSquaredRange(SumSquares(ys, Intercept(ys), Slope(ys)), SumSquares(ys, MeanY(ys), 0.0), |ys|);
    }
  }

  lemma RSquaredRange(ssRes: real, ssTot: real, n: nat)
    requires 0.0 <= ssRes <= ssTot
    ensures var r := RSquared(ssRes, ssTot); r.Some? ==> 0.0 <= r.value <= 1.0
    ensures Variance(ssRes, n) >= 0.0
  {
    if ssTot > 0.0 {
      var t := ssRes / ssTot;
      assert t * ssTot == ssRes;
      if t < 0.0 {
        assert t * ssTot < 0.0;
      } else if t > 1.0 {
        assert (t - 1.0) * ssTot > 0.0;
      }
    }
    if n > 2 {
      var d := (n - 2) as real;
      var v := ssRes / d;
      assert v * d == ssRes;
      if v < 0.0 { assert v * d < 0.0; }
    }
  }

  // ---------------------------------------------------------------------------
  // Exact recovery of a straight line

  ghost predicate OnLine(ys: seq<real>, c: real, d: real) {
    forall i: nat :: i < |ys| ==> Residuals(ys, c, d)(i) == 0.0
  }

  /** A series on a straight line is recovered exactly. */
  lemma RecoversFit(ys: seq<real>, c: real, d: real)
    requires |ys| >= 2 && OnLine(ys, c, d)
    ensures var f := FitOf(ys);
      f.slope == d && f.intercept == c && f.variance == 0.0 && (f.r2.Some? ==> f.r2.value == 1.0)
  {
    SumOfSquares(Residuals(ys, c, d), |ys|);
    Optimal(ys, c, d);
    SumOfSquares(Residuals(ys, Intercept(ys), Slope(ys)), |ys|);
    UniquelyOptimal(ys, c, d);
  }

  /** The residual sum of squares of a longer series: one more squared residual. */
  lemma SquaresAdd(ys: seq<real>, y: real, a: real, b: real)
    ensures SumSquares([], a, b) == 0.0
    ensures var residual := y - (a + b * (|ys| as real));
      SumSquares(ys + [y], a, b) == SumSquares(ys, a, b) + residual * residual
  {
    SumAgrees(Squared(Residuals(ys + [y], a, b)), Squared(Residuals(ys, a, b)), |ys|);
    assert Residuals(ys + [y], a, b)(|ys|) == y - (a + b * (|ys| as real));
  }

  lemma {:induction false} SumAgrees(f: nat -> real, g: nat -> real, n: nat)
    requires forall i: nat :: i < n ==> f(i) == g(i)
    ensures Sum(f, n) == Sum(g, n)
  {
    if n > 0 { SumAgrees(f, g, n - 1); }
  }

  /**
   * What the fit reports beside the line, over any level line whose residuals cancel out: r-squared is the
   * part of its squares that the fitted line explains, and the variance shares the rest among all points but two.
   */
  lemma FitExplains(ys: seq<real>, mean: real)
    requires ys != [] && SumResiduals(ys, mean, 0.0) == 0.0
    ensures var f := FitOf(ys);
      var ssRes, ssTot := SumSquares(ys, f.intercept, f.slope), SumSquares(ys, mean, 0.0);
      && (|ys| > 2 ==> f.variance * ((|ys| as real) - 2.0) == ssRes)
      && (|ys| <= 2 ==> f.variance == 0.0)
      && (f.r2.Some? <==> ssTot > 0.0)
      && (f.r2.Some? ==> f.r2.value * ssTot == ssTot - ssRes)
  {
    MeanIs(ys, mean);
    var f := FitOf(ys);
    var ssRes, ssTot := SumSquares(ys, f.intercept, f.slope), SumSquares(ys, mean, 0.0);
    if |ys| > 2 { Shared(ssRes, (|ys| - 2) as real); }
    if ssTot > 0.0 { Explained(ssRes, ssTot); }
  }

  lemma MeanIs(ys: seq<real>, mean: real)
    requires ys != [] && SumResiduals(ys, mean, 0.0) == 0.0
    ensures mean == MeanY(ys)
  {
    SumOfOnes(Ones(), |ys|);
    forall i: nat ensures Residuals(ys, mean, 0.0)(i) == Points(ys)(i) + (-mean) * Ones()(i) { }
    SumLinear(Residuals(ys, mean, 0.0), Points(ys), -mean, Ones(), |ys|);
    MeanTotal(ys);
    SameMean(|ys| as real, mean, MeanY(ys));
  }

  lemma SameMean(n: real, a: real, b: real)
    requires n > 0.0 && n * b - n * a == 0.0
    ensures a == b
  {
    assert n * (b - a) == 0.0;
  }

  lemma Shared(ssRes: real, d: real)
    requires d > 0.0
    ensures (ssRes / d) * d == ssRes
  {
  }

  lemma Explained(ssRes: real, ssTot: real)
    requires ssTot > 0.0
    ensures (1.0 - ssRes / ssTot) * ssTot == ssTot - ssRes
  {
    Shared(ssRes, ssTot);
  }

  /** Without points there is no line, and through one point the line is level. */
  lemma SmallFits(y: real)
    ensures FitOf([]) == Fit(0.0, 0.0, None, 0.0)
    ensures FitOf([y]) == Fit(0.0, y, None, 0.0)
  {
    var ys := [y];
    assert Sum(Points(ys), 1) == y;
    assert MeanY(ys) == y && MeanX(1) == 0.0;
    assert CentredX(0.0)(0) == 0.0 && Sq(0.0) == 0.0;
    assert Sxx(ys) == Sum(Squared(CentredX(0.0)), 1) == 0.0;
    assert SumSquares(ys, y, 0.0) == 0.0;
  }

  /** A fitted line has an r-squared exactly when it is not level. */
  lemma SteepnessShows(ys: seq<real>, c: real, d: real)
    requires |ys| >= 2 && OnLine(ys, c, d)
    ensures FitOf(ys).r2.Some? <==> d != 0.0
  {
    RecoversFit(ys, c, d);
    SumOfSquares(Residuals(ys, c, d), |ys|);
    SumOfSquares(Residuals(ys, MeanY(ys), 0.0), |ys|);
    UniquelyOptimal(ys, MeanY(ys), 0.0);
    if d == 0.0 { LevelIntercept(ys); }
  }

  lemma LevelIntercept(ys: seq<real>)
    requires ys != [] && Slope(ys) == 0.0
    ensures Intercept(ys) == MeanY(ys)
  {
  }

  /** So next month's projection is exact too. */
  lemma RecoversLine(ys: seq<real>, c: real, d: real)
    requires |ys| >= 2 && OnLine(ys, c, d)
    ensures var f := FitOf(ys);
      && f.slope == d && f.intercept == c && f.variance == 0.0 && (f.r2.Some? ==> f.r2.value == 1.0)
      && f.intercept + f.slope * (|ys| as real) == c + d * (|ys| as real)
  {
    RecoversFit(ys, c, d);
  }

  // ---------------------------------------------------------------------------
  // The loops of the source

  method Total(ys: seq<real>) returns (total: real)
    ensures total == Sum(Points(ys), |ys|)
  {
    total := 0.0;
    for i := 0 to |ys|
      invariant total == Sum(Points(ys), i)
    {
      assert Points(ys)(i) == ys[i];
      total := total + ys[i];
    }
  }

  /** One more term of a sum. */
  lemma SumNext(f: nat -> real, n: nat, term: real)
    requires f(n) == term
    ensures Sum(f, n + 1) == Sum(f, n) + term
  {
  }

  /** The first loop: squares and products about the means. */
  method Spreads(ys: seq<real>, meanX: real, meanY: real) returns (sxx: real, sxy: real)
    ensures sxx == Sum(Squared(CentredX(meanX)), |ys|) && sxy == Sum(Weighted(CentredY(ys, meanY), meanX), |ys|)
  {
    sxx, sxy := 0.0, 0.0;
    for x := 0 to |ys|
      invariant sxx == Sum(Squared(CentredX(meanX)), x)
      invariant sxy == Sum(Weighted(CentredY(ys, meanY), meanX), x)
    {
      var dx, dy := (x as real) - meanX, ys[x] - meanY;
      SumNext(Squared(CentredX(meanX)), x, Sq(dx));
      SumNext(Weighted(CentredY(ys, meanY), meanX), x, dx * dy);
      sxx := sxx + Sq(dx);
      sxy := sxy + dx * dy;
    }
  }

  lemma SquareNext(ys: seq<real>, a: real, b: real, x: nat, residual: real)
    requires x < |ys| && residual == ys[x] - (a + b * (x as real))
    ensures Sum(Squared(Residuals(ys, a, b)), x + 1) == Sum(Squared(Residuals(ys, a, b)), x) + Sq(residual)
  {
    assert Residuals(ys, a, b)(x) == residual;
  }

  /** The second loop: squares about the fitted line and about the mean. */
  method Squares(ys: seq<real>, intercept: real, slope: real, meanY: real) returns (ssRes: real, ssTot: real)
    ensures ssRes == SumSquares(ys, intercept, slope) && ssTot == SumSquares(ys, meanY, 0.0)
  {
    ssRes, ssTot := 0.0, 0.0;
    for x := 0 to |ys|
      invariant ssRes == Sum(Squared(Residuals(ys, intercept, slope)), x)
      invariant ssTot == Sum(Squared(Residuals(ys, meanY, 0.0)), x)
    {
      var residual, deviation := ys[x] - (intercept + slope * (x as real)), ys[x] - meanY;
      SquareNext(ys, intercept, slope, x, residual);
      SquareNext(ys, meanY, 0.0, x, deviation);
      ssRes := ssRes + Sq(residual);
      ssTot := ssTot + Sq(deviation);
    }
  }

  /** The parts of a fit, put together. */
  lemma FitIs(ys: seq<real>, slope: real, intercept: real, ssRes: real, ssTot: real)
    requires ys != [] && slope == Slope(ys) && intercept == Intercept(ys)
    requires ssRes == SumSquares(ys, intercept, slope) && ssTot == SumSquares(ys, MeanY(ys), 0.0)
    ensures FitOf(ys) == Fit(slope, intercept, RSquared(ssRes, ssTot), Variance(ssRes, |ys|))
  {
  }

  method LeastSquares(ys: seq<real>) returns (f: Fit)
    ensures f == FitOf(ys)
  {
    var n := |ys|;
    if n == 0 { return Fit(0.0, 0.0, None, 0.0); }
    var meanX := ((n as real) - 1.0) / 2.0;
    var total := Total(ys);
    var meanY := total / (n as real);
    var sxx, sxy := Spreads(ys, meanX, meanY);
    var slope := if sxx > 0.0 then sxy / sxx else 0.0;
    var intercept := meanY - slope * meanX;
    assert meanX == MeanX(n) && meanY == MeanY(ys) && slope == Slope(ys);
    var ssRes, ssTot := Squares(ys, intercept, slope, meanY);
    FitIs(ys, slope, intercept, ssRes, ssTot);
    f := Fit(slope, intercept, RSquared(ssRes, ssTot), Variance(ssRes, n));
  }
}
