/** The slope of a series by least squares, over the reals. */
module Trend {
  import opened Algebra

  /** A line y = slope * x + intercept. */
  datatype Line = Line(slope: real, intercept: real)

  /** The value of the line at `i`, one step of slope after the other. */
  function At(l: Line, i: nat): real { if i == 0 then l.intercept else At(l, i - 1) + l.slope }

  /** The number of points, and the sums of x, x*x, y and x*y over them. */
  datatype Sums = Sums(n: real, x: real, xx: real, y: real, xy: real)

  /** The last point of a series: its position, and the value of a line there. */
  function LastX(ys: seq<real>): real
    requires ys != []
  {
    (|ys| - 1) as real
  }

  function LastAt(l: Line, ys: seq<real>): real
    requires ys != []
  {
    At(l, |ys| - 1)
  }

  function LastResidual(l: Line, ys: seq<real>): real
    requires ys != []
  {
    ys[|ys| - 1] - LastAt(l, ys)
  }

  function SumsOf(ys: seq<real>): (s: Sums)
    ensures s.n == |ys| as real
  {
    if ys == [] then Sums(0.0, 0.0, 0.0, 0.0, 0.0)
    else
      var s, x, y := SumsOf(ys[..|ys| - 1]), LastX(ys), ys[|ys| - 1];
      Sums(s.n + 1.0, s.x + x, s.xx + Product(x, x), s.y + y, s.xy + Product(x, y))
  }

  /** `m` is the slope that the sums determine. */
  predicate IsSlope(s: Sums, m: real) {
    m * (s.n * s.xx - s.x * s.x) == s.n * s.xy - s.x * s.y
  }

  /** A line with that slope through the mean point. */
  predicate IsFit(s: Sums, f: Line) {
    IsSlope(s, f.slope) && s.n * f.intercept == s.y - f.slope * s.x
  }

  /** The sum of the squared residuals of a line. */
  function Error(l: Line, ys: seq<real>): real {
    if ys == [] then 0.0 else Error(l, ys[..|ys| - 1]) + Product(LastResidual(l, ys), LastResidual(l, ys))
  }

  // ---------------------------------------------------------------- the denominator

  /** The sums of x and x*x depend only on the number of points. */
  predicate Positions(s: Sums) {
    && s.x * 2.0 == s.n * (s.n - 1.0)
    && s.xx * 6.0 == s.n * (s.n - 1.0) * (2.0 * s.n - 1.0)
  }

  lemma {:induction false} PositionsOf(ys: seq<real>)
    ensures Positions(SumsOf(ys))
  {
    if ys != [] {
      PositionsOf(ys[..|ys| - 1]);
      OnePosition(SumsOf(ys[..|ys| - 1]), SumsOf(ys), LastX(ys));
    }
  }

  lemma OnePosition(s: Sums, t: Sums, x: real)
    requires Positions(s) && s.n == x && t.n == x + 1.0 && t.x == s.x + x && t.xx == s.xx + Product(x, x)
    ensures Positions(t)
  {
    ProductIs(x, x);
    assert x * (x - 1.0) + 2.0 * x == (x + 1.0) * x;
    assert x * (x - 1.0) * (2.0 * x - 1.0) + 6.0 * (x * x) == (x + 1.0) * x * (2.0 * x + 1.0);
  }

  /** The denominator is n^2 (n^2 - 1) / 12. */
  lemma Denominator(s: Sums)
    requires Positions(s)
    ensures (s.n * s.xx - s.x * s.x) * 12.0 == s.n * s.n * (s.n * s.n - 1.0)
  {
    var n := s.n;
    var a := n * (n - 1.0);
    assert n * s.xx * 12.0 == 2.0 * n * (a * (2.0 * n - 1.0));
    assert s.x * s.x * 12.0 == 3.0 * (a * a);
    assert 2.0 * n * (a * (2.0 * n - 1.0)) - 3.0 * (a * a) == n * n * (n * n - 1.0);
  }

  lemma PositiveProduct(n: real)
    requires n >= 2.0
    ensures n * n * (n * n - 1.0) > 0.0
  {
    assert n * n >= 4.0;
  }

  lemma PositiveFraction(d: real, p: real)
    requires d * 12.0 == p && p > 0.0
    ensures d > 0.0
  {
  }

  lemma PositiveDenominator(s: Sums)
    requires Positions(s) && s.n >= 2.0
    ensures s.n * s.xx - s.x * s.x > 0.0
  {
    Denominator(s);
    PositiveProduct(s.n);
    PositiveFraction(s.n * s.xx - s.x * s.x, s.n * s.n * (s.n * s.n - 1.0));
  }

  /** So it is positive as soon as there are two points. */
  lemma DenominatorNotZero(ys: seq<real>, s: Sums)
    requires |ys| >= 2 && s == SumsOf(ys)
    ensures s.n * s.xx - s.x * s.x > 0.0
  {
    PositionsOf(ys);
    PositiveDenominator(s);
  }

  // ---------------------------------------------------------------- the loop

  method ComputeSums(ys: seq<real>) returns (sumX: real, sumY: real, sumXY: real, sumX2: real)
    ensures SumsOf(ys) == Sums(|ys| as real, sumX, sumX2, sumY, sumXY)
  {
    sumX, sumY, sumXY, sumX2 := 0.0, 0.0, 0.0, 0.0;
    for i := 0 to |ys|
      invariant SumsOf(ys[..i]) == Sums(i as real, sumX, sumX2, sumY, sumXY)
    {
      assert ys[..i + 1][..i] == ys[..i] && LastX(ys[..i + 1]) == i as real;
      var x, y := i as real, ys[i];
      ProductIs(x, x);
      ProductIs(x, y);
      sumX := sumX + x;
      sumY := sumY + y;
      sumXY := sumXY + x * y;
      sumX2 := sumX2 + x * x;
    }
    assert ys[..|ys|] == ys;
  }

  lemma DivideAndMultiply(p: real, d: real)
    requires d != 0.0
    ensures p / d * d == p
  {
  }

  /** The slope, for at least two points; the branch for a zero denominator is dead. */
  method ComputeTrendSlope(ys: seq<real>) returns (m: real)
    ensures if |ys| < 2 then m == 0.0 else IsSlope(SumsOf(ys), m)
  {
    var n := |ys|;
    if n < 2 {
      return 0.0;
    }
    var sumX, sumY, sumXY, sumX2 := ComputeSums(ys);
    var denom := n as real * sumX2 - sumX * sumX;
    DenominatorNotZero(ys, Sums(n as real, sumX, sumX2, sumY, sumXY));
    if denom == 0.0 {
      assert false;
      return 0.0;
    }
    var numer := n as real * sumXY - sumX * sumY;
    m := numer / denom;
    DivideAndMultiply(numer, denom);
  }

  // ---------------------------------------------------------------- least squares

  /** The residuals of a line, summed, and summed with weight x. */
  function Residual(l: Line, ys: seq<real>): real {
    if ys == [] then 0.0 else Residual(l, ys[..|ys| - 1]) + LastResidual(l, ys)
  }

  function Moment(l: Line, ys: seq<real>): real {
    if ys == [] then 0.0 else Moment(l, ys[..|ys| - 1]) + Product(LastX(ys), LastResidual(l, ys))
  }

  /** The squares of the values of a line at the points of a series, summed. */
  function Squares(d: Line, ys: seq<real>): real {
    if ys == [] then 0.0 else Squares(d, ys[..|ys| - 1]) + Product(LastAt(d, ys), LastAt(d, ys))
  }

  function Moved(l: Line, d: Line): Line { Line(l.slope + d.slope, l.intercept + d.intercept) }

  lemma {:induction false} MovedAt(l: Line, d: Line, i: nat)
    ensures At(Moved(l, d), i) == At(l, i) + At(d, i)
  {
    if i > 0 {
      MovedAt(l, d, i - 1);
    }
  }

  lemma {:induction false} AtIs(l: Line, i: nat)
    ensures At(l, i) == Product(l.slope, i as real) + l.intercept
  {
    if i > 0 {
      AtIs(l, i - 1);
      ProductSum(l.slope, (i - 1) as real, 1.0, i as real);
      ProductIs(l.slope, 1.0);
    } else {
      ProductIs(l.slope, 0.0);
    }
  }

  /** The linear part of the difference of two errors. */
  function Linear(a: real, b: real, l: Line, ys: seq<real>): real {
    if ys == [] then 0.0
    else
      var r := LastResidual(l, ys);
      Linear(a, b, l, ys[..|ys| - 1]) + Product(a, Product(LastX(ys), r)) + Product(b, r)
  }

  lemma {:induction false} LinearIs(a: real, b: real, l: Line, ys: seq<real>)
    ensures Linear(a, b, l, ys) == Product(a, Moment(l, ys)) + Product(b, Residual(l, ys))
    decreases |ys|
  {
    if ys != [] {
      var init, r := ys[..|ys| - 1], LastResidual(l, ys);
      LinearIs(a, b, l, init);
      ProductSum(a, Moment(l, init), Product(LastX(ys), r), Moment(l, ys));
      ProductSum(b, Residual(l, init), r, Residual(l, ys));
    } else {
      ProductIs(a, 0.0);
      ProductIs(b, 0.0);
    }
  }

  lemma SquareOfDifference(r: real, v: real, m: real, a: real, x: real, b: real)
    requires v == Product(a, x) + b && m == r - v
    ensures Product(m, m) == Product(r, r) + Product(v, v) - Product(2.0 * a, Product(x, r)) - Product(2.0 * b, r)
  {
    ProductIs(a, x);
    ProductIs(m, m);
    ProductIs(r, r);
    ProductIs(v, v);
    ProductIs(x, r);
    ProductIs(2.0 * a, x * r);
    ProductIs(2.0 * b, r);
    Expand(r, v, a, x, b);
  }

  lemma Expand(r: real, v: real, a: real, x: real, b: real)
    requires v == a * x + b
    ensures (r - v) * (r - v) == r * r + v * v - 2.0 * a * (x * r) - 2.0 * b * r
  {
    assert (r - v) * (r - v) == r * r + v * v - 2.0 * (v * r);
    assert v * r == a * (x * r) + b * r;
  }

  lemma LastMoved(l: Line, d: Line, ys: seq<real>)
    requires ys != []
    ensures LastResidual(Moved(l, d), ys) == LastResidual(l, ys) - LastAt(d, ys)
    ensures LastAt(d, ys) == Product(d.slope, LastX(ys)) + d.intercept
  {
    MovedAt(l, d, |ys| - 1);
    AtIs(d, |ys| - 1);
  }

  /** Moving a line by another changes its error by the squares of that other line and by a linear part. */
  lemma {:induction false} ErrorMoved(l: Line, d: Line, ys: seq<real>)
    ensures Error(Moved(l, d), ys) == Error(l, ys) + Squares(d, ys) - Linear(2.0 * d.slope, 2.0 * d.intercept, l, ys)
    decreases |ys|
  {
    if ys != [] {
      ErrorMoved(l, d, ys[..|ys| - 1]);
      LastMoved(l, d, ys);
      SquareOfDifference(LastResidual(l, ys), LastAt(d, ys), LastResidual(Moved(l, d), ys), d.slope, LastX(ys), d.intercept);
    }
  }

  /** The residual and the moment of a line, in terms of the sums. */
  lemma {:induction false} ResidualIs(l: Line, ys: seq<real>)
    ensures Residual(l, ys) == SumsOf(ys).y - Product(l.slope, SumsOf(ys).x) - Product(l.intercept, SumsOf(ys).n)
    decreases |ys|
  {
    if ys != [] {
      var s := SumsOf(ys[..|ys| - 1]);
      ResidualIs(l, ys[..|ys| - 1]);
      AtIs(l, |ys| - 1);
      ProductSum(l.slope, s.x, LastX(ys), SumsOf(ys).x);
      ProductSum(l.intercept, s.n, 1.0, SumsOf(ys).n);
      ProductIs(l.intercept, 1.0);
    } else {
      ProductIs(l.slope, 0.0);
      ProductIs(l.intercept, 0.0);
    }
  }

  lemma MomentTerm(x: real, y: real, v: real, r: real, m: real, b: real)
    requires v == Product(m, x) + b && r == y - v
    ensures Product(x, r) == Product(x, y) - Product(m, Product(x, x)) - Product(b, x)
  {
    ProductIs(m, x);
    ProductIs(x, r);
    ProductIs(x, y);
    ProductIs(x, x);
    ProductIs(m, x * x);
    ProductIs(b, x);
    assert x * (y - (m * x + b)) == x * y - m * (x * x) - b * x;
  }

  lemma {:induction false} MomentIs(l: Line, ys: seq<real>)
    ensures Moment(l, ys) == SumsOf(ys).xy - Product(l.slope, SumsOf(ys).xx) - Product(l.intercept, SumsOf(ys).x)
    decreases |ys|
  {
    if ys != [] {
      var s, x := SumsOf(ys[..|ys| - 1]), LastX(ys);
      MomentIs(l, ys[..|ys| - 1]);
      AtIs(l, |ys| - 1);
      MomentTerm(x, ys[|ys| - 1], LastAt(l, ys), LastResidual(l, ys), l.slope, l.intercept);
      ProductSum(l.slope, s.xx, Product(x, x), SumsOf(ys).xx);
      ProductSum(l.intercept, s.x, x, SumsOf(ys).x);
    } else {
      ProductIs(l.slope, 0.0);
      ProductIs(l.intercept, 0.0);
    }
  }

  /** The normal equations, solved by a fitted line. */
  lemma NormalEquations(s: Sums, f: Line)
    requires s.n != 0.0 && IsFit(s, f)
    ensures s.y - Product(f.slope, s.x) - Product(f.intercept, s.n) == 0.0
    ensures s.xy - Product(f.slope, s.xx) - Product(f.intercept, s.x) == 0.0
  {
    var n, m, b := s.n, f.slope, f.intercept;
    ProductIs(m, s.x);
    ProductIs(m, s.xx);
    ProductIs(b, s.n);
    ProductIs(b, s.x);
    var left := s.xy - m * s.xx - b * s.x;
    assert n * left == n * s.xy - m * (n * s.xx) - (n * b) * s.x;
    assert (n * b) * s.x == s.y * s.x - m * (s.x * s.x);
    assert m * (n * s.xx - s.x * s.x) == m * (n * s.xx) - m * (s.x * s.x);
    assert n * left == 0.0;
  }

  lemma VanishingSums(ys: seq<real>, f: Line)
    requires SumsOf(ys).y - Product(f.slope, SumsOf(ys).x) - Product(f.intercept, SumsOf(ys).n) == 0.0
    requires SumsOf(ys).xy - Product(f.slope, SumsOf(ys).xx) - Product(f.intercept, SumsOf(ys).x) == 0.0
    ensures Residual(f, ys) == 0.0 && Moment(f, ys) == 0.0
  {
    ResidualIs(f, ys);
    MomentIs(f, ys);
  }

  /** So it leaves no residual and no moment. */
  lemma FitSolves(ys: seq<real>, f: Line)
    requires |ys| >= 2 && IsFit(SumsOf(ys), f)
    ensures Residual(f, ys) == 0.0 && Moment(f, ys) == 0.0
  {
    NormalEquations(SumsOf(ys), f);
    VanishingSums(ys, f);
  }

  lemma Square(x: real)
    ensures Product(x, x) >= 0.0 && (x != 0.0 ==> Product(x, x) > 0.0)
  {
    ProductIs(x, x);
    SquareIsPositive(x, x * x);
  }

  lemma SquareIsPositive(x: real, xx: real)
    requires xx == x * x
    ensures xx >= 0.0 && (x != 0.0 ==> xx > 0.0)
  {
    if x == 0.0 {
      assert xx == 0.0;
    } else if x > 0.0 {
      Positive(x, x, xx);
    } else {
      Positive(-x, -x, xx);
    }
  }

  lemma Positive(a: real, b: real, ab: real)
    requires a > 0.0 && b > 0.0 && ab == a * b
    ensures ab > 0.0
  {
  }

  lemma {:induction false} SquaresGrow(d: Line, ys: seq<real>, m: nat)
    requires m <= |ys|
    ensures Squares(d, ys[..m]) <= Squares(d, ys)
    decreases |ys|
  {
    if m == |ys| {
      assert ys[..m] == ys;
    } else {
      SquaresGrow(d, ys[..|ys| - 1], m);
      assert ys[..|ys| - 1][..m] == ys[..m];
      Square(LastAt(d, ys));
    }
  }

  lemma TwoSquares(d: Line, ys: seq<real>)
    requires |ys| == 2 && Squares(d, ys) <= 0.0
    ensures d == Line(0.0, 0.0)
  {
    var one := ys[..1];
    var v0, v1 := LastAt(d, one), LastAt(d, ys);
    assert one[..0] == [];
    assert Squares(d, one) == Product(v0, v0);
    Square(v0);
    Square(v1);
    assert v0 == d.intercept && v1 == At(d, 1) == d.slope + d.intercept;
  }

  /** Only the zero line vanishes at two points. */
  lemma SquaresAreDefinite(d: Line, ys: seq<real>)
    ensures Squares(d, ys) >= 0.0
    ensures |ys| >= 2 && Squares(d, ys) == 0.0 ==> d == Line(0.0, 0.0)
  {
    SquaresGrow(d, ys, 0);
    if |ys| >= 2 && Squares(d, ys) == 0.0 {
      SquaresGrow(d, ys, 2);
      TwoSquares(d, ys[..2]);
    }
  }

  lemma SolutionIsLeast(ys: seq<real>, f: Line, l: Line)
    requires |ys| >= 2 && Residual(f, ys) == 0.0 && Moment(f, ys) == 0.0
    ensures Error(f, ys) <= Error(l, ys)
    ensures Error(f, ys) == Error(l, ys) ==> l == f
  {
    var d := Line(l.slope - f.slope, l.intercept - f.intercept);
    assert Moved(f, d) == l;
    ErrorMoved(f, d, ys);
    LinearIs(2.0 * d.slope, 2.0 * d.intercept, f, ys);
    ProductIs(2.0 * d.slope, 0.0);
    ProductIs(2.0 * d.intercept, 0.0);
    SquaresAreDefinite(d, ys);
  }

  /** Least squares: the slope belongs to the one line whose error no other line reaches. */
  lemma LeastSquares(ys: seq<real>, f: Line, l: Line)
    requires |ys| >= 2 && IsFit(SumsOf(ys), f)
    ensures Error(f, ys) <= Error(l, ys)
    ensures Error(f, ys) == Error(l, ys) ==> l == f
  {
    FitSolves(ys, f);
    SolutionIsLeast(ys, f, l);
  }

  /** Every slope the method returns belongs to such a line. */
  lemma FitExists(s: Sums, m: real) returns (f: Line)
    requires s.n != 0.0 && IsSlope(s, m)
    ensures f.slope == m && IsFit(s, f)
  {
    var rest := s.y - m * s.x;
    f := Line(m, rest / s.n);
    DivideAndMultiply(rest, s.n);
  }

  /** What the method returns is the slope of the least-squares line, and nothing else satisfies its contract. */
  lemma SlopeIsLeastSquares(ys: seq<real>, m: real, other: real) returns (f: Line)
    requires |ys| >= 2 && IsSlope(SumsOf(ys), m) && IsSlope(SumsOf(ys), other)
    ensures f.slope == m == other
    ensures forall l :: Error(f, ys) <= Error(l, ys) && (Error(f, ys) == Error(l, ys) ==> l == f)
  {
    f := FitExists(SumsOf(ys), m);
    var g := FitExists(SumsOf(ys), other);
    LeastSquares(ys, g, f);
    forall l
      ensures Error(f, ys) <= Error(l, ys) && (Error(f, ys) == Error(l, ys) ==> l == f)
    {
      LeastSquares(ys, f, l);
    }
  }

  function Points(l: Line, n: nat): (s: seq<real>)
    ensures |s| == n
  {
    seq(n, i requires 0 <= i < n => At(l, i))
  }

  lemma {:induction false} NoError(l: Line, n: nat)
    ensures Error(l, Points(l, n)) == 0.0
  {
    if n > 0 {
      NoError(l, n - 1);
      assert Points(l, n)[..n - 1] == Points(l, n - 1);
      assert LastResidual(l, Points(l, n)) == 0.0;
      ProductIs(0.0, 0.0);
    }
  }

  lemma {:induction false} ErrorNotNegative(l: Line, ys: seq<real>)
    ensures Error(l, ys) >= 0.0
  {
    if ys != [] {
      ErrorNotNegative(l, ys[..|ys| - 1]);
      Square(LastResidual(l, ys));
    }
  }

  /** The fit is exact on affine data. */
  lemma ExactOnLines(l: Line, n: nat, f: Line)
    requires n >= 2 && IsFit(SumsOf(Points(l, n)), f)
    ensures f == l
  {
    var ys := Points(l, n);
    NoError(l, n);
    ErrorNotNegative(f, ys);
    LeastSquares(ys, f, l);
  }

  // ---------------------------------------------------------------- reversal

  function Reversed(ys: seq<real>): (rs: seq<real>)
    ensures |rs| == |ys|
  {
    if ys == [] then [] else [ys[|ys| - 1]] + Reversed(ys[..|ys| - 1])
  }

  lemma {:induction false} ReversedAt(ys: seq<real>, i: nat)
    requires i < |ys|
    ensures Reversed(ys)[i] == ys[|ys| - 1 - i]
  {
    if i > 0 {
      ReversedAt(ys[..|ys| - 1], i - 1);
    }
  }

  lemma Advance(next: real, x: real, v: real)
    requires next == x + 1.0
    ensures Product(next, v) == Product(x, v) + v
  {
    ProductIs(next, v);
    ProductIs(x, v);
  }

  /** Putting a value in front moves every other point one step to the right. */
  lemma {:induction false} SumsPrepended(y: real, ys: seq<real>)
    ensures SumsOf([y] + ys).y == y + SumsOf(ys).y
    ensures SumsOf([y] + ys).xy == SumsOf(ys).xy + SumsOf(ys).y
    decreases |ys|
  {
    var all := [y] + ys;
    if ys == [] {
      assert all[..0] == [];
      ProductIs(0.0, y);
    } else {
      var init := ys[..|ys| - 1];
      SumsPrepended(y, init);
      assert all[..|all| - 1] == [y] + init;
      var x, v := LastX(ys), ys[|ys| - 1];
      assert LastX(all) == x + 1.0;
      Advance(LastX(all), x, v);
    }
  }

  /** The sums of a reversed series. */
  function SumsReversed(s: Sums): Sums { s.(xy := Product(s.n - 1.0, s.y) - s.xy) }

  lemma {:induction false} SumsOfReversed(ys: seq<real>)
    ensures SumsOf(Reversed(ys)).y == SumsOf(ys).y
    ensures SumsOf(Reversed(ys)).xy == SumsReversed(SumsOf(ys)).xy
    decreases |ys|
  {
    if ys != [] {
      var init, v := ys[..|ys| - 1], ys[|ys| - 1];
      SumsOfReversed(init);
      SumsPrepended(v, Reversed(init));
      ReversedStep(SumsOf(init), LastX(ys), v, SumsOf(ys));
    }
  }

  lemma ReversedStep(s: Sums, x: real, v: real, t: Sums)
    requires s.n == x && t.n == x + 1.0 && t.y == s.y + v && t.xy == s.xy + Product(x, v)
    ensures SumsReversed(s).xy + s.y == SumsReversed(t).xy
  {
    Advance(x, x - 1.0, s.y);
    ProductSum(x, s.y, v, t.y);
  }

  lemma SamePositions(s: Sums, t: Sums)
    requires Positions(s) && Positions(t) && s.n == t.n
    ensures s.x == t.x && s.xx == t.xx
  {
  }

  lemma SlopeReversed(s: Sums, m: real)
    requires Positions(s) && IsSlope(s, m)
    ensures IsSlope(SumsReversed(s), -m)
  {
    var n, r := s.n, SumsReversed(s);
    ProductIs(n - 1.0, s.y);
    assert n * r.xy == n * (n - 1.0) * s.y - n * s.xy;
    assert n * (n - 1.0) * s.y == s.x * 2.0 * s.y;
    var d := n * s.xx - s.x * s.x;
    assert (-m) * d == -(m * d);
  }

  lemma ReversedSlope(ys: seq<real>, m: real)
    requires IsSlope(SumsOf(ys), m)
    ensures IsSlope(SumsOf(Reversed(ys)), -m)
  {
    PositionsOf(ys);
    SumsOfReversed(ys);
    PositionsOf(Reversed(ys));
    SamePositions(SumsOf(Reversed(ys)), SumsOf(ys));
    assert SumsOf(Reversed(ys)) == SumsReversed(SumsOf(ys));
    SlopeReversed(SumsOf(ys), m);
  }

  /** Reading a series backwards negates its slope. */
  lemma ReversalNegates(ys: seq<real>, backwards: seq<real>, m: real)
    requires |backwards| == |ys| && forall i :: 0 <= i < |ys| ==> backwards[i] == ys[|ys| - 1 - i]
    requires IsSlope(SumsOf(ys), m)
    ensures IsSlope(SumsOf(backwards), -m)
  {
    forall i | 0 <= i < |ys|
      ensures Reversed(ys)[i] == backwards[i]
    {
      ReversedAt(ys, i);
    }
    assert Reversed(ys) == backwards;
    ReversedSlope(ys, m);
  }
}
