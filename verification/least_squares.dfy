/** The line fitted to the measured costs (analysis/energy_vs_basepaper.py:79-83), over the reals. */
module LeastSquares {
  import opened Api

  datatype Line = Line(m: real, b: real)

  function Sum(xs: seq<real>): real {
    if xs == [] then 0.0 else xs[0] + Sum(xs[1..])
  }

  /** sum(x*y for x, y in zip(xs, ys)): the longer list is cut off. */
  function SumProducts(xs: seq<real>, ys: seq<real>): real {
    if xs == [] || ys == [] then 0.0 else xs[0] * ys[0] + SumProducts(xs[1..], ys[1..])
  }

  /** n*sxx - sx*sx */
  function Spread(xs: seq<real>): real {
    |xs| as real * SumProducts(xs, xs) - Sum(xs) * Sum(xs)
  }

  /** fit_line; None stands for the division by zero. */
  function FitLine(xs: seq<real>, ys: seq<real>): Option<Line> {
    var n, sx, sy := |xs| as real, Sum(xs), Sum(ys);
    var denominator := Spread(xs);
    if denominator == 0.0 then None else
    var m := (n * SumProducts(xs, ys) - sx * sy) / denominator;
    Some(Line(m, (sy - m * sx) / n))
  }

  // ---------- when there is a line ----------

  function Times(x: real, y: real): real {
    x * y
  }

  lemma Positive(x: real, y: real)
    requires x > 0.0 && y > 0.0
    ensures Times(x, y) > 0.0
  {
  }

  lemma BothNegative(x: real, y: real)
    requires x < 0.0 && y < 0.0
    ensures Times(x, y) > 0.0
  {
    Positive(0.0 - x, 0.0 - y);
    assert (0.0 - x) * (0.0 - y) == x * y;
  }

  lemma ZeroTimesZero()
    ensures Times(0.0, 0.0) == 0.0
  {
  }

  function Square(d: real): real {
    Times(d, d)
  }

  lemma SquareSign(d: real)
    ensures Square(d) >= 0.0 && (Square(d) == 0.0 <==> d == 0.0)
  {
    hide Times;
    if d > 0.0 {
      Positive(d, d);
    } else if d < 0.0 {
      BothNegative(d, d);
    } else {
      ZeroTimesZero();
    }
  }

  ghost function SquaredDistance(xs: seq<real>, x: real): (r: real)
    ensures r >= 0.0
  {
    if xs == [] then 0.0 else
    SquareSign(xs[0] - x);
    Square(xs[0] - x) + SquaredDistance(xs[1..], x)
  }

  /** The sums over one more point. */
  lemma OnePoint(xs: seq<real>)
    requires xs != []
    ensures SumProducts(xs, xs) == Square(xs[0]) + SumProducts(xs[1..], xs[1..])
    ensures Sum(xs) == xs[0] + Sum(xs[1..]) && |xs| as real == |xs[1..]| as real + 1.0
  {
  }

  /** The same distance, from the sums alone. */
  ghost function FromSums(sxx: real, sx: real, n: real, x: real): real {
    sxx - 2.0 * x * sx + n * x * x
  }

  lemma {:induction false} DistanceExpanded(xs: seq<real>, x: real)
    ensures SquaredDistance(xs, x) == FromSums(SumProducts(xs, xs), Sum(xs), |xs| as real, x)
  {
    if xs != [] {
      hide FromSums, Square, SumProducts, Sum;
      OnePoint(xs);
      DistanceExpanded(xs[1..], x);
      ExpandStep(xs[0], x, SumProducts(xs[1..], xs[1..]), Sum(xs[1..]), |xs[1..]| as real);
    }
  }

  lemma ExpandStep(a: real, x: real, sxx: real, sx: real, n: real)
    ensures Square(a - x) + FromSums(sxx, sx, n, x) == FromSums(Square(a) + sxx, a + sx, n + 1.0, x)
  {
  }

  lemma {:induction false} DistanceZero(xs: seq<real>, x: real)
    ensures SquaredDistance(xs, x) == 0.0 <==> forall i :: 0 <= i < |xs| ==> xs[i] == x
  {
    if xs != [] {
      hide Square;
      SquareSign(xs[0] - x);
      DistanceZero(xs[1..], x);
      assert forall i :: 0 < i < |xs| ==> xs[i] == xs[1..][i - 1];
    }
  }

  ghost function SpreadOf(n: real, sxx: real, sx: real): real {
    n * sxx - sx * sx
  }

  lemma SpreadAlgebra(a: real, sxx: real, sx: real, n: real)
    ensures SpreadOf(n + 1.0, Square(a) + sxx, a + sx) == SpreadOf(n, sxx, sx) + FromSums(sxx, sx, n, a)
  {
  }

  lemma SpreadStep(xs: seq<real>)
    requires xs != []
    ensures Spread(xs) == Spread(xs[1..]) + SquaredDistance(xs[1..], xs[0])
  {
    hide SpreadOf, FromSums, SquaredDistance, Square, SumProducts, Sum, Spread;
    var a, rest := xs[0], xs[1..];
    SpreadIs(xs);
    SpreadIs(rest);
    OnePoint(xs);
    DistanceExpanded(rest, a);
    SpreadAlgebra(a, SumProducts(rest, rest), Sum(rest), |rest| as real);
  }

  lemma SpreadIs(xs: seq<real>)
    ensures Spread(xs) == SpreadOf(|xs| as real, SumProducts(xs, xs), Sum(xs))
  {
    hide SumProducts, Sum;
  }

  ghost predicate AllEqual(xs: seq<real>) {
    forall i, j :: 0 <= i < j < |xs| ==> xs[i] == xs[j]
  }

  /** The denominator is never negative, and it is zero exactly when all xs are equal. */
  lemma {:induction false} SpreadMeaning(xs: seq<real>)
    ensures Spread(xs) >= 0.0 && (Spread(xs) == 0.0 <==> AllEqual(xs))
  {
    if xs != [] {
      hide Spread, SquaredDistance;
      SpreadMeaning(xs[1..]);
      SpreadStep(xs);
      DistanceZero(xs[1..], xs[0]);
      FirstEqualsRest(xs);
    }
  }

  lemma FirstEqualsRest(xs: seq<real>)
    requires xs != []
    ensures AllEqual(xs) <==> AllEqual(xs[1..]) && forall i :: 0 <= i < |xs[1..]| ==> xs[1..][i] == xs[0]
  {
    assert forall i :: 0 < i < |xs| ==> xs[i] == xs[1..][i - 1];
  }

  /** A line is returned exactly when the xs are not all equal. */
  lemma FitsIffSpread(xs: seq<real>, ys: seq<real>)
    ensures FitLine(xs, ys).Some? <==> !AllEqual(xs)
  {
    SpreadMeaning(xs);
  }

  // ---------- the line is the best one ----------

  function Residual(x: real, y: real, l: Line): real {
    y - (l.m * x + l.b)
  }

  function SquaredError(xs: seq<real>, ys: seq<real>, l: Line): real
    requires |xs| == |ys|
  {
    if xs == [] then 0.0 else
    Square(Residual(xs[0], ys[0], l)) + SquaredError(xs[1..], ys[1..], l)
  }

  /** How far apart two lines are at x when their slopes and offsets differ by dm and db. */
  function Change(x: real, dm: real, db: real): real {
    dm * x + db
  }

  /** The squared distance between two such lines at the xs. */
  function SquaredGap(xs: seq<real>, dm: real, db: real): (r: real)
    ensures r >= 0.0
  {
    if xs == [] then 0.0 else
    SquareSign(Change(xs[0], dm, db));
    Square(Change(xs[0], dm, db)) + SquaredGap(xs[1..], dm, db)
  }

  /** The inner product of l's errors with the change (dm, db), from the sums alone. */
  function CrossOf(sxy: real, sxx: real, sx: real, sy: real, n: real, l: Line, dm: real, db: real): real {
    dm * (sxy - l.m * sxx - l.b * sx) + db * (sy - l.m * sx - l.b * n)
  }

  function Cross(xs: seq<real>, ys: seq<real>, l: Line, dm: real, db: real): real
    requires |xs| == |ys|
  {
    CrossOf(SumProducts(xs, ys), SumProducts(xs, xs), Sum(xs), Sum(ys), |xs| as real, l, dm, db)
  }

  /** The change at one point times l's error there. */
  function Both(x: real, y: real, l: Line, dm: real, db: real): real {
    Change(x, dm, db) * Residual(x, y, l)
  }

  /** One point's error under another line. */
  lemma ErrorAlgebra(x: real, y: real, l: Line, dm: real, db: real)
    ensures Square(Residual(x, y, Line(l.m + dm, l.b + db)))
         == Square(Residual(x, y, l)) + Square(Change(x, dm, db)) - 2.0 * Both(x, y, l, dm, db)
  {
  }

  lemma CrossAlgebra(x: real, y: real, sxy: real, sxx: real, sx: real, sy: real, n: real, l: Line, dm: real, db: real,
                     sxy': real, sxx': real, sx': real, sy': real, n': real)
    requires sxy' == x * y + sxy && sxx' == Square(x) + sxx && sx' == x + sx && sy' == y + sy && n' == n + 1.0
    ensures CrossOf(sxy', sxx', sx', sy', n', l, dm, db)
         == CrossOf(sxy, sxx, sx, sy, n, l, dm, db) + Both(x, y, l, dm, db)
  {
  }

  lemma OneProduct(xs: seq<real>, ys: seq<real>)
    requires |xs| == |ys| && xs != []
    ensures SumProducts(xs, ys) == xs[0] * ys[0] + SumProducts(xs[1..], ys[1..]) && Sum(ys) == ys[0] + Sum(ys[1..])
  {
  }

  lemma CrossStep(xs: seq<real>, ys: seq<real>, l: Line, dm: real, db: real)
    requires |xs| == |ys| && xs != []
    ensures Cross(xs, ys, l, dm, db) ==
            Cross(xs[1..], ys[1..], l, dm, db) + Both(xs[0], ys[0], l, dm, db)
  {
    hide CrossOf, Both, SumProducts, Sum, Square;
    OnePoint(xs);
    OneProduct(xs, ys);
    var xr, yr := xs[1..], ys[1..];
    CrossAlgebra(xs[0], ys[0], SumProducts(xr, yr), SumProducts(xr, xr), Sum(xr), Sum(yr), |xr| as real, l, dm, db,
                 SumProducts(xs, ys), SumProducts(xs, xs), Sum(xs), Sum(ys), |xs| as real);
  }

  lemma ErrorStep(xs: seq<real>, ys: seq<real>, l: Line)
    requires |xs| == |ys| && xs != []
    ensures SquaredError(xs, ys, l) == Square(Residual(xs[0], ys[0], l)) + SquaredError(xs[1..], ys[1..], l)
  {
  }

  lemma GapStep(xs: seq<real>, dm: real, db: real)
    requires xs != []
    ensures SquaredGap(xs, dm, db) == Square(Change(xs[0], dm, db)) + SquaredGap(xs[1..], dm, db)
  {
  }

  lemma {:induction false} ErrorOfOther(xs: seq<real>, ys: seq<real>, l: Line, dm: real, db: real)
    requires |xs| == |ys|
    ensures SquaredError(xs, ys, Line(l.m + dm, l.b + db))
         == SquaredError(xs, ys, l) + SquaredGap(xs, dm, db) - 2.0 * Cross(xs, ys, l, dm, db)
  {
    if xs != [] {
      hide Cross, Square, Residual, Both, Change, SquaredError, SquaredGap;
      ErrorOfOther(xs[1..], ys[1..], l, dm, db);
      ErrorStep(xs, ys, l);
      ErrorStep(xs, ys, Line(l.m + dm, l.b + db));
      GapStep(xs, dm, db);
      ErrorAlgebra(xs[0], ys[0], l, dm, db);
      CrossStep(xs, ys, l, dm, db);
    }
  }

  /** The fitted line's errors are orthogonal to every change of the line. */
  lemma NormalEquations(xs: seq<real>, ys: seq<real>, dm: real, db: real)
    requires |xs| == |ys| && FitLine(xs, ys).Some?
    ensures Cross(xs, ys, FitLine(xs, ys).value, dm, db) == 0.0
  {
    hide Sum, SumProducts, CrossOf, Spread;
    var l := FitLine(xs, ys).value;
    var n, sx, sy, sxx, sxy := |xs| as real, Sum(xs), Sum(ys), SumProducts(xs, xs), SumProducts(xs, ys);
    SomePoints(xs);
    SpreadIs(xs);
    Solves(n, sx, sy, sxx, sxy, Spread(xs), l);
    CrossZero(sxy, sxx, sx, sy, n, l, dm, db);
  }

  lemma SomePoints(xs: seq<real>)
    requires Spread(xs) != 0.0
    ensures |xs| as real > 0.0
  {
  }

  lemma CrossZero(sxy: real, sxx: real, sx: real, sy: real, n: real, l: Line, dm: real, db: real)
    requires sxy - l.m * sxx - l.b * sx == 0.0 && sy - l.m * sx - l.b * n == 0.0
    ensures CrossOf(sxy, sxx, sx, sy, n, l, dm, db) == 0.0
  {
  }

  lemma Quotient(x: real, y: real, q: real)
    requires y != 0.0 && q == x / y
    ensures q * y == x
  {
  }

  lemma Solves(n: real, sx: real, sy: real, sxx: real, sxy: real, d: real, l: Line)
    requires n > 0.0 && d != 0.0 && d == SpreadOf(n, sxx, sx)
    requires l.m == (n * sxy - sx * sy) / d && l.b == (sy - l.m * sx) / n
    ensures sxy - l.m * sxx - l.b * sx == 0.0 && sy - l.m * sx - l.b * n == 0.0
  {
    Quotient(n * sxy - sx * sy, d, l.m);
    Quotient(sy - l.m * sx, n, l.b);
    SecondEquation(n, sx, sy, sxx, sxy, l.m, l.b);
  }

  lemma SecondEquation(n: real, sx: real, sy: real, sxx: real, sxy: real, m: real, b: real)
    requires n > 0.0 && m * SpreadOf(n, sxx, sx) == n * sxy - sx * sy && b * n == sy - m * sx
    ensures sxy - m * sxx - b * sx == 0.0
  {
    var z := sxy - m * sxx - b * sx;
    calc {
      n * z;
      n * sxy - m * (n * sxx) - (b * n) * sx;
      n * sxy - m * (n * sxx) - (sy - m * sx) * sx;
      n * sxy - sx * sy - m * (n * sxx - sx * sx);
      0.0;
    }
    FactorZero(n, z);
  }

  lemma FactorZero(n: real, z: real)
    requires n > 0.0 && n * z == 0.0
    ensures z == 0.0
  {
    if z > 0.0 {
      Positive(n, z);
    } else if z < 0.0 {
      Positive(n, 0.0 - z);
    }
  }

  lemma {:induction false} GapZero(xs: seq<real>, dm: real, db: real)
    requires SquaredGap(xs, dm, db) == 0.0
    ensures forall i :: 0 <= i < |xs| ==> dm * xs[i] + db == 0.0
  {
    if xs != [] {
      hide Square;
      SquareSign(Change(xs[0], dm, db));
      GapZero(xs[1..], dm, db);
      assert forall i :: 0 < i < |xs| ==> xs[i] == xs[1..][i - 1];
    }
  }

  lemma SameAtTwo(x: real, y: real, dm: real, db: real)
    requires x != y && dm * x + db == 0.0 && dm * y + db == 0.0
    ensures dm == 0.0 && db == 0.0
  {
    assert dm * (x - y) == 0.0;
  }

  /** No other line has a squared error as small as the fitted one's. */
  lemma BestFit(xs: seq<real>, ys: seq<real>, other: Line)
    requires |xs| == |ys| && FitLine(xs, ys).Some?
    ensures SquaredError(xs, ys, FitLine(xs, ys).value) <= SquaredError(xs, ys, other)
    ensures SquaredError(xs, ys, FitLine(xs, ys).value) == SquaredError(xs, ys, other) ==>
              other == FitLine(xs, ys).value
  {
    hide FitLine, Cross, SquaredError;
    var l := FitLine(xs, ys).value;
    var dm, db := other.m - l.m, other.b - l.b;
    assert other == Line(l.m + dm, l.b + db);
    ErrorOfOther(xs, ys, l, dm, db);
    NormalEquations(xs, ys, dm, db);
    if SquaredGap(xs, dm, db) == 0.0 {
      GapZero(xs, dm, db);
      FitsIffSpread(xs, ys);
      var i, j :| 0 <= i < j < |xs| && xs[i] != xs[j];
      SameAtTwo(xs[i], xs[j], dm, db);
    }
  }
}
