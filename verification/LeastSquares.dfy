/** The ordinary least squares fit of the memory-retention measurement, over exact
    reals. */
module LeastSquares {
  import opened Wrappers

  datatype Fit = Fit(slope: real, intercept: real, rSquared: real)

  function Sum(s: seq<real>): real {
    if s == [] then 0.0 else s[0] + Sum(s[1..])
  }

  /** The sum of the products of corresponding values. */
  function Dot(u: seq<real>, v: seq<real>): real
    requires |u| == |v|
  {
    if u == [] then 0.0 else u[0] * v[0] + Dot(u[1..], v[1..])
  }

  function Mean(s: seq<real>): real
    requires s != []
  {
    Sum(s) / |s| as real
  }

  function Shifted(s: seq<real>, origin: real): seq<real> {
    seq(|s|, i requires 0 <= i < |s| => s[i] - origin)
  }

  function Residuals(xs: seq<real>, ys: seq<real>, slope: real, intercept: real): (r: seq<real>)
    requires |xs| == |ys|
    ensures |r| == |xs|
  {
    seq(|xs|, i requires 0 <= i < |xs| => ys[i] - (slope * xs[i] + intercept))
  }

  /** The sum of the squared residuals of a line. */
  function Error(xs: seq<real>, ys: seq<real>, slope: real, intercept: real): real
    requires |xs| == |ys|
  {
    var r := Residuals(xs, ys, slope, intercept);
    Dot(r, r)
  }

  function LeastSquares(xs: seq<real>, ys: seq<real>): Option<Fit> {
    if |xs| < 2 || |xs| != |ys| then None
    else
      var dx, dy := Shifted(xs, Mean(xs)), Shifted(ys, Mean(ys));
      if Dot(dx, dx) == 0.0 then None
      else
        var slope := Dot(dx, dy) / Dot(dx, dx);
        var intercept := Mean(ys) - slope * Mean(xs);
        if Dot(dy, dy) == 0.0 then Some(Fit(slope, intercept, 0.0))
        else Some(Fit(slope, intercept, 1.0 - Error(xs, ys, slope, intercept) / Dot(dy, dy)))
  }

  /** All values of the list are the same. */
  predicate Flat(s: seq<real>) {
    forall i, j :: 0 <= i < j < |s| ==> s[i] == s[j]
  }

  predicate OnLine(xs: seq<real>, ys: seq<real>, slope: real, intercept: real)
    requires |xs| == |ys|
  {
    forall i :: 0 <= i < |xs| ==> ys[i] == slope * xs[i] + intercept
  }

  // ------------------------------------------------------------ sums of squares

  // Products are passed by name: the solver reasons better about `p == a * b`.

  lemma Product(a: real, b: real, p: real)
    requires p == a * b
    ensures a > 0.0 && b > 0.0 ==> p > 0.0
    ensures a < 0.0 && b < 0.0 ==> p > 0.0
    ensures a < 0.0 && b > 0.0 ==> p < 0.0
    ensures a == 0.0 || b == 0.0 ==> p == 0.0
  {
  }

  lemma Square(x: real, s: real)
    requires s == x * x
    ensures s >= 0.0 && (s == 0.0 <==> x == 0.0)
  {
    Product(x, x, s);
  }

  lemma {:induction false} SquaresVanishIff(u: seq<real>)
    ensures Dot(u, u) >= 0.0
    ensures Dot(u, u) == 0.0 <==> forall i :: 0 <= i < |u| ==> u[i] == 0.0
  {
    if u != [] {
      SquaresVanishIff(u[1..]);
      var s, rest := u[0] * u[0], Dot(u[1..], u[1..]);
      Square(u[0], s);
      assert Dot(u, u) == 0.0 <==> s == 0.0 && rest == 0.0;
      assert forall i :: 0 < i < |u| ==> u[i] == u[1..][i - 1];
    }
  }

  lemma {:induction false} SumShifted(s: seq<real>, origin: real)
    ensures Sum(Shifted(s, origin)) == Sum(s) - |s| as real * origin
  {
    if s != [] {
      assert Shifted(s, origin)[1..] == Shifted(s[1..], origin);
      SumShifted(s[1..], origin);
      assert |s| as real * origin == |s[1..]| as real * origin + origin;
    }
  }

  lemma Centred(s: seq<real>)
    requires s != []
    ensures Sum(Shifted(s, Mean(s))) == 0.0
  {
    SumShifted(s, Mean(s));
  }

  lemma {:induction false} SumFlat(s: seq<real>, c: real)
    requires forall i :: 0 <= i < |s| ==> s[i] == c
    ensures Sum(s) == |s| as real * c
  {
    if s != [] {
      SumFlat(s[1..], c);
      assert |s| as real * c == c + |s[1..]| as real * c;
    }
  }

  lemma MeanOfFlat(sum: real, n: real, c: real)
    requires n != 0.0 && sum == n * c
    ensures sum / n == c
  {
  }

  lemma SpreadVanishesIff(s: seq<real>)
    requires s != []
    ensures Dot(Shifted(s, Mean(s)), Shifted(s, Mean(s))) == 0.0 <==> Flat(s)
  {
    var d := Shifted(s, Mean(s));
    SquaresVanishIff(d);
    if Flat(s) {
      assert forall i :: 0 <= i < |s| ==> s[i] == s[0];
      SumFlat(s, s[0]);
      MeanOfFlat(Sum(s), |s| as real, s[0]);
    }
    if Dot(d, d) == 0.0 {
      forall i | 0 <= i < |s| ensures s[i] == Mean(s) { assert d[i] == 0.0; }
    }
  }

  // ------------------------------------------------------------- bilinearity

  function Plus(u: seq<real>, v: seq<real>): (r: seq<real>)
    requires |u| == |v|
    ensures |r| == |u|
  {
    seq(|u|, i requires 0 <= i < |u| => u[i] + v[i])
  }

  function Scale(m: real, u: seq<real>): (r: seq<real>)
    ensures |r| == |u|
  {
    seq(|u|, i requires 0 <= i < |u| => m * u[i])
  }

  function Constant(n: nat, e: real): (r: seq<real>)
    ensures |r| == n
  {
    seq(n, i => e)
  }

  lemma {:induction false} DotSymmetric(u: seq<real>, v: seq<real>)
    requires |u| == |v|
    ensures Dot(u, v) == Dot(v, u)
  {
    if u != [] { DotSymmetric(u[1..], v[1..]); }
  }

  lemma Distributes(w: real, a: real, b: real, z: real)
    requires w == a + b
    ensures w * z == a * z + b * z
  {
  }

  lemma {:induction false} DotPlus(a: seq<real>, b: seq<real>, z: seq<real>)
    requires |a| == |b| == |z|
    ensures Dot(Plus(a, b), z) == Dot(a, z) + Dot(b, z)
  {
    if z != [] {
      DotPlus(a[1..], b[1..], z[1..]);
      assert Plus(a, b)[1..] == Plus(a[1..], b[1..]);
      Distributes(Plus(a, b)[0], a[0], b[0], z[0]);
    }
  }

  lemma ScaleTail(m: real, u: seq<real>)
    requires u != []
    ensures Scale(m, u)[1..] == Scale(m, u[1..])
  {
    forall i | 0 <= i < |u| - 1 ensures Scale(m, u)[1..][i] == Scale(m, u[1..])[i] {
      var x := u[i + 1];
      assert u[1..][i] == x;
      assert Scale(m, u)[i + 1] == m * x;
      assert Scale(m, u[1..])[i] == m * x;
    }
  }

  lemma ScaleStep(m: real, u: real, z: real, d: real, p: real, uz: real)
    requires p == m * u && uz == u * z
    ensures p * z + m * d == m * (uz + d)
  {
  }

  lemma {:induction false} DotScale(m: real, u: seq<real>, z: seq<real>, d: real)
    requires |u| == |z| && d == Dot(u, z)
    ensures Dot(Scale(m, u), z) == m * d
  {
    if z != [] {
      var rest := Dot(u[1..], z[1..]);
      DotScale(m, u[1..], z[1..], rest);
      ScaleTail(m, u);
      ScaleStep(m, u[0], z[0], rest, Scale(m, u)[0], u[0] * z[0]);
    }
  }

  lemma {:induction false} DotConstant(e: real, z: seq<real>, sum: real)
    requires sum == Sum(z)
    ensures Dot(Constant(|z|, e), z) == e * sum
  {
    if z != [] {
      var rest := Sum(z[1..]);
      DotConstant(e, z[1..], rest);
      assert Constant(|z|, e)[1..] == Constant(|z[1..]|, e);
      assert e * sum == e * z[0] + e * rest;
    }
  }

  lemma DotOnes(z: seq<real>)
    ensures Dot(Constant(|z|, 1.0), z) == Sum(z)
    ensures Dot(z, Constant(|z|, 1.0)) == Sum(z)
  {
    DotConstant(1.0, z, Sum(z));
    DotSymmetric(Constant(|z|, 1.0), z);
  }

  /** The product of `r` with the points of a line. */
  lemma DotLine(r: seq<real>, u: seq<real>, d: real, e: real)
    requires |r| == |u| && Dot(u, r) == 0.0 && Sum(r) == 0.0
    ensures Dot(r, Plus(Scale(d, u), Constant(|u|, e))) == 0.0
  {
    var scaled, constant := Scale(d, u), Constant(|u|, e);
    DotScale(d, u, r, 0.0);
    DotConstant(e, r, 0.0);
    DotPlus(scaled, constant, r);
    DotSymmetric(r, Plus(scaled, constant));
  }

  /** Pythagoras. */
  lemma DotOrthogonal(r: seq<real>, t: seq<real>)
    requires |r| == |t| && Dot(r, t) == 0.0
    ensures Dot(Plus(r, t), Plus(r, t)) == Dot(r, r) + Dot(t, t)
  {
    var sum := Plus(r, t);
    DotPlus(r, t, sum);
    DotSymmetric(r, sum);
    DotSymmetric(t, sum);
    DotPlus(r, t, r);
    DotPlus(r, t, t);
    DotSymmetric(t, r);
  }

  // --------------------------------------------------------- the error of a line

  lemma Regrouped(x: real, y: real, m: real, c: real, mx: real, my: real)
    requires c == my - m * mx
    ensures y - (m * x + c) == (y - my) + (-m) * (x - mx)
  {
  }

  /** A line through the point of means leaves centred residuals. */
  lemma CentredResiduals(xs: seq<real>, ys: seq<real>, m: real, c: real, mx: real, my: real)
    requires |xs| == |ys| && c == my - m * mx
    ensures Residuals(xs, ys, m, c) == Plus(Shifted(ys, my), Scale(-m, Shifted(xs, mx)))
  {
    var r := Residuals(xs, ys, m, c);
    var centred := Plus(Shifted(ys, my), Scale(-m, Shifted(xs, mx)));
    forall i | 0 <= i < |xs| ensures r[i] == centred[i] {
      Regrouped(xs[i], ys[i], m, c, mx, my);
    }
  }

  /** A quotient as a product. */
  lemma Divided(a: real, b: real, q: real)
    requires b != 0.0 && q == a / b
    ensures q * b == a
  {
  }

  lemma OneLess(part: real, yy: real, ratio: real, r: real)
    requires ratio * yy == part && r == 1.0 - ratio
    ensures r * yy == yy - part
  {
  }

  /** The line of a fit around `mx` and `my`, without division. */
  ghost predicate Line(xs: seq<real>, ys: seq<real>, slope: real, intercept: real, mx: real, my: real) {
    && |xs| == |ys|
    && slope * Dot(Shifted(xs, mx), Shifted(xs, mx)) == Dot(Shifted(xs, mx), Shifted(ys, my))
    && intercept == my - slope * mx
  }

  lemma FitLine(xs: seq<real>, ys: seq<real>, fit: Fit)
    requires LeastSquares(xs, ys) == Some(fit)
    ensures Line(xs, ys, fit.slope, fit.intercept, Mean(xs), Mean(ys))
  {
    var dx, dy := Shifted(xs, Mean(xs)), Shifted(ys, Mean(ys));
    Divided(Dot(dx, dy), Dot(dx, dx), fit.slope);
  }

  lemma FitShare(xs: seq<real>, ys: seq<real>, fit: Fit, part: real, yy: real)
    requires LeastSquares(xs, ys) == Some(fit) && part == Error(xs, ys, fit.slope, fit.intercept)
    requires yy == Dot(Shifted(ys, Mean(ys)), Shifted(ys, Mean(ys)))
    ensures yy == 0.0 ==> fit.rSquared == 0.0
    ensures yy != 0.0 ==> fit.rSquared * yy == yy - part
  {
    if yy != 0.0 {
      var ratio := part / yy;
      assert fit.rSquared == 1.0 - ratio;
      Divided(part, yy, ratio);
      OneLess(part, yy, ratio, fit.rSquared);
    }
  }

  lemma Cancels(slope: real, xx: real, xy: real)
    requires slope * xx == xy
    ensures xy + (-slope) * xx == 0.0
  {
  }

  lemma RowOrthogonal(dx: seq<real>, dy: seq<real>, m: real, xx: real)
    requires |dx| == |dy| && xx == Dot(dx, dx) && Dot(dx, dy) + m * xx == 0.0
    ensures Dot(dx, Plus(dy, Scale(m, dx))) == 0.0
  {
    ProductWithRow(Plus(dy, Scale(m, dx)), dx, dy, m, xx);
  }

  /** The residuals of such a line are a row, orthogonal to the centred `x`. */
  lemma LineRow(xs: seq<real>, ys: seq<real>, slope: real, intercept: real, mx: real, my: real) returns (m: real)
    requires Line(xs, ys, slope, intercept, mx, my)
    ensures Residuals(xs, ys, slope, intercept) == Plus(Shifted(ys, my), Scale(m, Shifted(xs, mx)))
    ensures Dot(Shifted(xs, mx), Residuals(xs, ys, slope, intercept)) == 0.0
  {
    var dx, dy := Shifted(xs, mx), Shifted(ys, my);
    m := -slope;
    CentredResiduals(xs, ys, slope, intercept, mx, my);
    Cancels(slope, Dot(dx, dx), Dot(dx, dy));
    RowOrthogonal(dx, dy, m, Dot(dx, dx));
  }

  lemma FitRow(xs: seq<real>, ys: seq<real>, fit: Fit, dx: seq<real>, r: seq<real>) returns (m: real)
    requires LeastSquares(xs, ys) == Some(fit)
    requires dx == Shifted(xs, Mean(xs)) && r == Residuals(xs, ys, fit.slope, fit.intercept)
    ensures r == Plus(Shifted(ys, Mean(ys)), Scale(m, dx)) && Dot(dx, r) == 0.0
  {
    FitLine(xs, ys, fit);
    m := LineRow(xs, ys, fit.slope, fit.intercept, Mean(xs), Mean(ys));
  }

  lemma FitNormal(xs: seq<real>, ys: seq<real>, fit: Fit, dx: seq<real>, r: seq<real>)
    requires LeastSquares(xs, ys) == Some(fit)
    requires dx == Shifted(xs, Mean(xs)) && r == Residuals(xs, ys, fit.slope, fit.intercept)
    ensures Sum(r) == 0.0 && Dot(dx, r) == 0.0 && Dot(xs, r) == 0.0
  {
    var m := FitRow(xs, ys, fit, dx, r);
    Centred(xs);
    Centred(ys);
    SumOfRow(r, dx, Shifted(ys, Mean(ys)), m);
    FromCentred(xs, dx, r, Mean(xs));
  }

  /** The normal equations: the residuals of the fitted line add up to nothing and
      are orthogonal to the `x`. */
  lemma {:induction false} FitIsNormal(xs: seq<real>, ys: seq<real>, slope: real, intercept: real)
    requires LeastSquares(xs, ys).Some?
    requires slope == LeastSquares(xs, ys).value.slope && intercept == LeastSquares(xs, ys).value.intercept
    ensures Sum(Residuals(xs, ys, slope, intercept)) == 0.0
    ensures Dot(xs, Residuals(xs, ys, slope, intercept)) == 0.0
  {
    FitNormal(xs, ys, LeastSquares(xs, ys).value, Shifted(xs, Mean(xs)), Residuals(xs, ys, slope, intercept));
  }

  lemma SumOfRow(r: seq<real>, dx: seq<real>, dy: seq<real>, m: real)
    requires |dx| == |dy| && r == Plus(dy, Scale(m, dx)) && Sum(dx) == 0.0 && Sum(dy) == 0.0
    ensures Sum(r) == 0.0
  {
    var scaled, ones := Scale(m, dx), Constant(|r|, 1.0);
    DotOnes(r);
    DotOnes(dx);
    DotOnes(dy);
    DotPlus(dy, scaled, ones);
    DotScale(m, dx, ones, 0.0);
  }

  lemma ProductWithRow(r: seq<real>, dx: seq<real>, dy: seq<real>, m: real, xx: real)
    requires |dx| == |dy| && r == Plus(dy, Scale(m, dx)) && xx == Dot(dx, dx)
    ensures Dot(dx, r) == Dot(dx, dy) + m * xx
  {
    DotPlus(dy, Scale(m, dx), dx);
    DotScale(m, dx, dx, xx);
    DotSymmetric(dx, dy);
    DotSymmetric(dx, r);
  }

  lemma ShiftedBack(xs: seq<real>, mx: real)
    ensures Plus(Shifted(xs, mx), Constant(|xs|, mx)) == xs
  {
  }

  lemma RowVanishes(e: real, r: seq<real>)
    requires Sum(r) == 0.0
    ensures Dot(Constant(|r|, e), r) == 0.0
  {
    var sum := Sum(r);
    DotConstant(e, r, sum);
    Product(e, sum, e * sum);
  }

  lemma FromCentred(xs: seq<real>, dx: seq<real>, r: seq<real>, mx: real)
    requires dx == Shifted(xs, mx) && |r| == |xs| && Sum(r) == 0.0
    ensures Dot(xs, r) == Dot(dx, r)
  {
    var row := Constant(|r|, mx);
    ShiftedBack(xs, mx);
    RowVanishes(mx, r);
    DotPlus(dx, row, r);
  }

  /** Changing the line by `d` and `e` changes the residuals by a line. */
  lemma ResidualsMove(xs: seq<real>, ys: seq<real>, slope: real, intercept: real, m: real, c: real)
    requires |xs| == |ys|
    ensures Residuals(xs, ys, m, c)
            == Plus(Residuals(xs, ys, slope, intercept), Plus(Scale(slope - m, xs), Constant(|xs|, intercept - c)))
  {
    var moved := Plus(Residuals(xs, ys, slope, intercept), Plus(Scale(slope - m, xs), Constant(|xs|, intercept - c)));
    forall i | 0 <= i < |xs| ensures Residuals(xs, ys, m, c)[i] == moved[i] {
      Difference(xs[i], ys[i], slope, intercept, m, c);
    }
  }

  lemma Difference(x: real, y: real, slope: real, intercept: real, m: real, c: real)
    ensures y - (m * x + c) == (y - (slope * x + intercept)) + ((slope - m) * x + (intercept - c))
  {
  }

  /** The points of a line vanish at two different `x` only if the line does. */
  lemma LineVanishesIff(xs: seq<real>, d: real, e: real)
    requires !Flat(xs)
    ensures (forall i :: 0 <= i < |xs| ==> Plus(Scale(d, xs), Constant(|xs|, e))[i] == 0.0) <==> d == 0.0 && e == 0.0
  {
    var line := Plus(Scale(d, xs), Constant(|xs|, e));
    assert forall i :: 0 <= i < |xs| ==> line[i] == Scale(d, xs)[i] + e;
    if d == 0.0 && e == 0.0 {
      forall i | 0 <= i < |xs| ensures line[i] == 0.0 { Product(d, xs[i], Scale(d, xs)[i]); }
    }
    if forall i :: 0 <= i < |xs| ==> line[i] == 0.0 {
      var i, j :| 0 <= i < j < |xs| && xs[i] != xs[j];
      assert line[i] == 0.0 && line[j] == 0.0;
      TwoPoints(xs[i], xs[j], d, e);
    }
  }

  lemma TwoPoints(x: real, x': real, d: real, e: real)
    requires x != x' && d * x + e == 0.0 && d * x' + e == 0.0
    ensures d == 0.0 && e == 0.0
  {
    assert d * (x - x') == 0.0;
    Product(d, x - x', 0.0);
    Product(-d, x - x', 0.0);
  }

  // --------------------------------------------------------------- main results

  /** No line is fitted if and only if the lists differ in length or there are not
      two different `x` (fewer than two points included). */
  lemma NoFitIff(xs: seq<real>, ys: seq<real>)
    ensures LeastSquares(xs, ys) == None <==> |xs| != |ys| || Flat(xs)
    ensures |xs| < 2 ==> LeastSquares(xs, ys) == None
  {
    if |xs| >= 2 { SpreadVanishesIff(xs); }
  }

  /** The fitted line is the one best line. */
  lemma FittedIsBest(xs: seq<real>, ys: seq<real>, m: real, c: real)
    requires LeastSquares(xs, ys).Some?
    ensures var fit := LeastSquares(xs, ys).value;
            && Error(xs, ys, fit.slope, fit.intercept) <= Error(xs, ys, m, c)
            && (Error(xs, ys, m, c) == Error(xs, ys, fit.slope, fit.intercept)
                <==> m == fit.slope && c == fit.intercept)
  {
    var fit := LeastSquares(xs, ys).value;
    var r := Residuals(xs, ys, fit.slope, fit.intercept);
    var d, e := fit.slope - m, fit.intercept - c;
    var t := Plus(Scale(d, xs), Constant(|xs|, e));
    NoFitIff(xs, ys);
    FitIsNormal(xs, ys, fit.slope, fit.intercept);
    DotLine(r, xs, d, e);
    ResidualsMove(xs, ys, fit.slope, fit.intercept, m, c);
    DotOrthogonal(r, t);
    SquaresVanishIff(t);
    LineVanishesIff(xs, d, e);
  }

  lemma NoErrorIff(xs: seq<real>, ys: seq<real>, m: real, c: real)
    requires |xs| == |ys|
    ensures Error(xs, ys, m, c) >= 0.0
    ensures Error(xs, ys, m, c) == 0.0 <==> OnLine(xs, ys, m, c)
  {
    var r := Residuals(xs, ys, m, c);
    SquaresVanishIff(r);
    if Error(xs, ys, m, c) == 0.0 {
      forall i | 0 <= i < |xs| ensures ys[i] == m * xs[i] + c { assert r[i] == 0.0; }
    }
  }

  /** The error of the flat line through the mean is the spread of the `y`. */
  lemma ErrorOfMean(xs: seq<real>, ys: seq<real>)
    requires |xs| == |ys| > 0
    ensures Error(xs, ys, 0.0, Mean(ys)) == Dot(Shifted(ys, Mean(ys)), Shifted(ys, Mean(ys)))
  {
    assert Residuals(xs, ys, 0.0, Mean(ys)) == Shifted(ys, Mean(ys));
  }

  lemma Share(part: real, whole: real, ratio: real)
    requires 0.0 <= part <= whole && whole > 0.0 && ratio * whole == part
    ensures 0.0 <= 1.0 - ratio <= 1.0
    ensures 1.0 - ratio == 1.0 <==> part == 0.0
    ensures 1.0 - ratio == 0.0 <==> part == whole
  {
    Product(ratio, whole, part);
    Product(ratio - 1.0, whole, part - whole);
  }

  /** R squared lies between 0 and 1. It is 0 if and only if the fitted line is flat, and,
      when `y` varies, 1 if and only if every point lies on the fitted line. */
  lemma FittedBounds(xs: seq<real>, ys: seq<real>)
    requires LeastSquares(xs, ys).Some?
    ensures var fit := LeastSquares(xs, ys).value;
            && 0.0 <= fit.rSquared <= 1.0
            && (fit.rSquared == 0.0 <==> fit.slope == 0.0)
            && (fit.rSquared == 1.0 <==> !Flat(ys) && OnLine(xs, ys, fit.slope, fit.intercept))
  {
    var fit := LeastSquares(xs, ys).value;
    var dy := Shifted(ys, Mean(ys));
    SpreadVanishesIff(ys);
    SquaresVanishIff(dy);
    ErrorOfMean(xs, ys);
    FittedIsBest(xs, ys, 0.0, Mean(ys));
    NoErrorIff(xs, ys, fit.slope, fit.intercept);
    if Dot(dy, dy) == 0.0 {
      assert fit.slope == 0.0;
    } else {
      var part := Error(xs, ys, fit.slope, fit.intercept);
      Share(part, Dot(dy, dy), part / Dot(dy, dy));
    }
  }

  /** Points on a line with two different `x` give exactly that line back. */
  lemma ExactLineRecovered(xs: seq<real>, ys: seq<real>, a: real, b: real)
    requires |xs| == |ys| && !Flat(xs) && OnLine(xs, ys, a, b)
    ensures LeastSquares(xs, ys) == Some(Fit(a, b, if a == 0.0 then 0.0 else 1.0))
  {
    NoFitIff(xs, ys);
    var fit := LeastSquares(xs, ys).value;
    NoErrorIff(xs, ys, a, b);
    NoErrorIff(xs, ys, fit.slope, fit.intercept);
    FittedIsBest(xs, ys, a, b);
    FittedBounds(xs, ys);
    if a != 0.0 {
      var i, j :| 0 <= i < j < |xs| && xs[i] != xs[j];
      assert ys[i] - ys[j] == a * (xs[i] - xs[j]);
    }
  }

  // ------------------------------------------------------- the value of R squared

  /** Going from the fitted line to the flat one through the mean takes out the slope. */
  lemma FlatResiduals(xs: seq<real>, ys: seq<real>, slope: real, intercept: real, mx: real, my: real)
    requires |xs| == |ys| && intercept == my - slope * mx
    ensures Residuals(xs, ys, 0.0, my) == Plus(Residuals(xs, ys, slope, intercept), Scale(slope, Shifted(xs, mx)))
  {
    var flat, line := Residuals(xs, ys, 0.0, my), Residuals(xs, ys, slope, intercept);
    forall i | 0 <= i < |xs| ensures flat[i] == Plus(line, Scale(slope, Shifted(xs, mx)))[i] {
      TakeOut(xs[i], ys[i], slope, intercept, mx, my);
    }
  }

  lemma TakeOut(x: real, y: real, slope: real, intercept: real, mx: real, my: real)
    requires intercept == my - slope * mx
    ensures y - (0.0 * x + my) == (y - (slope * x + intercept)) + slope * (x - mx)
  {
  }

  lemma ScaledOrthogonal(r: seq<real>, u: seq<real>, m: real)
    requires |r| == |u| && Dot(u, r) == 0.0
    ensures Dot(r, Scale(m, u)) == 0.0
  {
    DotScale(m, u, r, 0.0);
    DotSymmetric(r, Scale(m, u));
  }

  lemma ScaledSquare(m: real, u: seq<real>, uu: real)
    requires uu == Dot(u, u)
    ensures Dot(Scale(m, u), Scale(m, u)) == m * (m * uu)
  {
    DotScale(m, u, u, uu);
    DotSymmetric(u, Scale(m, u));
    DotScale(m, u, Scale(m, u), m * uu);
  }

  lemma Correlation(r: real, yy: real, xx: real, xy: real, slope: real, ee: real)
    requires ee == slope * (slope * xx) && slope * xx == xy && r * yy == ee
    ensures r * (xx * yy) == xy * xy
  {
    assert r * (xx * yy) == (r * yy) * xx;
    assert ee == slope * xy;
    assert (slope * xy) * xx == xy * (slope * xx);
  }

  lemma Shares(part: real, ee: real, yy: real, r: real)
    requires yy == part + ee
    requires yy == 0.0 ==> r == 0.0 && part == 0.0
    requires yy != 0.0 ==> r * yy == yy - part
    ensures part == (1.0 - r) * yy && r * yy == ee
  {
  }

  /** The fitted line does not miss points that do not vary. */
  lemma NoErrorIfFlat(xs: seq<real>, ys: seq<real>, fit: Fit)
    requires LeastSquares(xs, ys) == Some(fit) && Error(xs, ys, 0.0, Mean(ys)) == 0.0
    ensures Error(xs, ys, fit.slope, fit.intercept) == 0.0
  {
    FittedIsBest(xs, ys, 0.0, Mean(ys));
    SquaresVanishIff(Residuals(xs, ys, fit.slope, fit.intercept));
  }

  /** The residuals of the flat line are those of the fitted line and the values the
      fitted line explains. */
  lemma FlatIsFitPlus(xs: seq<real>, ys: seq<real>, fit: Fit)
    requires LeastSquares(xs, ys) == Some(fit)
    ensures Residuals(xs, ys, 0.0, Mean(ys)) ==
            Plus(Residuals(xs, ys, fit.slope, fit.intercept), Scale(fit.slope, Shifted(xs, Mean(xs))))
  {
    FitLine(xs, ys, fit);
    FlatResiduals(xs, ys, fit.slope, fit.intercept, Mean(xs), Mean(ys));
  }

  /** What the fitted line misses and what it explains add up to the spread. */
  lemma SpreadSplits(xs: seq<real>, ys: seq<real>, fit: Fit, dx: seq<real>, r: seq<real>, e: seq<real>)
    requires LeastSquares(xs, ys) == Some(fit) && dx == Shifted(xs, Mean(xs))
    requires r == Residuals(xs, ys, fit.slope, fit.intercept) && e == Scale(fit.slope, dx)
    ensures Error(xs, ys, 0.0, Mean(ys)) == Dot(r, r) + Dot(e, e)
  {
    FitNormal(xs, ys, fit, dx, r);
    ScaledOrthogonal(r, dx, fit.slope);
    FlatIsFitPlus(xs, ys, fit);
    DotOrthogonal(r, e);
  }

  /** The spread of the `y` is what the line misses and what it explains, `s` being
      its slope. */
  lemma Explained(xs: seq<real>, ys: seq<real>, fit: Fit, part: real, xx: real, xy: real) returns (s: real, ee: real)
    requires LeastSquares(xs, ys) == Some(fit) && part == Error(xs, ys, fit.slope, fit.intercept)
    requires xx == Dot(Shifted(xs, Mean(xs)), Shifted(xs, Mean(xs)))
    requires xy == Dot(Shifted(xs, Mean(xs)), Shifted(ys, Mean(ys)))
    ensures Error(xs, ys, 0.0, Mean(ys)) == part + ee && ee == s * (s * xx) && s * xx == xy
  {
    var dx := Shifted(xs, Mean(xs));
    s := fit.slope;
    var e := Scale(s, dx);
    ee := Dot(e, e);
    SpreadSplits(xs, ys, fit, dx, Residuals(xs, ys, fit.slope, fit.intercept), e);
    ScaledSquare(s, dx, xx);
    FitLine(xs, ys, fit);
  }

  lemma ShareOfFit(xs: seq<real>, ys: seq<real>, fit: Fit, part: real, yy: real)
    requires LeastSquares(xs, ys) == Some(fit) && part == Error(xs, ys, fit.slope, fit.intercept)
    requires yy == Error(xs, ys, 0.0, Mean(ys))
    ensures yy == 0.0 ==> fit.rSquared == 0.0 && part == 0.0
    ensures yy != 0.0 ==> fit.rSquared * yy == yy - part
  {
    ErrorOfMean(xs, ys);
    FitShare(xs, ys, fit, part, yy);
    if yy == 0.0 { NoErrorIfFlat(xs, ys, fit); }
  }

  /** The reported number is the share of the mean's error that the fitted line
      removes. */
  lemma FittedShare(xs: seq<real>, ys: seq<real>, fit: Fit, part: real, yy: real)
    requires LeastSquares(xs, ys) == Some(fit) && part == Error(xs, ys, fit.slope, fit.intercept)
    requires yy == Error(xs, ys, 0.0, Mean(ys))
    ensures part == (1.0 - fit.rSquared) * yy
  {
    ShareOfFit(xs, ys, fit, part, yy);
    Shares(part, yy - part, yy, fit.rSquared);
  }

  lemma SquaredCorrelation(part: real, xx: real, xy: real, yy: real, s: real, ee: real, r: real)
    requires yy == part + ee && ee == s * (s * xx) && s * xx == xy
    requires yy == 0.0 ==> r == 0.0 && part == 0.0
    requires yy != 0.0 ==> r * yy == yy - part
    ensures r * (xx * yy) == xy * xy
  {
    Shares(part, ee, yy, r);
    Correlation(r, yy, xx, xy, s, ee);
  }

  /** It is the square of the correlation. */
  lemma FittedCorrelation(xs: seq<real>, ys: seq<real>, fit: Fit, xx: real, xy: real, yy: real)
    requires LeastSquares(xs, ys) == Some(fit)
    requires xx == Dot(Shifted(xs, Mean(xs)), Shifted(xs, Mean(xs)))
    requires xy == Dot(Shifted(xs, Mean(xs)), Shifted(ys, Mean(ys)))
    requires yy == Error(xs, ys, 0.0, Mean(ys))
    ensures yy == Dot(Shifted(ys, Mean(ys)), Shifted(ys, Mean(ys)))
    ensures fit.rSquared * (xx * yy) == xy * xy
  {
    var part := Error(xs, ys, fit.slope, fit.intercept);
    ErrorOfMean(xs, ys);
    ShareOfFit(xs, ys, fit, part, yy);
    var s, ee := Explained(xs, ys, fit, part, xx, xy);
    SquaredCorrelation(part, xx, xy, yy, s, ee, fit.rSquared);
  }

  // ------------------------------------------- the results, for all points with a line

  /** The fitted line is the one best line. */
  lemma {:induction false} FitIsBest(xs: seq<real>, ys: seq<real>, m: real, c: real)
    requires |xs| == |ys| && !Flat(xs)
    ensures LeastSquares(xs, ys).Some?
    ensures var fit := LeastSquares(xs, ys).value;
            && Error(xs, ys, fit.slope, fit.intercept) <= Error(xs, ys, m, c)
            && (Error(xs, ys, m, c) == Error(xs, ys, fit.slope, fit.intercept)
                <==> m == fit.slope && c == fit.intercept)
  {
    NoFitIff(xs, ys);
    FittedIsBest(xs, ys, m, c);
  }

  /** R squared lies between 0 and 1. It is 0 if and only if the fitted line is flat, and
      1 if and only if `y` varies and every point lies on the fitted line. */
  lemma {:induction false} RSquaredBounds(xs: seq<real>, ys: seq<real>)
    requires |xs| == |ys| && !Flat(xs)
    ensures LeastSquares(xs, ys).Some?
    ensures var fit := LeastSquares(xs, ys).value;
            && 0.0 <= fit.rSquared <= 1.0
            && (fit.rSquared == 0.0 <==> fit.slope == 0.0)
            && (fit.rSquared == 1.0 <==> !Flat(ys) && OnLine(xs, ys, fit.slope, fit.intercept))
  {
    NoFitIff(xs, ys);
    FittedBounds(xs, ys);
  }

  /** The reported number is the share of the mean's error that the fitted line
      removes. */
  lemma {:induction false} RSquaredIsShare(xs: seq<real>, ys: seq<real>)
    requires |xs| == |ys| && !Flat(xs)
    ensures LeastSquares(xs, ys).Some?
    ensures var fit := LeastSquares(xs, ys).value;
            Error(xs, ys, fit.slope, fit.intercept) == (1.0 - fit.rSquared) * Error(xs, ys, 0.0, Mean(ys))
  {
    NoFitIff(xs, ys);
    var fit := LeastSquares(xs, ys).value;
    FittedShare(xs, ys, fit, Error(xs, ys, fit.slope, fit.intercept), Error(xs, ys, 0.0, Mean(ys)));
  }

  /** It is the square of the correlation. */
  lemma {:induction false} RSquaredIsCorrelation(xs: seq<real>, ys: seq<real>)
    requires |xs| == |ys| && !Flat(xs)
    ensures LeastSquares(xs, ys).Some?
    ensures var dx, dy := Shifted(xs, Mean(xs)), Shifted(ys, Mean(ys));
            LeastSquares(xs, ys).value.rSquared * (Dot(dx, dx) * Dot(dy, dy)) == Dot(dx, dy) * Dot(dx, dy)
  {
    NoFitIff(xs, ys);
    var dx, dy := Shifted(xs, Mean(xs)), Shifted(ys, Mean(ys));
    FittedCorrelation(xs, ys, LeastSquares(xs, ys).value, Dot(dx, dx), Dot(dx, dy), Error(xs, ys, 0.0, Mean(ys)));
  }

  /** The residuals of the fitted line add up to nothing and are orthogonal to the
      `x`. */
  lemma {:induction false} ResidualsAreNormal(xs: seq<real>, ys: seq<real>)
    requires |xs| == |ys| && !Flat(xs)
    ensures LeastSquares(xs, ys).Some?
    ensures var r := Residuals(xs, ys, LeastSquares(xs, ys).value.slope, LeastSquares(xs, ys).value.intercept);
            Sum(r) == 0.0 && Dot(xs, r) == 0.0
  {
    NoFitIff(xs, ys);
    FitIsNormal(xs, ys, LeastSquares(xs, ys).value.slope, LeastSquares(xs, ys).value.intercept);
  }
}
