/** The growth fit: the closed-form line through sample points, over the reals. */
module LeastSquares {
  import opened Multiples

  datatype Line = Line(a: real, b: real)

  function Dot(us: seq<real>, vs: seq<real>): real
    requires |us| == |vs|
  {
    if us == [] then 0.0
    else
      var n := |us| - 1;
      Dot(us[..n], vs[..n]) + us[n] * vs[n]
  }

  /** Deviations from m. */
  function Less(xs: seq<real>, m: real): (d: seq<real>)
    ensures |d| == |xs| && forall i :: 0 <= i < |xs| ==> d[i] == xs[i] - m
  {
    seq(|xs|, i requires 0 <= i < |xs| => xs[i] - m)
  }

  function Errors(xs: seq<real>, ys: seq<real>, l: Line): (e: seq<real>)
    requires |xs| == |ys|
    ensures |e| == |xs| && forall i :: 0 <= i < |xs| ==> e[i] == ys[i] - (l.a + l.b * xs[i])
  {
    seq(|xs|, i requires 0 <= i < |xs| => ys[i] - (l.a + l.b * xs[i]))
  }

  /** The sum of squared residuals of a line. */
  function Residual(xs: seq<real>, ys: seq<real>, l: Line): real
    requires |xs| == |ys|
  {
    var e := Errors(xs, ys, l);
    Dot(e, e)
  }

  function Mean(xs: seq<real>): real
    requires xs != []
  {
    Sum(xs) / |xs| as real
  }

  function Fit(xs: seq<real>, ys: seq<real>): Line
    requires |xs| == |ys|
  {
    if |xs| < 2 then Line(if ys != [] then ys[0] else 0.0, 0.0)
    else
      var mx, my := Mean(xs), Mean(ys);
      var dx := Less(xs, mx);
      var denom := Dot(dx, dx);
      if denom == 0.0 then Line(my, 0.0)
      else
        var b := Dot(dx, Less(ys, my)) / denom;
        Line(my - b * mx, b)
  }

  // ---- Arithmetic --------------------------------------------------------------------------------

  lemma Product(x: real, y: real, p: real)
    requires p == x * y && x > 0.0 && y > 0.0
    ensures p > 0.0
  {}

  lemma Square(d: real, q: real)
    requires q == d * d
    ensures q >= 0.0 && (q == 0.0 <==> d == 0.0)
  {
    if d < 0.0 { Product(-d, -d, q); } else if d > 0.0 { Product(d, d, q); }
  }

  lemma Quotient(x: real, d: real)
    requires d != 0.0
    ensures d * (x / d) == x && (x / d) * d == x
  {}

  lemma {:induction false} DotSelf(us: seq<real>)
    ensures Dot(us, us) >= 0.0
    ensures Dot(us, us) == 0.0 <==> forall i :: 0 <= i < |us| ==> us[i] == 0.0
  {
    if us != [] {
      var n := |us| - 1;
      DotSelf(us[..n]);
      Square(us[n], us[n] * us[n]);
      assert us == us[..n] + [us[n]];
    }
  }

  lemma {:induction false} DotZero(us: seq<real>, vs: seq<real>)
    requires |us| == |vs| && forall i :: 0 <= i < |us| ==> us[i] == 0.0
    ensures Dot(us, vs) == 0.0
  {
    if us != [] { DotZero(us[..|us| - 1], vs[..|vs| - 1]); }
  }

  lemma {:induction false} DotOfDifference(u: seq<real>, v: seq<real>, e: seq<real>)
    requires |u| == |v| == |e| && forall i :: 0 <= i < |e| ==> e[i] == u[i] - v[i]
    ensures Dot(e, e) == Dot(u, u) - 2.0 * Dot(u, v) + Dot(v, v)
  {
    if e != [] {
      var n := |e| - 1;
      DotOfDifference(u[..n], v[..n], e[..n]);
      assert e[n] * e[n] == u[n] * u[n] - 2.0 * (u[n] * v[n]) + v[n] * v[n];
    }
  }

  ghost predicate OnLine(v: seq<real>, w: seq<real>, c: real, b: real) {
    |v| == |w| && forall i :: 0 <= i < |v| ==> v[i] == c + b * w[i]
  }

  lemma Distribute(c: real, b: real, s: real, d: real, u: real, w: real)
    ensures c * (s + u) + b * (d + u * w) == c * s + b * d + u * (c + b * w)
  {}

  lemma {:induction false} DotWithLine(u: seq<real>, v: seq<real>, w: seq<real>, c: real, b: real)
    requires |u| == |v| && OnLine(v, w, c, b)
    ensures Dot(u, v) == c * Sum(u) + b * Dot(u, w)
  {
    if u != [] {
      var n := |u| - 1;
      DotWithLine(u[..n], v[..n], w[..n], c, b);
      Distribute(c, b, Sum(u[..n]), Dot(u[..n], w[..n]), u[n], w[n]);
    }
  }

  /** r is what is left of y after taking b times x away. */
  ghost predicate Reduced(r: seq<real>, y: seq<real>, x: seq<real>, b: real) {
    |r| == |y| == |x| && forall i :: 0 <= i < |r| ==> r[i] == y[i] - b * x[i]
  }

  lemma {:induction false} SumMinus(r: seq<real>, y: seq<real>, z: seq<real>)
    requires |r| == |y| == |z| && forall i :: 0 <= i < |r| ==> r[i] == y[i] - z[i]
    ensures Sum(r) == Sum(y) - Sum(z)
  {
    if r != [] { SumMinus(r[..|r| - 1], y[..|r| - 1], z[..|r| - 1]); }
  }

  lemma Spread(b: real, s: real, x: real)
    ensures b * (s + x) == b * s + b * x
  {}

  function Scaled(x: seq<real>, b: real): (z: seq<real>)
    ensures |z| == |x| && forall i :: 0 <= i < |x| ==> z[i] == b * x[i]
  {
    seq(|x|, i requires 0 <= i < |x| => b * x[i])
  }

  lemma {:induction false} SumScaled(z: seq<real>, x: seq<real>, b: real)
    requires |z| == |x| && forall i :: 0 <= i < |x| ==> z[i] == b * x[i]
    ensures Sum(z) == b * Sum(x)
  {
    if x != [] {
      var n := |x| - 1;
      SumScaled(z[..n], x[..n], b);
      Spread(b, Sum(x[..n]), x[n]);
    }
  }

  lemma SumReduced(r: seq<real>, y: seq<real>, x: seq<real>, b: real)
    requires Reduced(r, y, x, b)
    ensures Sum(r) == Sum(y) - b * Sum(x)
  {
    SumMinus(r, y, Scaled(x, b));
    SumScaled(Scaled(x, b), x, b);
  }

  lemma {:induction false} DotMinus(x: seq<real>, y: seq<real>, z: seq<real>, r: seq<real>)
    requires |x| == |y| == |z| == |r| && forall i :: 0 <= i < |r| ==> r[i] == y[i] - z[i]
    ensures Dot(r, x) == Dot(x, y) - Dot(x, z)
  {
    if r != [] {
      var n := |r| - 1;
      DotMinus(x[..n], y[..n], z[..n], r[..n]);
      assert r[n] * x[n] == x[n] * y[n] - x[n] * z[n];
    }
  }

  lemma DotReduced(r: seq<real>, y: seq<real>, x: seq<real>, b: real)
    requires Reduced(r, y, x, b)
    ensures Dot(r, x) == Dot(x, y) - b * Dot(x, x)
  {
    var z := Scaled(x, b);
    assert forall i :: 0 <= i < |x| ==> z[i] == 0.0 + b * x[i];
    DotMinus(x, y, z, r);
    DotWithLine(x, z, x, 0.0, b);
  }

  lemma {:induction false} SumLess(xs: seq<real>, m: real)
    ensures Sum(Less(xs, m)) == Sum(xs) - |xs| as real * m
  {
    if xs != [] {
      var n := |xs| - 1;
      SumLess(xs[..n], m);
      assert Less(xs, m)[..n] == Less(xs[..n], m);
      assert |xs| as real * m == n as real * m + m;
    }
  }

  lemma MeanCentres(xs: seq<real>)
    requires xs != []
    ensures Sum(Less(xs, Mean(xs))) == 0.0
  {
    SumLess(xs, Mean(xs));
    Quotient(Sum(xs), |xs| as real);
  }

  // ---- The fit is best ---------------------------------------------------------------------------

  /** The slope solves the normal equation. */
  lemma FitSlope(xs: seq<real>, ys: seq<real>, dx: seq<real>, dy: seq<real>)
    requires |xs| == |ys| >= 2 && dx == Less(xs, Mean(xs)) && dy == Less(ys, Mean(ys))
    ensures Fit(xs, ys).b * Dot(dx, dx) == Dot(dx, dy)
  {
    DotSelf(dx);
    if Dot(dx, dx) == 0.0 { DotZero(dx, dy); } else { Quotient(Dot(dx, dy), Dot(dx, dx)); }
  }

  lemma ThroughMeans(y: real, x: real, a: real, b: real, mx: real, my: real)
    requires a == my - b * mx
    ensures y - (a + b * x) == (y - my) - b * (x - mx)
  {}

  lemma ReducedCentred(r: seq<real>, dy: seq<real>, dx: seq<real>, b: real)
    requires Reduced(r, dy, dx, b) && Sum(dx) == 0.0 && Sum(dy) == 0.0 && b * Dot(dx, dx) == Dot(dx, dy)
    ensures Sum(r) == 0.0 && Dot(r, dx) == 0.0
  {
    SumReduced(r, dy, dx, b);
    DotReduced(r, dy, dx, b);
  }

  lemma FitReduces(xs: seq<real>, ys: seq<real>, f: Line)
    requires |xs| == |ys| >= 2 && f == Fit(xs, ys)
    ensures Reduced(Errors(xs, ys, f), Less(ys, Mean(ys)), Less(xs, Mean(xs)), f.b)
  {
    forall i | 0 <= i < |xs| ensures Errors(xs, ys, f)[i] == Less(ys, Mean(ys))[i] - f.b * Less(xs, Mean(xs))[i] {
      ThroughMeans(ys[i], xs[i], f.a, f.b, Mean(xs), Mean(ys));
    }
  }

  /** The errors of the fitted line sum to zero and are orthogonal to the abscissas. */
  lemma FitErrorsOrthogonal(xs: seq<real>, ys: seq<real>, f: Line)
    requires |xs| == |ys| >= 2 && f == Fit(xs, ys)
    ensures Sum(Errors(xs, ys, f)) == 0.0 && Dot(Errors(xs, ys, f), Less(xs, Mean(xs))) == 0.0
  {
    var dx, dy := Less(xs, Mean(xs)), Less(ys, Mean(ys));
    FitSlope(xs, ys, dx, dy);
    FitReduces(xs, ys, f);
    MeanCentres(xs);
    MeanCentres(ys);
    ReducedCentred(Errors(xs, ys, f), dy, dx, f.b);
  }

  /** How far line l is above line f at each abscissa. */
  function Gaps(xs: seq<real>, l: Line, f: Line): (g: seq<real>)
    ensures |g| == |xs| && forall i :: 0 <= i < |xs| ==> g[i] == (l.a - f.a) + (l.b - f.b) * xs[i]
  {
    seq(|xs|, i requires 0 <= i < |xs| => (l.a - f.a) + (l.b - f.b) * xs[i])
  }

  lemma ErrorGap(y: real, x: real, l: Line, f: Line)
    ensures y - (l.a + l.b * x) == (y - (f.a + f.b * x)) - ((l.a - f.a) + (l.b - f.b) * x)
  {}

  lemma GapAboutMean(a: real, b: real, x: real, mx: real)
    ensures a + b * x == (a + b * mx) + b * (x - mx)
  {}

  lemma OrthogonalToGaps(xs: seq<real>, r: seq<real>, g: seq<real>, a: real, b: real, m: real)
    requires |r| == |xs| && OnLine(g, xs, a, b) && Sum(r) == 0.0 && Dot(r, Less(xs, m)) == 0.0
    ensures Dot(r, g) == 0.0
  {
    forall i | 0 <= i < |g| ensures g[i] == (a + b * m) + b * Less(xs, m)[i] { GapAboutMean(a, b, xs[i], m); }
    DotWithLine(r, g, Less(xs, m), a + b * m, b);
  }

  lemma Apart(r: seq<real>, g: seq<real>, e: seq<real>)
    requires |r| == |g| == |e| && (forall i :: 0 <= i < |e| ==> e[i] == r[i] - g[i]) && Dot(r, g) == 0.0
    ensures Dot(e, e) == Dot(r, r) + Dot(g, g)
  {
    DotOfDifference(r, g, e);
  }

  lemma ErrorsLessGaps(xs: seq<real>, ys: seq<real>, l: Line, f: Line)
    requires |xs| == |ys|
    ensures forall i :: 0 <= i < |xs| ==> Errors(xs, ys, l)[i] == Errors(xs, ys, f)[i] - Gaps(xs, l, f)[i]
  {
    forall i | 0 <= i < |xs| ensures Errors(xs, ys, l)[i] == Errors(xs, ys, f)[i] - Gaps(xs, l, f)[i] {
      ErrorGap(ys[i], xs[i], l, f);
    }
  }

  lemma ExcessOf(xs: seq<real>, ys: seq<real>, l: Line, f: Line, m: real)
    requires |xs| == |ys| && Sum(Errors(xs, ys, f)) == 0.0 && Dot(Errors(xs, ys, f), Less(xs, m)) == 0.0
    ensures Residual(xs, ys, l) == Residual(xs, ys, f) + Dot(Gaps(xs, l, f), Gaps(xs, l, f))
  {
    var r, g := Errors(xs, ys, f), Gaps(xs, l, f);
    OrthogonalToGaps(xs, r, g, l.a - f.a, l.b - f.b, m);
    ErrorsLessGaps(xs, ys, l, f);
    Apart(r, g, Errors(xs, ys, l));
  }

  /** Another line is worse by exactly the sum of its squared gaps to the fitted one. */
  lemma ExcessIsGaps(xs: seq<real>, ys: seq<real>, l: Line, f: Line)
    requires |xs| == |ys| >= 2 && f == Fit(xs, ys)
    ensures Residual(xs, ys, l) == Residual(xs, ys, f) + Dot(Gaps(xs, l, f), Gaps(xs, l, f))
  {
    FitErrorsOrthogonal(xs, ys, f);
    ExcessOf(xs, ys, l, f, Mean(xs));
  }

  /** For any samples, none or one and all-equal abscissas included, no line has a smaller sum of
      squared residuals than the fitted one. */
  lemma FitIsBest(xs: seq<real>, ys: seq<real>, l: Line)
    requires |xs| == |ys|
    ensures Residual(xs, ys, Fit(xs, ys)) <= Residual(xs, ys, l)
  {
    var f := Fit(xs, ys);
    if |xs| < 2 {
      DotSelf(Errors(xs, ys, l));
      DotSelf(Errors(xs, ys, f));
    } else {
      ExcessIsGaps(xs, ys, l, f);
      DotSelf(Gaps(xs, l, f));
    }
  }

  lemma {:induction false} SumSame(xs: seq<real>, x: real)
    requires forall i :: 0 <= i < |xs| ==> xs[i] == x
    ensures Sum(xs) == Times(|xs|, x)
  {
    if xs != [] { SumSame(xs[..|xs| - 1], x); }
  }

  lemma MeanSame(xs: seq<real>, x: real)
    requires xs != [] && forall i :: 0 <= i < |xs| ==> xs[i] == x
    ensures Mean(xs) == x
  {
    SumSame(xs, x);
    TimesIsProduct(|xs|, x);
    Divided(|xs| as real, x, Sum(xs));
  }

  lemma Divided(n: real, x: real, s: real)
    requires n != 0.0 && s == n * x
    ensures s / n == x
  {}

  /** Where no line is told from another by the abscissas, the fit is the flat one through the mean. */
  lemma FitFlat(xs: seq<real>, ys: seq<real>)
    requires |xs| == |ys| && forall i, j :: 0 <= i < j < |xs| ==> xs[i] == xs[j]
    ensures Fit(xs, ys) == Line(if ys == [] then 0.0 else Mean(ys), 0.0)
  {
    if |xs| == 1 {
      MeanSame(ys, ys[0]);
    } else if |xs| > 1 {
      MeanSame(xs, xs[0]);
      DotSelf(Less(xs, Mean(xs)));
    }
  }

  lemma NonZero(b: real, d: real, p: real)
    requires p == b * d && b != 0.0 && d != 0.0
    ensures p != 0.0
  {
    if b > 0.0 && d > 0.0 { Product(b, d, p); }
    else if b < 0.0 && d < 0.0 { Product(-b, -d, p); }
    else if b > 0.0 { Product(b, -d, -p); }
    else { Product(-b, d, -p); }
  }

  lemma TwoGaps(a: real, b: real, x: real, y: real, g: real)
    requires x != y && a + b * x == 0.0 && g == a + b * y && (a != 0.0 || b != 0.0)
    ensures g != 0.0
  {
    assert b == 0.0 ==> b * x == 0.0;
    assert g == b * (y - x);
    NonZero(b, y - x, g);
  }

  lemma OthersWorse(xs: seq<real>, ys: seq<real>, l: Line, f: Line, i: nat, j: nat)
    requires |xs| == |ys| && i < j < |xs| && xs[i] != xs[j] && f == Fit(xs, ys) && l != f
    ensures Residual(xs, ys, l) > Residual(xs, ys, f)
  {
    ExcessIsGaps(xs, ys, l, f);
    SomeGap(xs, l, f, i, j);
  }

  lemma DotPositive(g: seq<real>, k: nat)
    requires k < |g| && g[k] != 0.0
    ensures Dot(g, g) > 0.0
  {
    DotSelf(g);
  }

  lemma SomeGap(xs: seq<real>, l: Line, f: Line, i: nat, j: nat)
    requires i < j < |xs| && xs[i] != xs[j] && l != f
    ensures Dot(Gaps(xs, l, f), Gaps(xs, l, f)) > 0.0
  {
    var g := Gaps(xs, l, f);
    if g[i] == 0.0 {
      TwoGaps(l.a - f.a, l.b - f.b, xs[i], xs[j], g[j]);
      DotPositive(g, j);
    } else {
      DotPositive(g, i);
    }
  }

  /** The fitted line is the only best one exactly when two abscissas differ. */
  lemma FitUniqueExactlyWhen(xs: seq<real>, ys: seq<real>)
    requires |xs| == |ys|
    ensures (forall l :: l != Fit(xs, ys) ==> Residual(xs, ys, l) > Residual(xs, ys, Fit(xs, ys)))
            <==> exists i, j :: 0 <= i < j < |xs| && xs[i] != xs[j]
  {
    var f := Fit(xs, ys);
    if i, j :| 0 <= i < j < |xs| && xs[i] != xs[j] {
      forall l | l != f ensures Residual(xs, ys, l) > Residual(xs, ys, f) { OthersWorse(xs, ys, l, f, i, j); }
    } else {
      var l := Turned(xs, ys, f);
      assert l != f && Residual(xs, ys, l) == Residual(xs, ys, f);
    }
  }

  /** With all abscissas equal, any line turned about their common point. */
  lemma Turned(xs: seq<real>, ys: seq<real>, f: Line) returns (l: Line)
    requires |xs| == |ys| && forall i, j :: 0 <= i < j < |xs| ==> xs[i] == xs[j]
    ensures l != f && Residual(xs, ys, l) == Residual(xs, ys, f)
  {
    var x := if xs == [] then 0.0 else xs[0];
    l := Line(f.a - x, f.b + 1.0);
    forall i | 0 <= i < |xs| ensures Errors(xs, ys, l)[i] == Errors(xs, ys, f)[i] {
      assert xs[i] == x;
      assert l.b * x == f.b * x + x;
    }
    assert Errors(xs, ys, l) == Errors(xs, ys, f);
  }
}
