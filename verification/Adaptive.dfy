/**
 Predictive thresholds (AdaptiveThresholds.cpp): the least-squares line through the last pressure
 readings, how far it lowers the thresholds, and when the daemon puts new ones into effect
 (Daemon.cpp). Doubles are real numbers here.
 */
module Adaptive {
  import opened StateMachine

  datatype Settings = Settings(enabled: bool, windowSamples: int, horizonSamples: int, maxAdjustPercent: real)

  datatype Line = Line(slope: real, intercept: real)

  function At(l: Line, x: int): real {
    l.intercept + l.slope * x as real
  }

  // ---------------------------------------------------------------- sums

  function SumX(n: nat): real {
    if n == 0 then 0.0 else SumX(n - 1) + (n - 1) as real
  }

  function SumXX(n: nat): real {
    if n == 0 then 0.0 else SumXX(n - 1) + (n - 1) as real * (n - 1) as real
  }

  function SumY(w: seq<real>): real {
    if w == [] then 0.0 else SumY(w[..|w| - 1]) + w[|w| - 1]
  }

  function SumXY(w: seq<real>): real {
    if w == [] then 0.0 else SumXY(w[..|w| - 1]) + (|w| - 1) as real * w[|w| - 1]
  }

  function SumYY(w: seq<real>): real {
    if w == [] then 0.0 else SumYY(w[..|w| - 1]) + w[|w| - 1] * w[|w| - 1]
  }

  function Denominator(n: nat): real {
    n as real * SumXX(n) - SumX(n) * SumX(n)
  }

  /** The line that Fit computes. */
  function Fitted(w: seq<real>): Line {
    var n := |w|;
    if n < 3 || Denominator(n) == 0.0 then Line(0.0, if n == 0 then 0.0 else w[n - 1])
    else
      var slope := (n as real * SumXY(w) - SumX(n) * SumY(w)) / Denominator(n);
      Line(slope, (SumY(w) - slope * SumX(n)) / n as real)
  }

  /** The squared error of a line over the window. */
  function Error(w: seq<real>, l: Line): real {
    if w == [] then 0.0
    else
      var miss := w[|w| - 1] - At(l, |w| - 1);
      Error(w[..|w| - 1], l) + miss * miss
  }

  // ------------------------------------------------ the fit is the optimum

  lemma {:induction false} SumXClosed(n: nat)
    ensures 2.0 * SumX(n) == n as real * (n as real - 1.0)
  {
    if n > 0 { SumXClosed(n - 1); }
  }

  lemma {:induction false} SumXXClosed(n: nat)
    ensures 6.0 * SumXX(n) == n as real * (n as real - 1.0) * (2.0 * n as real - 1.0)
  {
    if n > 0 {
      SumXXClosed(n - 1);
      var m := n as real;
      assert (m - 1.0) * (m - 2.0) * (2.0 * m - 3.0) + 6.0 * (m - 1.0) * (m - 1.0) == m * (m - 1.0) * (2.0 * m - 1.0);
    }
  }

  /** The denominator is n^2 (n^2 - 1) / 12, so it is positive and Fit never gives up for n >= 3. */
  lemma DenominatorClosed(n: nat)
    ensures 12.0 * Denominator(n) == n as real * n as real * (n as real * n as real - 1.0)
    ensures n >= 2 ==> Denominator(n) > 0.0
  {
    SumXClosed(n);
    SumXXClosed(n);
    var m, sx, sxx := n as real, SumX(n), SumXX(n);
    assert 4.0 * (sx * sx) == (2.0 * sx) * (2.0 * sx) == m * (m - 1.0) * (m * (m - 1.0));
    assert 12.0 * (m * sxx) == 2.0 * m * (6.0 * sxx) == 2.0 * m * (m * (m - 1.0) * (2.0 * m - 1.0));
    assert 2.0 * m * (m * (m - 1.0) * (2.0 * m - 1.0)) - 3.0 * (m * (m - 1.0) * (m * (m - 1.0))) ==
      m * m * (m * m - 1.0);
    if n >= 2 { Positive(m); }
  }

  lemma Positive(m: real)
    requires m >= 2.0
    ensures m * m * (m * m - 1.0) > 0.0
  {
    assert m * m >= 4.0;
    assert m * m * (m * m - 1.0) >= 4.0 * 3.0 by { Product(m * m, m * m - 1.0); }
  }

  lemma Product(a: real, b: real)
    requires a >= 4.0 && b >= 3.0
    ensures a * b >= 12.0
  {
    assert (a - 4.0) * (b - 3.0) >= 0.0;
  }

  /** The two normal equations, which say that the residuals and their moments cancel. */
  predicate NormalEquations(w: seq<real>, l: Line) {
    |w| as real * l.intercept + l.slope * SumX(|w|) == SumY(w) &&
    l.intercept * SumX(|w|) + l.slope * SumXX(|w|) == SumXY(w)
  }

  lemma FitIsNormal(w: seq<real>)
    requires |w| >= 3
    ensures NormalEquations(w, Fitted(w))
  {
    hide SumX, SumXX, SumY, SumXY;
    DenominatorClosed(|w|);
    var l := Fitted(w);
    SolveNormal(|w| as real, SumX(|w|), SumXX(|w|), SumY(w), SumXY(w), Denominator(|w|), l.slope, l.intercept);
  }

  lemma SolveNormal(n: real, sx: real, sxx: real, sy: real, sxy: real, d: real, b: real, a: real)
    requires n > 0.0 && d == n * sxx - sx * sx && d > 0.0
    requires b == (n * sxy - sx * sy) / d && a == (sy - b * sx) / n
    ensures n * a + b * sx == sy
    ensures a * sx + b * sxx == sxy
  {
    assert b * d == n * sxy - sx * sy;
    assert n * a == sy - b * sx;
    assert n * (a * sx + b * sxx) == (n * a) * sx + b * (n * sxx) == (sy - b * sx) * sx + b * (d + sx * sx);
    assert (sy - b * sx) * sx + b * (d + sx * sx) == sy * sx + b * d == n * sxy;
    Cancel(n, a * sx + b * sxx, sxy);
  }

  lemma Cancel(n: real, x: real, y: real)
    requires n > 0.0 && n * x == n * y
    ensures x == y
  {
  }

  /** The squared error of a line in terms of the sums over the window. */
  function Quadratic(n: real, sx: real, sxx: real, sy: real, sxy: real, syy: real, l: Line): real {
    syy - 2.0 * l.intercept * sy - 2.0 * l.slope * sxy
    + n * l.intercept * l.intercept + 2.0 * l.intercept * l.slope * sx + l.slope * l.slope * sxx
  }

  lemma QuadraticStep(x: real, sx: real, sxx: real, sy: real, sxy: real, syy: real, y: real, l: Line)
    ensures var miss := y - (l.intercept + l.slope * x);
      Quadratic(x + 1.0, sx + x, sxx + x * x, sy + y, sxy + x * y, syy + y * y, l) ==
      Quadratic(x, sx, sxx, sy, sxy, syy, l) + miss * miss
  {
  }

  lemma StepUp(x: real, sx: real, sxx: real, sy: real, sxy: real, syy: real, y: real, l: Line, e: real,
               nn: real, sx2: real, sxx2: real, sy2: real, sxy2: real, syy2: real, e2: real)
    requires e == Quadratic(x, sx, sxx, sy, sxy, syy, l)
    requires var miss := y - (l.intercept + l.slope * x); nn == x + 1.0 && e2 == e + miss * miss
    requires sx2 == sx + x && sxx2 == sxx + x * x && sy2 == sy + y && sxy2 == sxy + x * y && syy2 == syy + y * y
    ensures e2 == Quadratic(nn, sx2, sxx2, sy2, sxy2, syy2, l)
  {
    hide Quadratic;
    QuadraticStep(x, sx, sxx, sy, sxy, syy, y, l);
  }

  lemma QuadraticOfNothing(l: Line)
    ensures Quadratic(0.0, 0.0, 0.0, 0.0, 0.0, 0.0, l) == 0.0
  {
  }

  /** One more sample in each of the sums. */
  lemma OneMore(w: seq<real>, l: Line)
    requires w != []
    ensures var init, y, x := w[..|w| - 1], w[|w| - 1], (|w| - 1) as real;
      var miss := y - (l.intercept + l.slope * x);
      |w| as real == x + 1.0 && Error(w, l) == Error(init, l) + miss * miss &&
      SumX(|w|) == SumX(|w| - 1) + x && SumXX(|w|) == SumXX(|w| - 1) + x * x &&
      SumY(w) == SumY(init) + y && SumXY(w) == SumXY(init) + x * y && SumYY(w) == SumYY(init) + y * y
  {
  }

  lemma {:induction false} ErrorIsQuadratic(w: seq<real>, l: Line)
    ensures Error(w, l) == Quadratic(|w| as real, SumX(|w|), SumXX(|w|), SumY(w), SumXY(w), SumYY(w), l)
  {
    hide Quadratic;
    if w == [] {
      assert |w| as real == 0.0 && SumX(|w|) == SumXX(|w|) == SumY(w) == SumXY(w) == SumYY(w) == Error(w, l) == 0.0;
      QuadraticOfNothing(l);
    } else {
      hide Error, SumX, SumXX, SumY, SumXY, SumYY;
      var init, y, x := w[..|w| - 1], w[|w| - 1], (|w| - 1) as real;
      ErrorIsQuadratic(init, l);
      OneMore(w, l);
      StepUp(x, SumX(|w| - 1), SumXX(|w| - 1), SumY(init), SumXY(init), SumYY(init), y, l, Error(init, l),
             |w| as real, SumX(|w|), SumXX(|w|), SumY(w), SumXY(w), SumYY(w), Error(w, l));
    }
  }

  /** Around a line that solves the normal equations the error grows with the square of the distance. */
  lemma QuadraticAround(n: real, sx: real, sxx: real, sy: real, sxy: real, syy: real, best: Line, other: Line)
    requires n * best.intercept + best.slope * sx == sy && best.intercept * sx + best.slope * sxx == sxy
    ensures var da, db := other.intercept - best.intercept, other.slope - best.slope;
      Quadratic(n, sx, sxx, sy, sxy, syy, other) ==
      Quadratic(n, sx, sxx, sy, sxy, syy, best) + (n * da * da + 2.0 * da * db * sx + db * db * sxx)
  {
    var a, b := best.intercept, best.slope;
    var da, db := other.intercept - a, other.slope - b;
    assert other.intercept == a + da && other.slope == b + db;
    assert 2.0 * da * (n * a + b * sx) == 2.0 * da * sy;
    assert 2.0 * db * (a * sx + b * sxx) == 2.0 * db * sxy;
    Expand(n, sx, sxx, sy, sxy, syy, a, b, da, db);
  }

  lemma Expand(n: real, sx: real, sxx: real, sy: real, sxy: real, syy: real, a: real, b: real, da: real, db: real)
    ensures Quadratic(n, sx, sxx, sy, sxy, syy, Line(b + db, a + da)) ==
            Quadratic(n, sx, sxx, sy, sxy, syy, Line(b, a)) + (n * da * da + 2.0 * da * db * sx + db * db * sxx)
            + 2.0 * da * (n * a + b * sx) - 2.0 * da * sy + 2.0 * db * (a * sx + b * sxx) - 2.0 * db * sxy
  {
  }

  lemma SquareIsPositive(x: real, square: real)
    requires square == x * x
    ensures square >= 0.0 && (x != 0.0 ==> square > 0.0)
  {
    if x < 0.0 {
      TimesIsPositive(-x, -x, square);
    } else if x > 0.0 {
      TimesIsPositive(x, x, square);
    }
  }

  lemma TimesIsPositive(a: real, b: real, product: real)
    requires a > 0.0 && b > 0.0 && product == a * b
    ensures product > 0.0
  {
  }

  lemma FormIdentity(n: real, sx: real, sxx: real, da: real, db: real, form: real, s: real)
    requires form == n * da * da + 2.0 * da * db * sx + db * db * sxx && s == n * da + db * sx
    ensures n * form == s * s + (n * sxx - sx * sx) * (db * db)
  {
    var u, v := n * da, db * sx;
    assert s * s == (u + v) * (u + v) == u * u + 2.0 * (u * v) + v * v;
    assert n * (n * da * da) == u * u;
    assert n * (2.0 * da * db * sx) == 2.0 * (u * v);
    assert n * form == n * (n * da * da) + n * (2.0 * da * db * sx) + n * (db * db * sxx);
    assert (n * sxx - sx * sx) * (db * db) == n * (db * db * sxx) - v * v;
  }

  /** A positive definite form is 0 only at 0. */
  lemma FormIsPositive(n: real, sx: real, sxx: real, da: real, db: real, form: real)
    requires n > 0.0 && n * sxx - sx * sx > 0.0
    requires form == n * da * da + 2.0 * da * db * sx + db * db * sxx
    ensures form >= 0.0 && (form == 0.0 ==> da == 0.0 && db == 0.0)
  {
    if db == 0.0 {
      var square := da * da;
      SquareIsPositive(da, square);
      assert form == n * square;
      OnAxis(n, square, form);
    } else {
      var s, d := n * da + db * sx, n * sxx - sx * sx;
      var square, other := s * s, db * db;
      SquareIsPositive(s, square);
      SquareIsPositive(db, other);
      FormIdentity(n, sx, sxx, da, db, form, s);
      OffAxis(n, square, d, other, form);
    }
  }

  lemma OnAxis(n: real, square: real, form: real)
    requires n > 0.0 && square >= 0.0 && form == n * square
    ensures form >= 0.0 && (square > 0.0 ==> form > 0.0)
  {
  }

  lemma OffAxis(n: real, square: real, d: real, other: real, form: real)
    requires n > 0.0 && square >= 0.0 && d > 0.0 && other > 0.0 && n * form == square + d * other
    ensures form > 0.0
  {
    assert d * other > 0.0;
    assert n * form > 0.0;
  }

  /** The fitted line is the least-squares line: no line has a smaller squared error, and no other line has the same. */
  lemma FitIsOptimal(w: seq<real>, other: Line)
    requires |w| >= 3
    ensures Error(w, Fitted(w)) <= Error(w, other)
    ensures Error(w, Fitted(w)) == Error(w, other) ==> other == Fitted(w)
  {
    hide Fitted, Quadratic, Error, SumX, SumXX, SumY, SumXY, SumYY;
    var best, n := Fitted(w), |w| as real;
    FitIsNormal(w);
    DenominatorClosed(|w|);
    ErrorIsQuadratic(w, best);
    ErrorIsQuadratic(w, other);
    QuadraticAround(n, SumX(|w|), SumXX(|w|), SumY(w), SumXY(w), SumYY(w), best, other);
    var da, db := other.intercept - best.intercept, other.slope - best.slope;
    FormIsPositive(n, SumX(|w|), SumXX(|w|), da, db, n * da * da + 2.0 * da * db * SumX(|w|) + db * db * SumXX(|w|));
  }

  ghost predicate IsRamp(w: seq<real>, l: Line) {
    forall i :: 0 <= i < |w| ==> w[i] == At(l, i)
  }

  lemma {:induction false} RampHasNoError(w: seq<real>, l: Line)
    requires IsRamp(w, l)
    ensures Error(w, l) == 0.0
  {
    if w != [] {
      RampHasNoError(w[..|w| - 1], l);
      assert w[|w| - 1] == At(l, |w| - 1);
    }
  }

  lemma {:induction false} ErrorIsNotNegative(w: seq<real>, l: Line)
    ensures Error(w, l) >= 0.0
  {
    if w != [] {
      ErrorIsNotNegative(w[..|w| - 1], l);
      var miss := w[|w| - 1] - At(l, |w| - 1);
      assert miss * miss >= 0.0;
    }
  }

  function Forecast(w: seq<real>, horizon: int): real {
    if |w| < 3 then Fitted(w).intercept
    else Fitted(w).intercept + Fitted(w).slope * ((|w| - 1) as real + horizon as real)
  }

  /** A linear ramp is recovered exactly, and the forecast is the ramp's own value `horizon` samples on. */
  lemma RampIsRecovered(w: seq<real>, l: Line, horizon: int)
    requires |w| >= 3 && IsRamp(w, l)
    ensures Fitted(w) == l && Forecast(w, horizon) == At(l, |w| - 1 + horizon)
  {
    hide Fitted, Error;
    RampHasNoError(w, l);
    FitIsOptimal(w, l);
    ErrorIsNotNegative(w, Fitted(w));
    assert (|w| - 1 + horizon) as real == (|w| - 1) as real + horizon as real;
  }

  // -------------------------------------------------- adjusting thresholds

  function Max(a: real, b: real): (m: real)
    ensures a <= m && b <= m && (m == a || m == b)
  {
    if a < b then b else a
  }

  function Min(a: real, b: real): (m: real)
    ensures m <= a && m <= b && (m == a || m == b)
  {
    if b < a then b else a
  }

  function Clamp(v: real, low: real, high: real): (c: real)
    requires low <= high
    ensures low <= c <= high && (c == v || (v < low && c == low) || (v > high && c == high))
  {
    if v < low then low else if high < v then high else v
  }

  /** How far the thresholds are lowered: the controller's bias and the expected rise, kept above recovery. */
  function Offset(s: Settings, w: seq<real>, base: Config, bias: real): real {
    var slope := Fitted(w).slope;
    var rise := if s.enabled && slope > 0.0 && Forecast(w, s.horizonSamples) >= base.throttlePercent
                then slope * s.horizonSamples as real else 0.0;
    var room := base.throttlePercent - base.recoverPercent - 1.0;
    Clamp(Max(bias, 0.0) + rise, 0.0, Max(0.0, Min(s.maxAdjustPercent, room)))
  }

  function Adjusted(s: Settings, w: seq<real>, base: Config, bias: real): Config {
    var off := Offset(s, w, base, bias);
    base.(throttlePercent := base.throttlePercent - off, escalatePercent := base.escalatePercent - off)
  }

  /** c is `base` with both upper thresholds lowered by the same amount, within the room above recovery. */
  predicate Lowered(base: Config, c: Config) {
    var off := base.throttlePercent - c.throttlePercent;
    c == base.(throttlePercent := base.throttlePercent - off, escalatePercent := base.escalatePercent - off) &&
    0.0 <= off <= Max(0.0, base.throttlePercent - base.recoverPercent - 1.0)
  }

  lemma AdjustedIsLowered(s: Settings, w: seq<real>, base: Config, bias: real)
    ensures Lowered(base, Adjusted(s, w, base, bias))
    ensures base.throttlePercent - Adjusted(s, w, base, bias).throttlePercent <= Max(0.0, s.maxAdjustPercent)
  {
    hide Fitted, Forecast;
  }

  /**
   Without a rise that is forecast to cross the throttle threshold, the thresholds stay as configured
   exactly if the controller reports no bias or there is no room below them.
   */
  lemma FlatLoadKeepsThresholds(s: Settings, w: seq<real>, base: Config, bias: real)
    requires !s.enabled || Fitted(w).slope <= 0.0 || Forecast(w, s.horizonSamples) < base.throttlePercent
    ensures Adjusted(s, w, base, bias) == base <==>
            bias <= 0.0 || Min(s.maxAdjustPercent, base.throttlePercent - base.recoverPercent - 1.0) <= 0.0
  {
    hide Fitted, Forecast;
  }

  /** No line has a smaller squared error over the window. */
  ghost predicate IsBest(w: seq<real>, best: Line) {
    forall other :: Error(w, best) <= Error(w, other)
  }

  lemma BestIsFitted(w: seq<real>, best: Line)
    requires |w| >= 3
    ensures IsBest(w, best) <==> best == Fitted(w)
  {
    hide Fitted, Error;
    FitIsOptimal(w, best);
    forall other ensures Error(w, Fitted(w)) <= Error(w, other) {
      FitIsOptimal(w, other);
    }
  }

  /**
   For every window: both thresholds are lowered by the controller's bias and, if the best line through
   at least three readings rises and reaches the throttle threshold `horizon` samples on, by what it rises
   until then; by nothing negative, and by no more than the cap and the room above recovery.
   */
  lemma LowersByBestLine(s: Settings, w: seq<real>, base: Config, bias: real, best: Line)
    requires |w| >= 3 ==> IsBest(w, best)
    ensures var c := Adjusted(s, w, base, bias);
      var ahead := best.intercept + best.slope * (|w| - 1 + s.horizonSamples) as real;
      var rises := s.enabled && |w| >= 3 && best.slope > 0.0 && ahead >= base.throttlePercent;
      var wanted := (if bias > 0.0 then bias else 0.0) + if rises then best.slope * s.horizonSamples as real else 0.0;
      var room := base.throttlePercent - base.recoverPercent - 1.0;
      var cap := if s.maxAdjustPercent < room then s.maxAdjustPercent else room;
      var off := if wanted <= 0.0 || cap <= 0.0 then 0.0 else if wanted > cap then cap else wanted;
      c == base.(throttlePercent := base.throttlePercent - off, escalatePercent := base.escalatePercent - off)
  {
    hide Error, Fitted, IsBest, Forecast, Offset;
    if |w| >= 3 { BestIsFitted(w, best); }
    ForecastExtends(w, s.horizonSamples);
    ClampedOffset(s, w, base, bias, Fitted(w).slope * s.horizonSamples as real, Forecast(w, s.horizonSamples));
  }

  lemma ForecastExtends(w: seq<real>, horizon: int)
    ensures if |w| < 3 then Fitted(w).slope == 0.0
      else Forecast(w, horizon) == Fitted(w).intercept + Fitted(w).slope * (|w| - 1 + horizon) as real
  {
    hide SumX, SumXX, SumY, SumXY;
    assert (|w| - 1 + horizon) as real == (|w| - 1) as real + horizon as real;
  }

  lemma ClampedOffset(s: Settings, w: seq<real>, base: Config, bias: real, rise: real, ahead: real)
    requires rise == Fitted(w).slope * s.horizonSamples as real && ahead == Forecast(w, s.horizonSamples)
    ensures var rises := s.enabled && Fitted(w).slope > 0.0 && ahead >= base.throttlePercent;
      var wanted := (if bias > 0.0 then bias else 0.0) + if rises then rise else 0.0;
      var room := base.throttlePercent - base.recoverPercent - 1.0;
      var cap := if s.maxAdjustPercent < room then s.maxAdjustPercent else room;
      Offset(s, w, base, bias) == if wanted <= 0.0 || cap <= 0.0 then 0.0 else if wanted > cap then cap else wanted
  {
    hide Fitted, Forecast;
  }

  /**
   A rising ramp that is forecast to reach the throttle threshold lowers it by its own rise over the
   horizon, within the cap.
   */
  lemma RampLowersByItsRise(s: Settings, w: seq<real>, base: Config, bias: real, ramp: Line)
    requires |w| >= 3 && IsRamp(w, ramp) && s.enabled && ramp.slope > 0.0 && s.horizonSamples >= 0
    ensures var cap := Max(0.0, Min(s.maxAdjustPercent, base.throttlePercent - base.recoverPercent - 1.0));
      var crosses := At(ramp, |w| - 1 + s.horizonSamples) >= base.throttlePercent;
      base.throttlePercent - Adjusted(s, w, base, bias).throttlePercent ==
      Min(cap, Max(bias, 0.0) + if crosses then ramp.slope * s.horizonSamples as real else 0.0)
  {
    hide Fitted, Forecast;
    RampIsRecovered(w, ramp, s.horizonSamples);
    RiseIsPositive(ramp.slope, s.horizonSamples as real);
  }

  lemma RiseIsPositive(slope: real, horizon: real)
    requires slope > 0.0 && horizon >= 0.0
    ensures slope * horizon >= 0.0
  {
  }

  /** The order of the thresholds survives: strictly above recovery, by 1 at least if the base band allows. */
  lemma LoweredKeepsBand(base: Config, c: Config)
    requires Banded(base) && Lowered(base, c)
    ensures Banded(c) && SameCounts(base, c) && c.recoverPercent == base.recoverPercent
    ensures c.escalatePercent - c.throttlePercent == base.escalatePercent - base.throttlePercent
    ensures base.throttlePercent - base.recoverPercent >= 1.0 ==> c.throttlePercent - c.recoverPercent >= 1.0
    ensures base.throttlePercent - base.recoverPercent < 1.0 ==> c == base
  {
  }

  // ------------------------------------------------- thresholds in effect

  function Limit(s: Settings): nat {
    if s.windowSamples > 1 then s.windowSamples else 1
  }

  /** The last n readings. */
  function LastOf(w: seq<real>, n: nat): seq<real> {
    if |w| > n then w[|w| - n..] else w
  }

  datatype Thresholds = Thresholds(base: Config, settings: Settings, window: seq<real>, effective: Config)

  /** A poll that measured a pressure, with the controller's bias; or a new configuration. */
  datatype Event = Poll(pressure: real, bias: real) | Reload(base: Config, settings: Settings, bias: real)

  function Magnitude(x: real): real { if x < 0.0 then -x else x }

  /** The adjustment as it would be now. */
  function Wanted(t: Thresholds, bias: real): Config {
    Adjusted(t.settings, t.window, t.base, bias)
  }

  /** A poll only moves the thresholds in effect by 0.5 or more; a reload always sets them. */
  function Advance(t: Thresholds, e: Event): Thresholds {
    match e
    case Poll(pressure, bias) =>
      var u := t.(window := LastOf(t.window + [pressure], Limit(t.settings)));
      if Magnitude(Wanted(u, bias).throttlePercent - t.effective.throttlePercent) >= 0.5
        then u.(effective := Wanted(u, bias)) else u
    case Reload(base, settings, bias) =>
      var u := t.(base := base, settings := settings, window := LastOf(t.window, Limit(settings)));
      u.(effective := Wanted(u, bias))
  }

  function After(start: Thresholds, events: seq<Event>): Thresholds {
    if events == [] then start else Advance(After(start, events[..|events| - 1]), events[|events| - 1])
  }

  ghost predicate BandedBases(events: seq<Event>) {
    forall i :: 0 <= i < |events| && events[i].Reload? ==> Banded(events[i].base)
  }

  predicate Sound(t: Thresholds) {
    Banded(t.base) && Lowered(t.base, t.effective)
  }

  lemma AdvanceIsSound(t: Thresholds, e: Event)
    requires Sound(t) && (e.Reload? ==> Banded(e.base))
    ensures Sound(Advance(t, e))
    ensures Magnitude(Wanted(Advance(t, e), e.bias).throttlePercent - Advance(t, e).effective.throttlePercent) < 0.5
  {
    hide Adjusted, Lowered;
    var u := Advance(t, e);
    AdjustedIsLowered(u.settings, u.window, u.base, e.bias);
  }

  /**
   Hysteresis through adaptation: for every base configuration, history of samples, bias and reload,
   the thresholds in effect keep their order and the escalate gap, stay strictly above recovery (by
   1 at least if the base band allows), and are within 0.5 of the freshly adjusted ones.
   */
  lemma {:induction false} EffectiveKeepsBand(start: Thresholds, events: seq<Event>)
    requires Sound(start) && BandedBases(events)
    ensures var t := After(start, events);
      Sound(t) && Banded(t.effective) && t.effective.recoverPercent == t.base.recoverPercent &&
      t.effective.escalatePercent - t.effective.throttlePercent == t.base.escalatePercent - t.base.throttlePercent &&
      (t.base.throttlePercent - t.base.recoverPercent >= 1.0 ==>
        t.effective.throttlePercent - t.effective.recoverPercent >= 1.0)
    ensures events != [] ==>
      var t, bias := After(start, events), events[|events| - 1].bias;
      -0.5 < Wanted(t, bias).throttlePercent - t.effective.throttlePercent < 0.5 &&
      -0.5 < Wanted(t, bias).escalatePercent - t.effective.escalatePercent < 0.5
  {
    hide Wanted, Advance, Lowered, Banded;
    if events != [] {
      var init, e := events[..|events| - 1], events[|events| - 1];
      EffectiveKeepsBand(start, init);
      AdvanceIsSound(After(start, init), e);
      var t := After(start, events);
      WantedKeepsGap(t, e.bias);
    }
    var t := After(start, events);
    LoweredKeepsBand(t.base, t.effective);
  }

  lemma WantedKeepsGap(t: Thresholds, bias: real)
    ensures Wanted(t, bias).escalatePercent - Wanted(t, bias).throttlePercent ==
      t.base.escalatePercent - t.base.throttlePercent
  {
    hide Offset;
  }

  /** Every configuration the machine is given was in effect at some point of the run. */
  ghost predicate FedFrom(start: Thresholds, events: seq<Event>, feed: seq<StateMachine.Event>) {
    forall i :: 0 <= i < |feed| && feed[i].Configure? ==> WasInEffect(start, events, feed[i].config)
  }

  ghost predicate WasInEffect(start: Thresholds, events: seq<Event>, c: Config) {
    exists k :: 0 <= k <= |events| && c == After(start, events[..k]).effective
  }

  lemma InEffectIsBanded(start: Thresholds, events: seq<Event>, c: Config)
    requires Sound(start) && BandedBases(events) && WasInEffect(start, events, c)
    ensures Banded(c)
  {
    var k :| 0 <= k <= |events| && c == After(start, events[..k]).effective;
    EffectiveKeepsBand(start, events[..k]);
  }

  /**
   However the thresholds move, no machine ever has a high and a low streak at the same time: whenever
   it comes under management, whatever it measures, and however it is held, forced and released.
   */
  lemma StreaksStayExclusive(start: Thresholds, events: seq<Event>, first: Config, feed: seq<StateMachine.Event>)
    requires Sound(start) && BandedBases(events)
    requires WasInEffect(start, events, first) && FedFrom(start, events, feed)
    ensures Exclusive(StateMachine.Exec(first, feed).control.counters)
  {
    InEffectIsBanded(start, events, first);
    forall i | 0 <= i < |feed| && feed[i].Configure? ensures Banded(feed[i].config) {
      InEffectIsBanded(start, events, feed[i].config);
    }
    StreaksAreExclusive(first, feed);
  }

  /** The pressures measured by the polls, oldest first. */
  function Readings(events: seq<Event>): seq<real> {
    if events == [] then []
    else
      var e := events[|events| - 1];
      Readings(events[..|events| - 1]) + if e.Poll? then [e.pressure] else []
  }

  ghost predicate FixedWindow(start: Thresholds, events: seq<Event>) {
    forall i :: 0 <= i < |events| && events[i].Reload? ==>
      events[i].settings.windowSamples == start.settings.windowSamples
  }

  ghost predicate EndsWith(all: seq<real>, w: seq<real>) {
    |w| <= |all| && all[|all| - |w|..] == w
  }

  lemma AdvancesWindow(t: Thresholds, e: Event)
    ensures var u := Advance(t, e);
      match e
      case Poll(pressure, _) =>
        u.settings == t.settings && u.window == LastOf(t.window + [pressure], Limit(t.settings))
      case Reload(_, settings, _) => u.settings == settings && u.window == LastOf(t.window, Limit(settings))
  {
    hide Adjusted;
  }

  lemma NewestOfMore(all: seq<real>, w: seq<real>, x: real, n: nat)
    requires EndsWith(all, w)
    ensures EndsWith(all + [x], LastOf(w + [x], n))
    ensures |LastOf(w + [x], n)| == if |w| + 1 > n then n else |w| + 1
  {
    assert (all + [x])[|all| - |w|..] == w + [x];
    var r := LastOf(w + [x], n);
    assert (all + [x])[|all| + 1 - |r|..] == (w + [x])[|w| + 1 - |r|..];
  }

  lemma NewestOfFewer(all: seq<real>, w: seq<real>, n: nat)
    requires EndsWith(all, w)
    ensures EndsWith(all, LastOf(w, n)) && |LastOf(w, n)| == if |w| > n then n else |w|
  {
    var r := LastOf(w, n);
    assert all[|all| - |r|..] == all[|all| - |w|..][|w| - |r|..];
  }

  /** The window is the newest readings, at most its size but at least one; and all that fit if the size is fixed. */
  ghost predicate HoldsNewest(all: seq<real>, t: Thresholds, fixed: bool) {
    var n := t.settings.windowSamples;
    EndsWith(all, t.window) && (|t.window| <= n || |t.window| <= 1) &&
    (fixed ==> |t.window| == |all| || (|t.window| == n < |all|) || (n < 1 && |t.window| == 1 < |all|))
  }

  lemma NothingIsHeld(t: Thresholds)
    ensures t.window == [] ==> HoldsNewest([], t, true)
  {
  }

  lemma LessIsHeld(all: seq<real>, t: Thresholds, fixed: bool, less: bool)
    requires HoldsNewest(all, t, fixed) && (less ==> fixed)
    ensures HoldsNewest(all, t, less)
  {
  }

  lemma PollHoldsNewest(all: seq<real>, t: Thresholds, u: Thresholds, x: real, fixed: bool)
    requires HoldsNewest(all, t, fixed) && u.settings == t.settings &&
      u.window == LastOf(t.window + [x], Limit(t.settings))
    ensures HoldsNewest(all + [x], u, fixed)
  {
    hide LastOf, EndsWith;
    NewestOfMore(all, t.window, x, Limit(t.settings));
  }

  lemma ReloadHoldsNewest(all: seq<real>, t: Thresholds, u: Thresholds, fixed: bool)
    requires HoldsNewest(all, t, fixed) && u.window == LastOf(t.window, Limit(u.settings))
    ensures HoldsNewest(all, u, fixed && u.settings.windowSamples == t.settings.windowSamples)
  {
    hide LastOf, EndsWith;
    NewestOfFewer(all, t.window, Limit(u.settings));
  }

  /**
   The window holds the newest readings in order and never more than its size, at least one; while
   its size does not change it holds as many as there are.
   */
  lemma {:induction false} WindowIsNewest(start: Thresholds, events: seq<Event>)
    requires start.window == []
    ensures HoldsNewest(Readings(events), After(start, events), FixedWindow(start, events))
    ensures FixedWindow(start, events) ==>
      After(start, events).settings.windowSamples == start.settings.windowSamples
  {
    if events != [] {
      hide Advance, LastOf, HoldsNewest;
      var init, e := events[..|events| - 1], events[|events| - 1];
      WindowIsNewest(start, init);
      AdvancesWindow(After(start, init), e);
      assert FixedWindow(start, events) ==> FixedWindow(start, init);
      var t := After(start, init);
      if e.Poll? {
        PollHoldsNewest(Readings(init), t, Advance(t, e), e.pressure, FixedWindow(start, init));
      } else {
        ReloadHoldsNewest(Readings(init), t, Advance(t, e), FixedWindow(start, init));
        assert Readings(init) + [] == Readings(init);
      }
      LessIsHeld(Readings(events), Advance(t, e), FixedWindow(start, init) &&
                 Advance(t, e).settings.windowSamples == t.settings.windowSamples, FixedWindow(start, events));
    } else {
      NothingIsHeld(start);
    }
  }

  /** A poll puts the adjusted thresholds into effect exactly if they are 0.5 or more away, a reload always. */
  lemma MovesByHalf(t: Thresholds, pressure: real, bias: real)
    ensures var before, now := t.effective, Advance(t, Poll(pressure, bias)).effective;
      var wanted := Wanted(Advance(t, Poll(pressure, bias)), bias);
      now == if -0.5 < wanted.throttlePercent - before.throttlePercent < 0.5 then before else wanted
    ensures forall base, settings ::
      var after := Advance(t, Reload(base, settings, bias)); after.effective == Wanted(after, bias)
  {
    hide Adjusted;
  }

  // ------------------------------------------------------------- the code

  lemma LastOfMore(w: seq<real>, n: nat)
    requires |w| > n
    ensures LastOf(w[1..], n) == LastOf(w, n)
  {
  }

  class AdaptiveThresholds {
    var settings: Settings
    var window: seq<real>

    constructor (settings: Settings)
      ensures this.settings == settings && window == []
    {
      this.settings, window := settings, [];
    }

    method SetSettings(s: Settings)
      modifies this
      ensures settings == s && window == LastOf(old(window), Limit(s))
    {
      settings := s;
      while |window| > Limit(settings)
        invariant settings == s && LastOf(window, Limit(s)) == LastOf(old(window), Limit(s))
        decreases |window|
      {
        LastOfMore(window, Limit(s));
        window := window[1..];
      }
    }

    method AddSample(pressure: real)
      modifies this`window
      ensures window == LastOf(old(window) + [pressure], Limit(settings))
    {
      window := window + [pressure];
      while |window| > Limit(settings)
        invariant LastOf(window, Limit(settings)) == LastOf(old(window) + [pressure], Limit(settings))
        decreases |window|
      {
        LastOfMore(window, Limit(settings));
        window := window[1..];
      }
    }

    method Fit() returns (l: Line)
      ensures l == Fitted(window)
    {
      hide SumX, SumXX, SumY, SumXY;
      l := Line(0.0, if window == [] then 0.0 else window[|window| - 1]);
      var n := |window|;
      if n < 3 { return; }
      var sx, sy, sxx, sxy := Sums();
      var denom := n as real * sxx - sx * sx;
      if denom == 0.0 { return; }
      var slope := (n as real * sxy - sx * sy) / denom;
      l := Line(slope, (sy - slope * sx) / n as real);
    }

    method Sums() returns (sx: real, sy: real, sxx: real, sxy: real)
      ensures sx == SumX(|window|) && sy == SumY(window) && sxx == SumXX(|window|) && sxy == SumXY(window)
    {
      sx, sy, sxx, sxy := 0.0, 0.0, 0.0, 0.0;
      for i := 0 to |window|
        invariant sx == SumX(i) && sy == SumY(window[..i]) && sxx == SumXX(i) && sxy == SumXY(window[..i])
      {
        var x := i as real;
        assert window[..i + 1][..i] == window[..i];
        sx, sy, sxx, sxy := sx + x, sy + window[i], sxx + x * x, sxy + x * window[i];
      }
      assert window[..|window|] == window;
    }

    method GetForecast() returns (f: real)
      ensures f == Forecast(window, settings.horizonSamples)
    {
      var l := Fit();
      hide Fitted;
      if |window| < 3 { return l.intercept; }
      f := l.intercept + l.slope * ((|window| - 1) as real + settings.horizonSamples as real);
    }

    method GetOffset(base: Config, bias: real) returns (off: real)
      ensures off == Offset(settings, window, base, bias)
    {
      hide Fitted, Forecast;
      off := Max(bias, 0.0);
      var l := Fit();
      var forecast := GetForecast();
      if settings.enabled && l.slope > 0.0 && forecast >= base.throttlePercent {
        off := off + l.slope * settings.horizonSamples as real;
      }
      var room := base.throttlePercent - base.recoverPercent - 1.0;
      off := Clamp(off, 0.0, Max(0.0, Min(settings.maxAdjustPercent, room)));
    }

    method Adjust(base: Config, bias: real) returns (out: Config)
      ensures out == Adjusted(settings, window, base, bias)
    {
      hide Offset;
      var off := GetOffset(base, bias);
      out := base.(throttlePercent := base.throttlePercent - off, escalatePercent := base.escalatePercent - off);
    }
  }

  /** The daemon's base and effective thresholds, and the predictor it feeds. */
  class EffectiveThresholds {
    const adaptive: AdaptiveThresholds
    var base: Config
    var effective: Config

    function Abs(): Thresholds
      reads this, adaptive
    {
      Thresholds(base, adaptive.settings, adaptive.window, effective)
    }

    constructor (base: Config, settings: Settings)
      ensures fresh(adaptive) && Abs() == Thresholds(base, settings, [], base)
    {
      this.base, effective := base, base;
      adaptive := new AdaptiveThresholds(settings);
    }

    method ApplyConfig(base: Config, settings: Settings, bias: real)
      modifies this, adaptive
      ensures Abs() == Advance(old(Abs()), Reload(base, settings, bias))
    {
      hide Adjusted;
      this.base := base;
      adaptive.SetSettings(settings);
      effective := adaptive.Adjust(base, bias);
    }

    method PollThresholds(pressure: real, bias: real) returns (moved: bool)
      modifies this`effective, adaptive`window
      ensures Abs() == Advance(old(Abs()), Poll(pressure, bias))
      ensures moved <==> effective != old(effective)
    {
      hide Adjusted;
      adaptive.AddSample(pressure);
      var eff := adaptive.Adjust(base, bias);
      var distance := eff.throttlePercent - effective.throttlePercent;
      moved := distance >= 0.5 || -distance >= 0.5;
      if moved { effective := eff; }
    }
  }
}
