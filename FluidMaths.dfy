/** Smoothing kernels and pressure helpers of the SPH solver, stated over the
    reals. Every kernel cuts off to exactly zero at the support radius. */
module FluidMaths {
  import opened Vectors

  /** math.pi, the double nearest to pi, written out as a decimal. */
  const Pi: real := 3.141592653589793

  function Max(a: real, b: real): real {
    if a >= b then a else b
  }

  /** x ** n for a natural exponent n. */
  function Pow(x: real, n: nat): (p: real)
    ensures x > 0.0 ==> p > 0.0
    ensures x >= 0.0 ==> p >= 0.0
    ensures x != 0.0 ==> p != 0.0
  {
    if n == 0 then 1.0
    else
      var rest := Pow(x, n - 1);
      ProductSign(x, rest);
      NonZeroProduct(x, rest);
      x * rest
  }

  /** The density kernel: (radius - dst)^2 over the 2D volume 2*pi*radius^3/3. */
  function SpikyFunctionPow2(radius: real, dst: real): (w: real)
    requires dst >= radius || radius != 0.0
    ensures dst >= radius ==> w == 0.0
    ensures radius > 0.0 && dst < radius ==> w > 0.0
  {
    if dst >= radius then 0.0
    else
      var volume := 2.0 * Pi * Pow(radius, 3) / 3.0;
      var value := Pow(Max(0.0, radius - dst), 2);
      ReciprocalSign(volume);
      ProductSign(value, 1.0 / volume);
      value * (1.0 / volume)
  }

  /** (radius - dst)^3 over the volume pi*radius^4/2. */
  function SpikyFunctionPow3(radius: real, dst: real): (w: real)
    requires dst >= radius || radius != 0.0
    ensures dst >= radius ==> w == 0.0
    ensures radius > 0.0 && dst < radius ==> w > 0.0
  {
    if dst >= radius then 0.0
    else
      var volume := Pi * Pow(radius, 4) / 2.0;
      var value := Pow(Max(0.0, radius - dst), 3);
      ReciprocalSign(volume);
      ProductSign(value, 1.0 / volume);
      value * (1.0 / volume)
  }

  /** The viscosity kernel: (radius^2 - dst^2)^3 over 16/35 * radius^7. */
  function SmoothFunctionPow3(radius: real, dst: real): (w: real)
    requires dst >= radius || radius != 0.0
    ensures dst >= radius ==> w == 0.0
    ensures radius > 0.0 ==> w >= 0.0
    ensures radius > 0.0 && -radius < dst < radius ==> w > 0.0
  {
    if dst >= radius then 0.0
    else
      var value := Pow(Max(0.0, Pow(radius, 2) - Pow(dst, 2)), 3);
      var volume := 16.0 / 35.0 * Pow(radius, 7);
      SmoothPositiveInside(radius, dst);
      ReciprocalSign(volume);
      ProductSign(value, 1.0 / volume);
      value * (1.0 / volume)
  }

  /** The slope of SpikyFunctionPow2: -(radius - dst) * 3 / (pi * radius^3). */
  function SpikyFunctionPow2Derivative(radius: real, dst: real): (s: real)
    requires dst >= radius || radius != 0.0
    ensures dst >= radius ==> s == 0.0
    ensures radius > 0.0 && dst < radius ==> s < 0.0
  {
    if dst >= radius then 0.0
    else
      var value := radius - dst;
      var scale := 3.0 / (Pi * Pow(radius, 3));
      ReciprocalSign(Pi * Pow(radius, 3));
      ProductSign(-value, scale);
      -value * scale
  }

  /** The slope of SpikyFunctionPow3: -(radius - dst)^2 * 6 / (pi * radius^4). */
  function SpikyFunctionPow3Derivative(radius: real, dst: real): (s: real)
    requires dst >= radius || radius != 0.0
    ensures dst >= radius ==> s == 0.0
    ensures radius > 0.0 && dst < radius ==> s < 0.0
  {
    if dst >= radius then 0.0
    else
      var value := Pow(radius - dst, 2);
      var scale := 6.0 / (Pi * Pow(radius, 4));
      ReciprocalSign(Pi * Pow(radius, 4));
      ProductSign(-value, scale);
      -value * scale
  }

  /** Pressure is proportional to how far the density is from the target. */
  function PressureFromDensity(density: real, targetDensity: real, pressureMultiplier: real): (p: real)
    ensures density == targetDensity ==> p == 0.0
    ensures pressureMultiplier > 0.0 ==> (p < 0.0 <==> density < targetDensity)
    ensures pressureMultiplier > 0.0 ==> (p > 0.0 <==> density > targetDensity)
  {
    var densityError := density - targetDensity;
    SignOfProduct(densityError, pressureMultiplier);
    densityError * pressureMultiplier
  }

  /** The pressure shared by two particles: the mean of their pressures, so
      both feel the same magnitude. */
  function CalcualteSharedPressure(densityA: real, densityB: real, targetDensity: real, pressureMultiplier: real): (p: real)
    ensures var pa, pb := PressureFromDensity(densityA, targetDensity, pressureMultiplier), PressureFromDensity(densityB, targetDensity, pressureMultiplier);
      (pa <= p <= pb) || (pb <= p <= pa)
  {
    var pressureA := PressureFromDensity(densityA, targetDensity, pressureMultiplier);
    var pressureB := PressureFromDensity(densityB, targetDensity, pressureMultiplier);
    (pressureA + pressureB) / 2.0
  }

  // ---------------------------------------------------------------------------
  // Properties of the kernels

  /** Inside the radius the density kernel strictly decreases with distance. */
  lemma SpikyPow2Decreasing(radius: real, d1: real, d2: real)
    requires radius > 0.0 && d1 < d2 < radius
    ensures SpikyFunctionPow2(radius, d1) > SpikyFunctionPow2(radius, d2)
  {
    var inv := 1.0 / (2.0 * Pi * Pow(radius, 3) / 3.0);
    ReciprocalSign(2.0 * Pi * Pow(radius, 3) / 3.0);
    var a, b := Max(0.0, radius - d1), Max(0.0, radius - d2);
    SpikyValue(radius, d1);
    SpikyValue(radius, d2);
    PowStrictMonotone(b, a, 2);
    ScaleStrictMonotone(Pow(b, 2), Pow(a, 2), inv);
  }

  lemma SpikyValue(radius: real, dst: real)
    requires radius > 0.0 && dst < radius
    ensures SpikyFunctionPow2(radius, dst) == Pow(Max(0.0, radius - dst), 2) * (1.0 / (2.0 * Pi * Pow(radius, 3) / 3.0))
  {
  }

  /** Inside the radius the viscosity kernel strictly decreases with the
      distance from the particle. */
  lemma SmoothPow3Decreasing(radius: real, d1: real, d2: real)
    requires radius > 0.0 && 0.0 <= d1 < d2 < radius
    ensures SmoothFunctionPow3(radius, d1) > SmoothFunctionPow3(radius, d2)
  {
    var inv := 1.0 / (16.0 / 35.0 * Pow(radius, 7));
    ReciprocalSign(16.0 / 35.0 * Pow(radius, 7));
    SmoothValue(radius, d1);
    SmoothValue(radius, d2);
    SmoothNumeratorDecreasing(radius, d1, d2);
    StrictlyOrderedByCommonFactor(SmoothFunctionPow3(radius, d2), SmoothFunctionPow3(radius, d1),
      Pow(Max(0.0, Pow(radius, 2) - Pow(d2, 2)), 3), Pow(Max(0.0, Pow(radius, 2) - Pow(d1, 2)), 3), inv);
  }

  lemma StrictlyOrderedByCommonFactor(x: real, y: real, a: real, b: real, k: real)
    requires x == a * k && y == b * k && a < b && k > 0.0
    ensures x < y
  {
    ScaleStrictMonotone(a, b, k);
  }

  lemma SmoothNumeratorDecreasing(radius: real, d1: real, d2: real)
    requires radius > 0.0 && 0.0 <= d1 < d2 < radius
    ensures Pow(Max(0.0, Pow(radius, 2) - Pow(d2, 2)), 3) < Pow(Max(0.0, Pow(radius, 2) - Pow(d1, 2)), 3)
  {
    var a, b := Pow(radius, 2) - Pow(d1, 2), Pow(radius, 2) - Pow(d2, 2);
    PowStrictMonotone(d1, d2, 2);
    SmoothPositiveInside(radius, d2);
    assert 0.0 < b < a;
    assert Max(0.0, a) == a && Max(0.0, b) == b;
    PowStrictMonotone(b, a, 3);
  }

  /** The viscosity kernel is largest at distance zero. */
  lemma SmoothPow3PeakAtZero(radius: real, dst: real)
    requires radius > 0.0
    ensures SmoothFunctionPow3(radius, dst) <= SmoothFunctionPow3(radius, 0.0)
  {
    if dst < radius {
      var inv := 1.0 / (16.0 / 35.0 * Pow(radius, 7));
      SmoothValue(radius, dst);
      SmoothValue(radius, 0.0);
      SmoothNumeratorPeak(radius, dst);
      ReciprocalSign(16.0 / 35.0 * Pow(radius, 7));
      OrderedByCommonFactor(SmoothFunctionPow3(radius, dst), SmoothFunctionPow3(radius, 0.0),
        Pow(Max(0.0, Pow(radius, 2) - Pow(dst, 2)), 3), Pow(Max(0.0, Pow(radius, 2) - Pow(0.0, 2)), 3), inv);
    }
  }

  lemma OrderedByCommonFactor(x: real, y: real, a: real, b: real, k: real)
    requires x == a * k && y == b * k && a <= b && k > 0.0
    ensures x <= y
  {
    ScaleMonotone(a, b, k);
  }

  lemma SmoothNumeratorPeak(radius: real, dst: real)
    ensures Pow(Max(0.0, Pow(radius, 2) - Pow(dst, 2)), 3) <= Pow(Max(0.0, Pow(radius, 2) - Pow(0.0, 2)), 3)
  {
    var r2 := Pow(radius, 2);
    ZeroPow(2);
    SquareNonNegative(dst);
    SquareNonNegative(radius);
    PowMonotone(Max(0.0, r2 - Pow(dst, 2)), Max(0.0, r2 - Pow(0.0, 2)), 3);
  }

  lemma SmoothValue(radius: real, dst: real)
    requires radius > 0.0 && dst < radius
    ensures SmoothFunctionPow3(radius, dst)
         == Pow(Max(0.0, Pow(radius, 2) - Pow(dst, 2)), 3) * (1.0 / (16.0 / 35.0 * Pow(radius, 7)))
  {
  }

  /** The slope of the density kernel is exact: on any interval inside the
      radius the kernel changes by the interval times the mean of the slopes
      at its ends (the trapezoid rule is exact for a quadratic). */
  lemma SpikyPow2DerivativeIsSlope(radius: real, d1: real, d2: real)
    requires radius > 0.0 && d1 <= d2 < radius
    ensures SpikyFunctionPow2(radius, d2) - SpikyFunctionPow2(radius, d1)
         == (d2 - d1) * (SpikyFunctionPow2Derivative(radius, d1) + SpikyFunctionPow2Derivative(radius, d2)) / 2.0
  {
    var c := Pow(radius, 3);
    var a, b := radius - d1, radius - d2;
    SquareIsPow(a);
    SquareIsPow(b);
    var volume := 2.0 * Pi * c / 3.0;
    var k := 3.0 / (Pi * c);
    assert 1.0 / volume == k / 2.0;
    assert SpikyFunctionPow2(radius, d2) - SpikyFunctionPow2(radius, d1) == (b * b - a * a) * (k / 2.0);
    assert SpikyFunctionPow2Derivative(radius, d1) + SpikyFunctionPow2Derivative(radius, d2) == -(a + b) * k;
    assert b * b - a * a == (b - a) * (b + a);
  }

  /** The shared pressure does not depend on which particle of the pair acts. */
  lemma SharedPressureSymmetric(densityA: real, densityB: real, targetDensity: real, pressureMultiplier: real)
    ensures CalcualteSharedPressure(densityA, densityB, targetDensity, pressureMultiplier)
         == CalcualteSharedPressure(densityB, densityA, targetDensity, pressureMultiplier)
  {
  }

  /** Two particles of equal density share exactly their own pressure. */
  lemma SharedPressureOfEqualDensities(density: real, targetDensity: real, pressureMultiplier: real)
    ensures CalcualteSharedPressure(density, density, targetDensity, pressureMultiplier)
         == PressureFromDensity(density, targetDensity, pressureMultiplier)
  {
  }

  // ---------------------------------------------------------------------------
  // Arithmetic helpers (the solver needs the sign of each product spelled out)

  lemma ProductSign(x: real, y: real)
    ensures x > 0.0 && y > 0.0 ==> x * y > 0.0
    ensures x >= 0.0 && y >= 0.0 ==> x * y >= 0.0
    ensures x < 0.0 && y > 0.0 ==> x * y < 0.0
  {
    if x >= 0.0 && y >= 0.0 {
      NonNegativeProduct(x, y);
    }
    if x > 0.0 && y > 0.0 {
      PositiveProduct(x, y);
    } else if x < 0.0 && y > 0.0 {
      PositiveProduct(-x, y);
      assert (-x) * y == -(x * y);
    }
  }

  lemma SquareIsPow(x: real)
    ensures Pow(x, 2) == x * x
  {
    assert Pow(x, 1) == x;
  }

  /** Raising to a power keeps the order of non-negative bases. */
  lemma {:induction false} PowMonotone(a: real, b: real, n: nat)
    requires 0.0 <= a <= b
    ensures 0.0 <= Pow(a, n) <= Pow(b, n)
  {
    if n > 0 {
      PowMonotone(a, b, n - 1);
      MulMonotone(a, b, Pow(a, n - 1), Pow(b, n - 1));
    }
  }

  /** ... and keeps it strictly for a positive exponent. */
  lemma {:induction false} PowStrictMonotone(a: real, b: real, n: nat)
    requires 0.0 <= a < b && n >= 1
    ensures Pow(a, n) < Pow(b, n)
  {
    if n == 1 {
      assert Pow(a, 1) == a && Pow(b, 1) == b;
    } else {
      PowStrictMonotone(a, b, n - 1);
      PowMonotone(a, b, n - 1);
      MulStrictMonotone(a, b, Pow(a, n - 1), Pow(b, n - 1));
    }
  }

  lemma MulMonotone(a: real, b: real, c: real, d: real)
    requires 0.0 <= a <= b && 0.0 <= c <= d
    ensures a * c <= b * d
  {
    NonNegativeProduct(b - a, c);
    NonNegativeProduct(b, d - c);
    assert b * d - a * c == (b - a) * c + b * (d - c);
  }

  lemma MulStrictMonotone(a: real, b: real, c: real, d: real)
    requires 0.0 <= a < b && 0.0 <= c < d
    ensures a * c < b * d
  {
    NonNegativeProduct(b - a, c);
    PositiveProduct(b, d - c);
    assert b * d - a * c == (b - a) * c + b * (d - c);
  }

  lemma NonNegativeProduct(x: real, y: real)
    requires x >= 0.0 && y >= 0.0
    ensures x * y >= 0.0
  {
    if x > 0.0 && y > 0.0 {
      PositiveProduct(x, y);
    }
  }

  lemma ScaleStrictMonotone(a: real, b: real, k: real)
    requires a < b && k > 0.0
    ensures a * k < b * k
  {
    PositiveProduct(b - a, k);
    assert b * k - a * k == (b - a) * k;
  }

  lemma ReciprocalSign(v: real)
    ensures v > 0.0 ==> 1.0 / v > 0.0
  {
  }

  lemma NonZeroProduct(x: real, y: real)
    ensures x != 0.0 && y != 0.0 ==> x * y != 0.0
  {
    if x != 0.0 && y != 0.0 {
      assert (x * y) / y == x;
    }
  }

  lemma SignOfProduct(x: real, m: real)
    ensures m > 0.0 ==> (x * m < 0.0 <==> x < 0.0)
    ensures m > 0.0 ==> (x * m > 0.0 <==> x > 0.0)
  {
  }

  lemma SmoothPositiveInside(radius: real, dst: real)
    ensures radius > 0.0 && -radius < dst < radius ==> Pow(radius, 2) - Pow(dst, 2) > 0.0
  {
    if radius > 0.0 && -radius < dst < radius {
      SquareOfNegation(dst);
      if dst >= 0.0 {
        PowStrictMonotone(dst, radius, 2);
      } else {
        PowStrictMonotone(-dst, radius, 2);
      }
    }
  }

  lemma SquareOfNegation(x: real)
    ensures Pow(-x, 2) == Pow(x, 2)
  {
    SquareIsPow(x);
    SquareIsPow(-x);
  }

  lemma SquareNonNegative(x: real)
    ensures Pow(x, 2) >= 0.0
  {
    SquareOfNegation(x);
    if x < 0.0 {
      assert Pow(-x, 2) >= 0.0;
    }
  }

  lemma ZeroPow(n: nat)
    requires n >= 1
    ensures Pow(0.0, n) == 0.0
  {
  }

  lemma ScaleMonotone(a: real, b: real, k: real)
    requires a <= b && k > 0.0
    ensures a * k <= b * k
  {
  }
}
