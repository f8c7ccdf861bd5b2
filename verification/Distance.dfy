/** The distance protection (`LNs/PDIS.c`): the apparent impedance of a loop is compared with a
    circle through the origin (the mho characteristic).

    Phasors are complex reals. Square root, the direction of the line and the angle of an
    impedance are given by functions constrained by the facts used of them. */
module Distance {

  datatype Complex = Complex(re: real, im: real) {
    function Add(b: Complex): Complex { Complex(re + b.re, im + b.im) }
    function Sub(b: Complex): Complex { Complex(re - b.re, im - b.im) }
    function Scale(k: real): Complex { Complex(k * re, k * im) }
    function Mul(b: Complex): Complex { Complex(re * b.re - im * b.im, re * b.im + im * b.re) }
    function Norm2(): real { re * re + im * im }
    function Dot(b: Complex): real { re * b.re + im * b.im }
  }

  /** c_div; the source divides by zero to NaN when b is zero. */
  function Div(a: Complex, b: Complex): Complex
    requires b.Norm2() != 0.0
  {
    var d := b.re * b.re + b.im * b.im;
    Complex((a.re * b.re + a.im * b.im) / d, (a.im * b.re - a.re * b.im) / d)
  }

  lemma PositiveProduct(a: real, b: real)
    requires a > 0.0 && b > 0.0
    ensures a * b > 0.0
  {
  }

  lemma Square(x: real)
    ensures x * x >= 0.0
    ensures x != 0.0 ==> x * x > 0.0
  {
    if x > 0.0 {
      PositiveProduct(x, x);
    } else if x < 0.0 {
      PositiveProduct(-x, -x);
      assert (-x) * (-x) == x * x;
    }
  }

  lemma Norm2IsPositive(z: Complex)
    ensures z.Norm2() >= 0.0
  {
    Square(z.re);
    Square(z.im);
  }

  /** The norm is multiplicative. */
  lemma NormOfProduct(a: Complex, b: Complex)
    ensures a.Mul(b).Norm2() == a.Norm2() * b.Norm2()
  {
    var p, q, r, s := a.re * b.re, a.im * b.im, a.re * b.im, a.im * b.re;
    assert a.Mul(b).Norm2() == (p - q) * (p - q) + (r + s) * (r + s);
    assert p * q == r * s;
    assert (p - q) * (p - q) + (r + s) * (r + s) == p * p + q * q + r * r + s * s;
  }

  /** c_div undoes the product. */
  lemma DivMul(a: Complex, b: Complex)
    requires b.Norm2() != 0.0
    ensures Div(a, b).Mul(b) == a
  {
    var d := b.Norm2();
    var n, m := a.re * b.re + a.im * b.im, a.im * b.re - a.re * b.im;
    assert Div(a, b) == Complex(n / d, m / d);
    Collect(n, b.re, m, b.im, d);
    Collect(n, b.im, m, -b.re, d);
    assert n * b.re - m * b.im == a.re * d;
    assert n * b.im - m * (-b.re) == a.im * d;
  }

  lemma Collect(n: real, x: real, m: real, y: real, d: real)
    requires d != 0.0
    ensures (n / d) * x - (m / d) * y == (n * x - m * y) / d
  {
  }

  lemma MulDiv(z: Complex, b: Complex)
    requires b.Norm2() != 0.0
    ensures Div(z.Mul(b), b) == z
  {
    var a := z.Mul(b);
    assert a.re * b.re + a.im * b.im == z.re * b.Norm2();
    assert a.im * b.re - a.re * b.im == z.im * b.Norm2();
    assert (z.re * b.Norm2()) / b.Norm2() == z.re && (z.im * b.Norm2()) / b.Norm2() == z.im;
  }

  // ---- The directional check ----

  function Abs(x: real): real { if x < 0.0 then -x else x }

  /** An angle brought between -180 and 180 degrees by whole turns. */
  function Normalised(diff: real): (r: real)
    ensures -180.0 <= r <= 180.0
    decreases Abs(diff).Floor
  {
    if diff > 180.0 then Normalised(diff - 360.0)
    else if diff < -180.0 then Normalised(diff + 360.0)
    else diff
  }

  /** The number of turns taken off. */
  ghost function Turns(diff: real): (k: int)
    decreases Abs(diff).Floor
  {
    if diff > 180.0 then Turns(diff - 360.0) + 1
    else if diff < -180.0 then Turns(diff + 360.0) - 1
    else 0
  }

  lemma {:induction false} NormalisedIsCongruent(diff: real)
    ensures Normalised(diff) == diff - 360.0 * Turns(diff) as real
    decreases Abs(diff).Floor
  {
    if diff > 180.0 {
      NormalisedIsCongruent(diff - 360.0);
    } else if diff < -180.0 {
      NormalisedIsCongruent(diff + 360.0);
    }
  }

  /** directional_check, given the angle of the impedance. */
  method DirectionalCheck(Z_ang: real, line_ang_deg: real) returns (forward: bool)
    ensures forward <==> Abs(Normalised(Z_ang - line_ang_deg)) <= 90.0
  {
    var diff := Z_ang - line_ang_deg;
    while diff > 180.0
      invariant Normalised(diff) == Normalised(Z_ang - line_ang_deg)
      decreases Abs(diff).Floor
    {
      diff := diff - 360.0;
    }
    while diff < -180.0
      invariant Normalised(diff) == Normalised(Z_ang - line_ang_deg)
      invariant diff <= 180.0
      decreases Abs(diff).Floor
    {
      diff := diff + 360.0;
    }
    forward := Abs(diff) <= 90.0;
  }

  // ---- The relay ----

  datatype DirMode = DirForward | DirReverse | DirNonDir

  predicate IsRoot(x: real, root: real) { root >= 0.0 && root * root == x }

  predicate IsUnit(u: Complex) { u.Norm2() == 1.0 }

  /** The library functions: square root, cosine and sine of an angle in degrees as one unit
      vector, and atan2 in degrees. */
  datatype Maths = Maths(sqrt: real -> real, unit: real -> Complex, arg: Complex -> real) {
    ghost predicate Valid() {
      && (forall x {:trigger IsRoot(x, sqrt(x))} :: x >= 0.0 ==> IsRoot(x, sqrt(x)))
      && (forall a {:trigger IsUnit(unit(a))} :: IsUnit(unit(a)))
      && (forall z: Complex, a :: z.Dot(unit(a)) > 0.0 ==> Abs(Normalised(arg(z) - a)) <= 90.0)
    }

    function Polar(mag: real, deg: real): Complex {
      Complex(mag * unit(deg).re, mag * unit(deg).im)
    }
  }

  datatype Pdis = Pdis(m: Maths, X1: real, LinAng: real, PhStr: real, GndStr: real, K0Fact: real, K0FactAng: real,
                       DirMod: DirMode) {
    /** PDIS_init keeps its defaults unless a setting is positive. */
    ghost predicate Valid() {
      m.Valid() && X1 > 0.0 && PhStr > 0.0 && GndStr > 0.0
    }

    /** The centre of the circle, half the reach along the line. */
    function Centre(): Complex {
      m.Polar(X1 / 2.0, LinAng)
    }

    predicate Forward(Z: Complex) {
      Abs(Normalised(m.arg(Z) - LinAng)) <= 90.0
    }

    predicate InCircle(Z: Complex) {
      m.sqrt(Z.Sub(Centre()).Norm2()) <= X1 / 2.0
    }

    /** The same circle without a root. */
    predicate InDisc(Z: Complex) {
      Z.Sub(Centre()).Norm2() <= Centre().Norm2()
    }

    /** The part both steps share; a zero current makes every comparison one with NaN. */
    predicate Operates(V: Complex, I: Complex) {
      I.Norm2() != 0.0 &&
      var Z := Div(V, I);
      && !(DirMod == DirForward && !Forward(Z))
      && !(DirMod == DirReverse && Forward(Z))
      && InCircle(Z)
    }

    predicate PhaseStep(V_mag: real, V_ang: real, I_mag: real, I_ang: real) {
      I_mag >= PhStr && Operates(m.Polar(V_mag, V_ang), m.Polar(I_mag, I_ang))
    }

    /** The phase current with the residual compensation added. */
    function Compensated(Ia: Complex, I0: Complex): Complex {
      var K0 := m.Polar(K0Fact, K0FactAng);
      Complex(Ia.re + 3.0 * (K0.re * I0.re - K0.im * I0.im), Ia.im + 3.0 * (K0.re * I0.im + K0.im * I0.re))
    }

    predicate GroundStep(Va_mag: real, Va_ang: real, Ia_mag: real, Ia_ang: real, I0_mag: real, I0_ang: real) {
      && Ia_mag >= GndStr
      && Operates(m.Polar(Va_mag, Va_ang), Compensated(m.Polar(Ia_mag, Ia_ang), m.Polar(I0_mag, I0_ang)))
    }
  }

  lemma SqrtTest(m: Maths, x: real, r: real)
    requires m.Valid() && x >= 0.0 && r >= 0.0
    ensures m.sqrt(x) <= r <==> x <= r * r
  {
    assert IsRoot(x, m.sqrt(x));
    SquareOrder(m.sqrt(x), r);
  }

  lemma SquareOrder(a: real, b: real)
    requires a >= 0.0 && b >= 0.0
    ensures a <= b <==> a * a <= b * b
  {
    if a > b {
      PositiveProduct(a - b, a + b);
      assert (a - b) * (a + b) == a * a - b * b;
    } else if a < b {
      PositiveProduct(b - a, b + a);
      assert (b - a) * (b + a) == b * b - a * a;
    }
  }

  lemma PolarNorm(m: Maths, mag: real, deg: real)
    requires m.Valid()
    ensures m.Polar(mag, deg).Norm2() == mag * mag
  {
    assert IsUnit(m.unit(deg));
    ScaleNorm(mag, m.unit(deg));
  }

  lemma MagnitudeTest(m: Maths, d: Complex, r: real, c: Complex)
    requires m.Valid() && r >= 0.0 && c.Norm2() == r * r
    ensures m.sqrt(d.Norm2()) <= r <==> d.Norm2() <= c.Norm2()
  {
    Norm2IsPositive(d);
    SqrtTest(m, d.Norm2(), r);
  }

  lemma CircleTest(p: Pdis, Z: Complex)
    requires p.Valid()
    ensures p.InCircle(Z) <==> p.InDisc(Z)
  {
    PolarNorm(p.m, p.X1 / 2.0, p.LinAng);
    MagnitudeTest(p.m, Z.Sub(p.Centre()), p.X1 / 2.0, p.Centre());
  }

  /** The test on the quotient is a test without division or root on voltage and current. */
  lemma CircleWithoutDivision(p: Pdis, V: Complex, I: Complex)
    requires p.Valid() && I.Norm2() != 0.0
    ensures p.InCircle(Div(V, I)) <==> V.Sub(p.Centre().Mul(I)).Norm2() <= p.Centre().Norm2() * I.Norm2()
  {
    var Z, c := Div(V, I), p.Centre();
    DivMul(V, I);
    CircleTest(p, Z);
    NormOfProduct(Z.Sub(c), I);
    assert Z.Sub(c).Mul(I) == Z.Mul(I).Sub(c.Mul(I)) by {
      Distribute(Z, c, I);
    }
    Norm2IsPositive(I);
    assert V.Sub(c.Mul(I)).Norm2() == Z.Sub(c).Norm2() * I.Norm2();
    ScaleOrder(Z.Sub(c).Norm2(), c.Norm2(), I.Norm2());
  }

  lemma Distribute(a: Complex, b: Complex, c: Complex)
    ensures a.Sub(b).Mul(c) == a.Mul(c).Sub(b.Mul(c))
  {
  }

  lemma ScaleOrder(a: real, b: real, k: real)
    requires k > 0.0
    ensures a <= b <==> a * k <= b * k
  {
  }

  lemma Expand(a: Complex, b: Complex)
    ensures a.Sub(b).Norm2() == a.Norm2() - 2.0 * a.Dot(b) + b.Norm2()
  {
  }

  lemma DotScale(z: Complex, k: real, u: Complex)
    ensures z.Dot(Complex(k * u.re, k * u.im)) == k * z.Dot(u)
  {
  }

  lemma Sign(n: real, x: real, d: real)
    requires 0.0 <= n <= x * d && x > 0.0
    ensures d >= 0.0
    ensures n > 0.0 ==> d > 0.0
  {
    ProductSign(x, d);
  }

  lemma ProductSign(x: real, d: real)
    requires x > 0.0
    ensures d < 0.0 ==> x * d < 0.0
    ensures d > 0.0 ==> x * d > 0.0
  {
    if d > 0.0 {
      PositiveProduct(x, d);
    } else if d < 0.0 {
      PositiveProduct(x, -d);
      assert x * (-d) == -(x * d);
    }
  }

  /** The circle lies in the half plane of the line. */
  lemma CircleIsForward(p: Pdis, Z: Complex)
    requires p.Valid() && p.InDisc(Z)
    ensures Z.Dot(p.m.unit(p.LinAng)) >= 0.0
    ensures Z.Norm2() > 0.0 ==> Z.Dot(p.m.unit(p.LinAng)) > 0.0
    ensures Z.Norm2() <= p.X1 * Z.Dot(p.m.unit(p.LinAng))
  {
    ForwardOfCircle(Z, p.m.unit(p.LinAng), p.X1);
  }

  lemma ForwardOfCircle(Z: Complex, u: Complex, x: real)
    requires var c := Complex(x / 2.0 * u.re, x / 2.0 * u.im); Z.Sub(c).Norm2() <= c.Norm2()
    requires x > 0.0
    ensures Z.Dot(u) >= 0.0
    ensures Z.Norm2() > 0.0 ==> Z.Dot(u) > 0.0
    ensures Z.Norm2() <= x * Z.Dot(u)
  {
    Diameter(Z, u, x);
    Norm2IsPositive(Z);
    Sign(Z.Norm2(), x, Z.Dot(u));
  }

  lemma Diameter(Z: Complex, u: Complex, x: real)
    requires var c := Complex(x / 2.0 * u.re, x / 2.0 * u.im); Z.Sub(c).Norm2() <= c.Norm2()
    ensures Z.Norm2() <= x * Z.Dot(u)
  {
    Expand(Z, Complex(x / 2.0 * u.re, x / 2.0 * u.im));
    DotScale(Z, x / 2.0, u);
  }

  lemma ReachOfCircle(Z: Complex, u: Complex, x: real)
    requires var c := Complex(x / 2.0 * u.re, x / 2.0 * u.im); Z.Sub(c).Norm2() <= c.Norm2()
    requires x > 0.0 && u.Norm2() == 1.0
    ensures Z.Norm2() <= x * x
  {
    ForwardOfCircle(Z, u, x);
    Projection(Z, u);
    Bound(Z.Norm2(), Z.Dot(u), x);
  }

  /** A projection on a unit vector is no longer than the vector. */
  lemma Projection(z: Complex, u: Complex)
    requires u.Norm2() == 1.0
    ensures z.Dot(u) * z.Dot(u) <= z.Norm2()
  {
    var conjugate := Complex(u.re, -u.im);
    NormOfProduct(z, conjugate);
    assert conjugate.Norm2() == u.Norm2();
    assert z.Mul(conjugate).re == z.Dot(u);
    Square(z.Mul(conjugate).im);
  }

  lemma ScaleNorm(k: real, u: Complex)
    requires u.Norm2() == 1.0
    ensures Complex(k * u.re, k * u.im).Norm2() == k * k
  {
    assert Complex(k * u.re, k * u.im).Norm2() == k * k * (u.re * u.re + u.im * u.im);
  }

  lemma Bound(n: real, d: real, x: real)
    requires d * d <= n <= x * d && d >= 0.0 && x > 0.0
    ensures n <= x * x
  {
    SquareOrder(d, x);
    ScaleOrder(d, x, x);
    if d > 0.0 {
      ScaleOrder(d, x, d);
    }
  }

  /** The circle over the line from 0 to X1 as diameter, without its centre. */
  lemma CircleExactly(p: Pdis, Z: Complex)
    requires p.Valid()
    ensures p.InCircle(Z) <==> Z.Norm2() <= p.X1 * Z.Dot(p.m.unit(p.LinAng))
  {
    CircleTest(p, Z);
    Expand(Z, p.Centre());
    DotScale(Z, p.X1 / 2.0, p.m.unit(p.LinAng));
    assert 2.0 * (p.X1 / 2.0 * Z.Dot(p.m.unit(p.LinAng))) == p.X1 * Z.Dot(p.m.unit(p.LinAng));
  }

  /** On the line, the circle is the stretch from 0 to the reach. */
  lemma OnTheLine(p: Pdis, k: real)
    requires p.Valid()
    ensures p.m.Polar(k, p.LinAng).Norm2() <= p.X1 * p.m.Polar(k, p.LinAng).Dot(p.m.unit(p.LinAng)) <==>
            0.0 <= k <= p.X1
  {
    var u := p.m.unit(p.LinAng);
    assert IsUnit(u);
    PolarNorm(p.m, k, p.LinAng);
    DotScale(u, k, u);
    DotCommutes(p.m.Polar(k, p.LinAng), u);
    assert p.m.Polar(k, p.LinAng).Dot(u) == k;
    Between(k, p.X1);
  }

  lemma DotCommutes(a: Complex, b: Complex)
    ensures a.Dot(b) == b.Dot(a)
  {
  }

  lemma Between(k: real, x: real)
    requires x > 0.0
    ensures k * k <= x * k <==> 0.0 <= k <= x
  {
    assert k * k - x * k == k * (k - x);
    if k < 0.0 {
      PositiveProduct(-k, x - k);
    } else if k > x {
      PositiveProduct(k, k - x);
    } else if 0.0 < k < x {
      PositiveProduct(k, x - k);
    }
  }

  /** No impedance beyond the reach X1 is accepted; the reach itself is, on the line. */
  lemma CircleReach(p: Pdis, Z: Complex)
    requires p.Valid()
    ensures p.InCircle(Z) ==> Z.Norm2() <= p.X1 * p.X1
    ensures p.InCircle(p.m.Polar(p.X1, p.LinAng)) && p.m.Polar(p.X1, p.LinAng).Norm2() == p.X1 * p.X1
  {
    assert IsUnit(p.m.unit(p.LinAng));
    CircleTest(p, Z);
    if p.InDisc(Z) {
      ReachOfCircle(Z, p.m.unit(p.LinAng), p.X1);
    }
    PolarNorm(p.m, p.X1, p.LinAng);
    OnTheLine(p, p.X1);
    CircleExactly(p, p.m.Polar(p.X1, p.LinAng));
  }

  /** The relay judges the true loop impedance: on V = Z * I it operates exactly when Z is in the
      circle and the direction setting agrees. */
  lemma MeasuresImpedance(p: Pdis, Z: Complex, I: Complex)
    requires p.Valid() && I.Norm2() != 0.0
    ensures p.Operates(Z.Mul(I), I) <==>
            && Z.Norm2() <= p.X1 * Z.Dot(p.m.unit(p.LinAng))
            && (p.DirMod == DirForward ==> p.Forward(Z)) && (p.DirMod == DirReverse ==> !p.Forward(Z))
  {
    MulDiv(Z, I);
    CircleExactly(p, Z);
  }

  /** The circle decides the direction by itself: away from a dead short, a forward setting changes
      nothing and a reverse setting never operates. */
  lemma DirectionIsRedundant(p: Pdis, V: Complex, I: Complex)
    requires p.Valid() && V.Norm2() > 0.0
    ensures p.DirMod == DirReverse ==> !p.Operates(V, I)
    ensures p.DirMod != DirReverse ==> p.Operates(V, I) == p.(DirMod := DirNonDir).Operates(V, I)
  {
    if I.Norm2() != 0.0 && p.InCircle(Div(V, I)) {
      NonZeroQuotient(V, I);
      CircleTest(p, Div(V, I));
      CircleIsForward(p, Div(V, I));
    }
  }

  lemma NonZeroQuotient(V: Complex, I: Complex)
    requires V.Norm2() > 0.0 && I.Norm2() != 0.0
    ensures Div(V, I).Norm2() > 0.0
  {
    DivMul(V, I);
    NormOfProduct(Div(V, I), I);
    Norm2IsPositive(Div(V, I));
    ZeroFactor(Div(V, I).Norm2(), I.Norm2());
  }

  lemma ZeroFactor(a: real, b: real)
    requires a * b > 0.0
    ensures a != 0.0
  {
  }

  // ---- What operates ----

  /** What both steps share operates on a loop impedance other than 0 exactly if the direction is not
      REVERSE and the impedance lies in the circle. */
  lemma OperatesExactly(p: Pdis, Z: Complex, I: Complex)
    requires p.Valid() && I.Norm2() != 0.0 && Z.Norm2() > 0.0
    ensures p.Operates(Z.Mul(I), I) <==> p.DirMod != DirReverse && Z.Norm2() <= p.X1 * Z.Dot(p.m.unit(p.LinAng))
  {
    MeasuresImpedance(p, Z, I);
    CircleTest(p, Z);
    CircleExactly(p, Z);
    if p.InCircle(Z) {
      CircleIsForward(p, Z);
    }
  }

  lemma PositiveFactors(n: real, a: real, b: real)
    requires n == a * b && a > 0.0 && b > 0.0
    ensures n > 0.0
  {
  }

  lemma PositiveSquare(n: real, x: real)
    requires n == x * x && x != 0.0
    ensures n > 0.0
  {
    if x > 0.0 {
      PositiveFactors(n, x, x);
    } else {
      PositiveFactors(n, -x, -x);
    }
  }

  lemma PolarIsPositive(m: Maths, mag: real, deg: real)
    requires m.Valid() && mag != 0.0
    ensures m.Polar(mag, deg).Norm2() > 0.0
  {
    PolarNorm(m, mag, deg);
    PositiveSquare(m.Polar(mag, deg).Norm2(), mag);
  }

  /** The phase step on a loop impedance Z. */
  lemma PhaseStepExactly(p: Pdis, Z: Complex, V_mag: real, V_ang: real, I_mag: real, I_ang: real)
    requires p.Valid() && Z.Norm2() > 0.0 && p.m.Polar(V_mag, V_ang) == Z.Mul(p.m.Polar(I_mag, I_ang))
    ensures p.PhaseStep(V_mag, V_ang, I_mag, I_ang) <==>
            I_mag >= p.PhStr && p.DirMod != DirReverse && Z.Norm2() <= p.X1 * Z.Dot(p.m.unit(p.LinAng))
  {
    if I_mag >= p.PhStr {
      PolarIsPositive(p.m, I_mag, I_ang);
      OperatesExactly(p, Z, p.m.Polar(I_mag, I_ang));
    }
  }

  /** The phase current and three times the residual one, weighted with K0. */
  function LoopCurrent(p: Pdis, Ia: Complex, I0: Complex): Complex {
    Ia.Add(p.m.Polar(p.K0Fact, p.K0FactAng).Mul(I0).Scale(3.0))
  }

  lemma CompensatedIsLoopCurrent(p: Pdis, Ia: Complex, I0: Complex)
    ensures p.Compensated(Ia, I0) == LoopCurrent(p, Ia, I0)
  {
  }

  /** The ground step on a loop impedance Z, which the loop current drives; without one it never operates. */
  lemma GroundStepExactly(p: Pdis, Z: Complex, Va_mag: real, Va_ang: real, Ia_mag: real, Ia_ang: real, I0_mag: real,
                          I0_ang: real)
    requires p.Valid() && Z.Norm2() > 0.0
    requires p.m.Polar(Va_mag, Va_ang) == Z.Mul(LoopCurrent(p, p.m.Polar(Ia_mag, Ia_ang), p.m.Polar(I0_mag, I0_ang)))
    ensures p.GroundStep(Va_mag, Va_ang, Ia_mag, Ia_ang, I0_mag, I0_ang) <==>
            && LoopCurrent(p, p.m.Polar(Ia_mag, Ia_ang), p.m.Polar(I0_mag, I0_ang)).Norm2() != 0.0
            && Ia_mag >= p.GndStr && p.DirMod != DirReverse && Z.Norm2() <= p.X1 * Z.Dot(p.m.unit(p.LinAng))
  {
    var Ia, I0 := p.m.Polar(Ia_mag, Ia_ang), p.m.Polar(I0_mag, I0_ang);
    CompensatedIsLoopCurrent(p, Ia, I0);
    if LoopCurrent(p, Ia, I0).Norm2() != 0.0 {
      OperatesExactly(p, Z, LoopCurrent(p, Ia, I0));
    }
  }

  /** A fault on the line, at k of the reach X1: with a current not below the start value the phase step
      operates exactly up to the reach, unless the direction is REVERSE. */
  lemma PhaseFaultOnLine(p: Pdis, k: real, V_mag: real, V_ang: real, I_mag: real, I_ang: real)
    requires p.Valid() && k != 0.0
    requires p.m.Polar(V_mag, V_ang) == p.m.Polar(k, p.LinAng).Mul(p.m.Polar(I_mag, I_ang))
    ensures p.PhaseStep(V_mag, V_ang, I_mag, I_ang) <==> I_mag >= p.PhStr && p.DirMod != DirReverse && 0.0 < k <= p.X1
  {
    PolarIsPositive(p.m, k, p.LinAng);
    OnTheLine(p, k);
    PhaseStepExactly(p, p.m.Polar(k, p.LinAng), V_mag, V_ang, I_mag, I_ang);
  }

  /** The same for the ground step, if the current of the loop is not 0. */
  lemma GroundFaultOnLine(p: Pdis, k: real, Va_mag: real, Va_ang: real, Ia_mag: real, Ia_ang: real, I0_mag: real,
                          I0_ang: real)
    requires p.Valid() && k != 0.0
    requires LoopCurrent(p, p.m.Polar(Ia_mag, Ia_ang), p.m.Polar(I0_mag, I0_ang)).Norm2() != 0.0
    requires p.m.Polar(Va_mag, Va_ang)
          == p.m.Polar(k, p.LinAng).Mul(LoopCurrent(p, p.m.Polar(Ia_mag, Ia_ang), p.m.Polar(I0_mag, I0_ang)))
    ensures p.GroundStep(Va_mag, Va_ang, Ia_mag, Ia_ang, I0_mag, I0_ang) <==>
            Ia_mag >= p.GndStr && p.DirMod != DirReverse && 0.0 < k <= p.X1
  {
    PolarIsPositive(p.m, k, p.LinAng);
    OnTheLine(p, k);
    GroundStepExactly(p, p.m.Polar(k, p.LinAng), Va_mag, Va_ang, Ia_mag, Ia_ang, I0_mag, I0_ang);
  }
}
