/** The radix-2 and radix-4 butterflies of codec2-1.2.0/src/kiss_fft.c in fixed point: how
    far they can carry values of a disc of given radius, and that no conversion on the way
    loses anything. */
module Butterfly {
  import opened FixedPoint

  // ----- Lengths of real vectors

  function Len2(x: real, y: real): real { x * x + y * y }

  lemma SquareLe(c: real, p: real)
    requires p >= 0.0 && c * c <= p * p
    ensures -p <= c <= p
  {
    if c > p { PositiveProduct(c - p, c + p); }
    if c < -p { PositiveProduct(p - c, -c - p); }
  }

  lemma PositiveProduct(a: real, b: real)
    requires a > 0.0 && b > 0.0
    ensures a * b > 0.0
  {}

  lemma SquareMonotone(p: real, q: real)
    requires 0.0 <= p <= q
    ensures p * p <= q * q
  {}

  lemma Cauchy(ax: real, ay: real, ux: real, uy: real)
    ensures (ax * ux + ay * uy) * (ax * ux + ay * uy) <= Len2(ax, ay) * Len2(ux, uy)
  {
    var d := ax * uy - ay * ux;
    LagrangeIdentity(ax, ay, ux, uy);
    assert d * d >= 0.0;
  }

  lemma LagrangeIdentity(ax: real, ay: real, ux: real, uy: real)
    ensures Len2(ax, ay) * Len2(ux, uy)
         == (ax * ux + ay * uy) * (ax * ux + ay * uy) + (ax * uy - ay * ux) * (ax * uy - ay * ux)
  {}

  lemma ProductMonotone(p: real, q: real, a: real, b: real)
    requires 0.0 <= p <= a && 0.0 <= q <= b
    ensures p * q <= a * b
  {}

  /** The triangle inequality, on squared lengths. */
  lemma Triangle(ax: real, ay: real, ux: real, uy: real, a: real, b: real)
    requires a >= 0.0 && b >= 0.0 && Len2(ax, ay) <= a * a && Len2(ux, uy) <= b * b
    ensures Len2(ax + ux, ay + uy) <= (a + b) * (a + b)
    ensures Len2(ax - ux, ay - uy) <= (a + b) * (a + b)
  {
    var c := ax * ux + ay * uy;
    Cauchy(ax, ay, ux, uy);
    ProductMonotone(Len2(ax, ay), Len2(ux, uy), a * a, b * b);
    assert (a * a) * (b * b) == (a * b) * (a * b);
    SquareLe(c, a * b);
    assert Len2(ax + ux, ay + uy) == Len2(ax, ay) + Len2(ux, uy) + 2.0 * c;
    assert Len2(ax - ux, ay - uy) == Len2(ax, ay) + Len2(ux, uy) - 2.0 * c;
    assert (a + b) * (a + b) == a * a + b * b + 2.0 * (a * b);
  }

  /** A vector within half of d, componentwise, of one of length at most a. */
  lemma NearLength(vx: real, vy: real, wx: real, wy: real, d: real, a: real)
    requires d > 0.0 && a >= 0.0 && Len2(wx, wy) <= a * a
    requires -0.5 * d <= vx - wx <= 0.5 * d && -0.5 * d <= vy - wy <= 0.5 * d
    ensures Len2(vx, vy) <= (a + 0.7072 * d) * (a + 0.7072 * d)
  {
    var ex, ey := vx - wx, vy - wy;
    SquareOfError(ex, d);
    SquareOfError(ey, d);
    SquareScaled(0.7072, d);
    Triangle(wx, wy, ex, ey, a, 0.7072 * d);
  }

  /** When d times a vector is that near, and a and the error are at most d * p, the vector
      has length at most p. */
  lemma RoundedLength(d: real, vx: real, vy: real, wx: real, wy: real, a: real, p: real)
    requires d > 0.0 && a >= 0.0 && p >= 0.0 && Len2(wx, wy) <= a * a
    requires -0.5 * d <= d * vx - wx <= 0.5 * d && -0.5 * d <= d * vy - wy <= 0.5 * d
    requires a + 0.7072 * d <= d * p
    ensures Len2(vx, vy) <= p * p
  {
    NearLength(d * vx, d * vy, wx, wy, d, a);
    SquareMonotone(a + 0.7072 * d, d * p);
    CancelScale(d, vx, vy, p);
  }

  lemma SquareOfError(e: real, d: real)
    requires d > 0.0 && -0.5 * d <= e <= 0.5 * d
    ensures e * e <= 0.25 * (d * d)
  {}

  lemma SquareScaled(d: real, x: real)
    ensures (d * x) * (d * x) == (d * d) * (x * x)
  {}

  lemma CancelScale(d: real, vx: real, vy: real, p: real)
    requires d > 0.0 && Len2(d * vx, d * vy) <= (d * p) * (d * p)
    ensures Len2(vx, vy) <= p * p
  {
    ScaleIdentity(d, vx, vy, p);
    CancelSquare(d, Len2(vx, vy) - p * p, Len2(d * vx, d * vy) - (d * p) * (d * p));
  }

  lemma CancelSquare(d: real, x: real, l: real)
    requires d > 0.0 && d * (d * x) == l <= 0.0
    ensures x <= 0.0
  {
    if x > 0.0 { ScalePositive(d, x, l); }
  }

  lemma ScalePositive(d: real, x: real, l: real)
    requires d > 0.0 && x > 0.0 && d * (d * x) == l
    ensures l > 0.0
  {
    PositiveProduct(d, x);
    PositiveProduct(d, d * x);
  }

  lemma ScaleIdentity(d: real, vx: real, vy: real, p: real)
    ensures d * (d * (Len2(vx, vy) - p * p)) == Len2(d * vx, d * vy) - (d * p) * (d * p)
  {}

  // ----- Values and twiddles

  /** A twiddle factor as KISS_FFT_COS and KISS_FFT_SIN make it: the nearest scalars to a
      point of the circle of radius SAMP_MAX. */
  ghost predicate IsTwiddle(h: int, tw: Complex) { RoundedPoint(Max(h) as real, tw.r as real, tw.i as real) }

  ghost predicate RoundedPoint(m: real, x: real, y: real) {
    exists c: real, s: real :: NearCircle(m, x, y, c, s)
  }

  ghost predicate NearCircle(m: real, x: real, y: real, c: real, s: real) {
    Len2(c, s) == 1.0 && -0.5 <= x - m * c <= 0.5 && -0.5 <= y - m * s <= 0.5
  }

  /** Squared length of a complex scalar is at most that of radius p. */
  predicate Short(c: Complex, p: real) { Len2(c.r as real, c.i as real) <= p * p }

  /** Shorter than p, with both components at most u in size. */
  predicate Inside(c: Complex, p: real, u: int) { Short(c, p) && -u <= c.r <= u && -u <= c.i <= u }

  /** The discs: the sixth has radius SAMP_MAX, and each one before it is wider by 0.76. */
  function Radius(h: int, j: int): real { Max(h) as real + 0.76 * (6 - j) as real }

  /** A value in the j-th disc with components in the sample range. */
  predicate Within(h: int, j: int, c: Complex) { Inside(c, Radius(h, j), Max(h)) }

  /** j is small against the word size. */
  predicate Room(h: int, j: int) { h >= 128 && 0 <= j && 64 * (j + 1) <= h }

  lemma ShortGrows(c: Complex, p: real, q: real)
    requires 0.0 <= p <= q && Short(c, p)
    ensures Short(c, q)
  {
    SquareMonotone(p, q);
  }

  lemma RoundReal(h: int, w: int)
    requires h >= 1
    ensures var d := (2 * h) as real;
      -0.5 * d <= d * (Round(h, w) as real) - w as real <= 0.5 * d
  {}

  lemma RealProduct(a: int, b: int)
    ensures (a * b) as real == a as real * b as real
  {}

  /** Rounding a vector of length at most a divides its length by d = 2h, up to 0.7072. */
  lemma RoundVector(h: int, wx: int, wy: int, a: real, d: real, p: real)
    requires h >= 1 && d == (2 * h) as real && a >= 0.0 && p >= 0.0
    requires Len2(wx as real, wy as real) <= a * a && a + 0.7072 * d <= d * p
    ensures Short(Complex(Round(h, wx), Round(h, wy)), p)
  {
    RoundReal(h, wx);
    RoundReal(h, wy);
    RoundedLength(d, Round(h, wx) as real, Round(h, wy) as real, wx as real, wy as real, a, p);
  }

  // ----- C_FIXDIV and C_MUL on the disc

  /** C_FIXDIV without its conversions. */
  function Divided(h: int, c: Complex, n: int): Complex
    requires h >= 1 && n >= 1
  {
    Complex(Round(h, c.r * (Max(h) / n)), Round(h, c.i * (Max(h) / n)))
  }

  /** C_MUL without its conversions. */
  function Product(h: int, a: Complex, b: Complex): Complex
    requires h >= 1
  {
    Complex(Round(h, a.r * b.r - a.i * b.i), Round(h, a.r * b.i + a.i * b.r))
  }

  /** Dividing a value of the j-th disc by way of the factor g leaves length p. */
  predicate Divides(h: int, j: int, g: int, p: real) {
    p >= 0.0 && g as real * Radius(h, j) + 0.7072 * (2 * h) as real <= (2 * h) as real * p
  }

  /** Multiplying a value of length p by a twiddle leaves length q and components of at most
      v in size. */
  predicate Turns(h: int, p: real, q: real, v: int) {
    0.0 <= p && 0.0 <= q && 0 <= v <= Max(h)
    && p * ((2 * h) as real - 0.2928) + 0.7072 * (2 * h) as real <= (2 * h) as real * q
    && p * ((2 * h) as real - 0.2928) < (2 * h * v + h) as real
  }

  /** The sixth disc is full scale. */
  lemma FullScale(h: int, c: Complex)
    requires h >= 1
    ensures Within(h, 6, c) <==> InDisc(h, c)
  {
    var m := Max(h);
    assert Radius(h, 6) == m as real;
    NormReal(c);
    RealProduct(m, m);
    RealOrder(Norm(c), m * m);
    if InDisc(h, c) { DiscComponents(h, c); }
  }

  lemma RealOrder(a: int, b: int)
    ensures a <= b <==> a as real <= b as real
  {}

  lemma DividedExact(h: int, c: Complex, n: int)
    requires h >= 1 && InSamples(h, c.r) && InSamples(h, c.i) && 1 <= n <= Max(h)
    ensures CFixDiv(h, c, n) == Divided(h, c, n)
    ensures var u, d := Max(h) / n, Divided(h, c, n); -u <= d.r <= u && -u <= d.i <= u
  {
    DivScalarBound(h, c.r, n);
    DivScalarBound(h, c.i, n);
  }

  lemma DividedInside(h: int, j: int, c: Complex, n: int, g: int, p: real)
    requires Room(h, j) && Within(h, j, c) && 1 <= n <= Max(h) && g == Max(h) / n && Divides(h, j, g, p)
    ensures CFixDiv(h, c, n) == Divided(h, c, n) && Inside(CFixDiv(h, c, n), p, g)
  {
    NaturalQuotient(Max(h), n);
    RadiusPositive(h, j);
    ScaledRounded(h, c, g, g as real, Radius(h, j), p);
    DividedExact(h, c, n);
  }

  lemma RadiusPositive(h: int, j: int)
    requires Room(h, j)
    ensures Radius(h, j) >= 0.0
  {}

  lemma NaturalQuotient(m: int, n: int)
    requires m >= 0 && n >= 1
    ensures m / n >= 0
  {}

  lemma ScaledRounded(h: int, c: Complex, g: int, rg: real, m: real, p: real)
    requires h >= 1 && rg == g as real && rg >= 0.0 && m >= 0.0 && p >= 0.0 && Short(c, m)
    requires rg * m + 0.7072 * (2 * h) as real <= (2 * h) as real * p
    ensures Short(Complex(Round(h, c.r * g), Round(h, c.i * g)), p)
  {
    RealProduct(c.r, g);
    RealProduct(c.i, g);
    ScaledLength(rg, c.r as real, c.i as real, m);
    NonnegProduct(rg, m);
    RoundVector(h, c.r * g, c.i * g, rg * m, (2 * h) as real, p);
  }

  lemma NonnegProduct(a: real, b: real)
    requires a >= 0.0 && b >= 0.0
    ensures a * b >= 0.0
  {}

  lemma ScaledLength(g: real, x: real, y: real, m: real)
    requires g >= 0.0 && Len2(x, y) <= m * m
    ensures Len2(g * x, g * y) <= (g * m) * (g * m)
  {}

  lemma TwiddleLength(h: int, tw: Complex)
    requires h >= 1 && IsTwiddle(h, tw)
    ensures Short(tw, (2 * h) as real - 0.2928)
  {
    CirclePoint(Max(h) as real, tw.r as real, tw.i as real);
  }

  lemma CirclePoint(m: real, x: real, y: real)
    requires m >= 0.0 && RoundedPoint(m, x, y)
    ensures Len2(x, y) <= (m + 0.7072) * (m + 0.7072)
  {
    var c, s :| NearCircle(m, x, y, c, s);
    ScaledLength(m, c, s, 1.0);
    NearLength(x, y, m * c, m * s, 1.0, m);
  }

  lemma ProductInside(h: int, b: Complex, tw: Complex, p: real, q: real, v: int)
    requires h >= 1 && IsTwiddle(h, tw) && Short(b, p) && Turns(h, p, q, v)
    ensures CMul(h, b, tw) == Product(h, b, tw) && Inside(CMul(h, b, tw), q, v)
  {
    var l := ProductSums(h, b, tw, p);
    ProductRounded(h, b, tw, l, q);
    ProductKept(h, b, tw, l, v);
  }

  /** A bound on the length of the unrounded product. */
  lemma ProductSums(h: int, b: Complex, tw: Complex, p: real) returns (l: real)
    requires h >= 1 && p >= 0.0 && IsTwiddle(h, tw) && Short(b, p)
    ensures l == p * ((2 * h) as real - 0.2928) && l >= 0.0
    ensures Short(Complex(b.r * tw.r - b.i * tw.i, b.r * tw.i + b.i * tw.r), l)
  {
    var t := (2 * h) as real - 0.2928;
    l := p * t;
    TwiddleLength(h, tw);
    NonnegProduct(p, t);
    ProductNorm(b, tw, p, t);
  }

  lemma ProductKept(h: int, b: Complex, tw: Complex, l: real, v: int)
    requires h >= 1 && 0 <= v <= Max(h) && l >= 0.0 && l < (2 * h * v + h) as real
    requires Short(Complex(b.r * tw.r - b.i * tw.i, b.r * tw.i + b.i * tw.r), l)
    ensures CMul(h, b, tw) == Product(h, b, tw)
    ensures -v <= Product(h, b, tw).r <= v && -v <= Product(h, b, tw).i <= v
  {
    SumsRound(h, Complex(b.r * tw.r - b.i * tw.i, b.r * tw.i + b.i * tw.r), l, v);
  }

  lemma SumsRound(h: int, w: Complex, l: real, v: int)
    requires h >= 1 && 0 <= v <= Max(h) && l >= 0.0 && l < (2 * h * v + h) as real && Short(w, l)
    ensures -v <= Round(h, w.r) <= v && SRound(h, w.r) == Round(h, w.r)
    ensures -v <= Round(h, w.i) <= v && SRound(h, w.i) == Round(h, w.i)
  {
    ShortComponents(w, l);
    RoundAtMost(h, w.r, v, l);
    RoundAtMost(h, w.i, v, l);
  }

  /** A sum short of v and a half units rounds to at most v, and the conversion keeps it. */
  lemma RoundAtMost(h: int, x: int, v: int, l: real)
    requires h >= 1 && 0 <= v <= Max(h) && -l <= x as real <= l && l < (2 * h * v + h) as real
    ensures -v <= Round(h, x) <= v && SRound(h, x) == Round(h, x)
  {
    RoundRemainder(h, x);
    RoundWithin(2 * h, h, v, x, Round(h, x));
  }

  lemma RoundWithin(d: int, h: int, v: int, x: int, q: int)
    requires d == 2 * h && h >= 1 && -(d * v + h) < x < d * v + h && 0 <= x + h - d * q < d
    ensures -v <= q <= v
  {
    QuotientAtLeast(d, q, x + h, v + 1);
    QuotientAtLeast(d, q, x + h, -v);
    NegateProduct(d, v);
  }

  lemma ProductNorm(b: Complex, tw: Complex, p: real, t: real)
    requires Short(b, p) && Short(tw, t)
    ensures Short(Complex(b.r * tw.r - b.i * tw.i, b.r * tw.i + b.i * tw.r), p * t)
  {
    TwoSquares(b, tw);
    NormReal(b);
    NormReal(tw);
    NormReal(Complex(b.r * tw.r - b.i * tw.i, b.r * tw.i + b.i * tw.r));
    RealProduct(Norm(b), Norm(tw));
    LengthOfProduct(Len2(b.r as real, b.i as real), Len2(tw.r as real, tw.i as real), p, t);
  }

  lemma ProductRounded(h: int, b: Complex, tw: Complex, a: real, q: real)
    requires h >= 1 && a >= 0.0 && q >= 0.0 && a + 0.7072 * (2 * h) as real <= (2 * h) as real * q
    requires Short(Complex(b.r * tw.r - b.i * tw.i, b.r * tw.i + b.i * tw.r), a)
    ensures Short(Product(h, b, tw), q)
  {
    RoundVector(h, b.r * tw.r - b.i * tw.i, b.r * tw.i + b.i * tw.r, a, (2 * h) as real, q);
  }

  lemma NormReal(c: Complex)
    ensures Norm(c) as real == Len2(c.r as real, c.i as real)
  {}

  lemma LengthOfProduct(m: real, n: real, p: real, q: real)
    requires 0.0 <= m <= p * p && 0.0 <= n <= q * q
    ensures m * n <= (p * q) * (p * q)
  {}

  lemma ShortComponents(c: Complex, p: real)
    requires p >= 0.0 && Short(c, p)
    ensures -p <= c.r as real <= p && -p <= c.i as real <= p
  {
    var x, y := c.r as real, c.i as real;
    assert x * x >= 0.0 && y * y >= 0.0;
    SquareLe(x, p);
    SquareLe(y, p);
  }

  // ----- Sums

  function Sum2(a: Complex, t: Complex): Complex { Complex(a.r + t.r, a.i + t.i) }

  function Diff2(a: Complex, t: Complex): Complex { Complex(a.r - t.r, a.i - t.i) }

  /** What C_SUB and C_ADD of the same two values print. */
  function Printed(h: int, a: Complex, t: Complex): nat {
    Warnings(h, a.r - t.r, a.i - t.i) + Warnings(h, a.r + t.r, a.i + t.i)
  }

  /** A sum and a difference whose components stay in the sample range are exact and print
      nothing. */
  lemma SumExact(h: int, a: Complex, t: Complex, p: real, u: int, q: real, v: int, m: real)
    requires h >= 1 && 0.0 <= p && 0.0 <= q && p + q <= m && u + v <= Max(h) && Inside(a, p, u) && Inside(t, q, v)
    ensures CAdd(h, a, t) == Sum2(a, t) && CSub(h, a, t) == Diff2(a, t)
    ensures Inside(Sum2(a, t), m, u + v) && Inside(Diff2(a, t), m, u + v)
    ensures Printed(h, a, t) == 0
  {
    SumShort(a, t, p, q, m);
  }

  lemma SumShort(a: Complex, t: Complex, p: real, q: real, m: real)
    requires 0.0 <= p && 0.0 <= q && p + q <= m && Short(a, p) && Short(t, q)
    ensures Short(Sum2(a, t), m) && Short(Diff2(a, t), m)
  {
    SumOfShort(a, t, p, q);
    ShortGrows(Sum2(a, t), p + q, m);
    ShortGrows(Diff2(a, t), p + q, m);
  }

  lemma SumOfShort(a: Complex, t: Complex, p: real, q: real)
    requires 0.0 <= p && 0.0 <= q && Short(a, p) && Short(t, q)
    ensures Short(Sum2(a, t), p + q) && Short(Diff2(a, t), p + q)
  {
    Triangle(a.r as real, a.i as real, t.r as real, t.i as real, p, q);
    LengthOfSum(a, t);
  }

  lemma LengthOfSum(a: Complex, t: Complex)
    ensures Len2((a.r + t.r) as real, (a.i + t.i) as real) == Len2(a.r as real + t.r as real, a.i as real + t.i as real)
    ensures Len2((a.r - t.r) as real, (a.i - t.i) as real) == Len2(a.r as real - t.r as real, a.i as real - t.i as real)
  {}

  // ----- Radix 2

  /** The butterfly without any conversion to a scalar. */
  function ExactBfly2(h: int, f: Complex, f2: Complex, tw: Complex): (Complex, Complex)
    requires h >= 1
  {
    var a, t := Divided(h, f, 2), Product(h, Divided(h, f2, 2), tw);
    (Sum2(a, t), Diff2(a, t))
  }

  /** One butterfly: the two results, the overflow warnings printed on the way, and whether
      the conversions changed a result. */
  datatype Pair = Pair(f: Complex, f2: Complex, warnings: nat, lost: bool)

  function Bfly2(h: int, f: Complex, f2: Complex, tw: Complex): Pair
    requires h >= 1
  {
    var a, t := CFixDiv(h, f, 2), CMul(h, CFixDiv(h, f2, 2), tw);
    var sum, diff := CAdd(h, a, t), CSub(h, a, t);
    Pair(sum, diff, Printed(h, a, t), (sum, diff) != ExactBfly2(h, f, f2, tw))
  }

  /** The radius after halving, and after the multiplication by a twiddle. */
  lemma HalfBounds(h: int, j: int) returns (p: real, q: real)
    requires Room(h, j) && j >= 3
    ensures Max(h) / 2 == h - 1 && Divides(h, j, h - 1, p) && Turns(h, p, q, h) && p + q <= Radius(h, j)
    ensures p <= h as real + 1.0
  {
    var r, e := h as real, 3.56 - 0.76 * j as real;
    p, q := r + 0.5 * e - 0.2868, r + 0.5 * e + 0.2752;
    HalfArithmetic(r, j as real, e);
    HalfTurns(h, r, p);
  }

  lemma HalfTurns(h: int, r: real, p: real)
    requires h >= 1 && r == h as real && p * (2.0 * r - 0.2928) < 2.0 * r * r + r
    ensures p * ((2 * h) as real - 0.2928) < (2 * h * h + h) as real
  {
    assert (2 * h * h + h) as real == 2.0 * r * r + r;
  }

  lemma HalfArithmetic(r: real, k: real, e: real)
    requires r >= 128.0 && k >= 3.0 && 64.0 * (k + 1.0) <= r && e == 3.56 - 0.76 * k
    ensures (r - 1.0) * (2.0 * r + e) + 0.7072 * (2.0 * r) <= (2.0 * r) * (r + 0.5 * e - 0.2868)
    ensures (r + 0.5 * e - 0.2868) * (2.0 * r - 0.2928) + 0.7072 * (2.0 * r) <= (2.0 * r) * (r + 0.5 * e + 0.2752)
    ensures (r + 0.5 * e - 0.2868) * (2.0 * r - 0.2928) < 2.0 * r * r + r
  {
    assert r * e <= 1.28 * r;
  }

  lemma DividedTurned(h: int, j: int, f: Complex, n: int, tw: Complex, p: real, q: real, v: int)
    requires Room(h, j) && Within(h, j, f) && IsTwiddle(h, tw) && 1 <= n <= Max(h)
    requires Divides(h, j, Max(h) / n, p) && Turns(h, p, q, v)
    ensures var b := CFixDiv(h, f, n);
      b == Divided(h, f, n) && CMul(h, b, tw) == Product(h, b, tw) && Inside(CMul(h, b, tw), q, v)
  {
    DividedInside(h, j, f, n, Max(h) / n, p);
    ProductInside(h, CFixDiv(h, f, n), tw, p, q, v);
  }

  /** A butterfly on two values of a disc, from the third on, prints no overflow warning,
      loses nothing to any conversion, and gives two values of the same disc. */
  lemma Bfly2StaysInDisc(h: int, j: int, f: Complex, f2: Complex, tw: Complex)
    requires Room(h, j) && j >= 3 && Within(h, j, f) && Within(h, j, f2) && IsTwiddle(h, tw)
    ensures var p := Bfly2(h, f, f2, tw);
      p.warnings == 0 && !p.lost && Within(h, j, p.f) && Within(h, j, p.f2)
    ensures var b := CFixDiv(h, f2, 2);
      CFixDiv(h, f, 2) == Divided(h, f, 2) && b == Divided(h, f2, 2) && CMul(h, b, tw) == Product(h, b, tw)
  {
    var p, q := HalfBounds(h, j);
    DividedInside(h, j, f, 2, h - 1, p);
    DividedTurned(h, j, f2, 2, tw, p, q, h);
    SumExact(h, CFixDiv(h, f, 2), CMul(h, CFixDiv(h, f2, 2), tw), p, h - 1, q, h, Radius(h, j));
  }

  /** All components of the sum and of the difference lie within SAMP_MAX. */
  predicate SumsInside(h: int, a: Complex, t: Complex) {
    && -(2 * h - 1) <= a.r + t.r <= 2 * h - 1 && -(2 * h - 1) <= a.i + t.i <= 2 * h - 1
    && -(2 * h - 1) <= a.r - t.r <= 2 * h - 1 && -(2 * h - 1) <= a.i - t.i <= 2 * h - 1
  }

  /** kf_bfly2 prints nothing exactly when both of its sums are within range. */
  lemma Bfly2Prints(h: int, f: Complex, f2: Complex, tw: Complex)
    requires h >= 1
    ensures Bfly2(h, f, f2, tw).warnings == 0 <==> SumsInside(h, CFixDiv(h, f, 2), CMul(h, CFixDiv(h, f2, 2), tw))
  {}

  // ----- Radix 4

  function Turned(c: Complex): Complex { Complex(c.i, -c.r) }

  /** The four results of a radix-4 butterfly, in the order of the entries. */
  datatype Four = Four(f0: Complex, f1: Complex, f2: Complex, f3: Complex)

  function Entry(f: Four, i: nat): Complex {
    if i == 0 then f.f0 else if i == 1 then f.f1 else if i == 2 then f.f2 else f.f3
  }

  /** The last part of kf_bfly4, on the quartered and turned values, and what it prints. */
  function Cross(h: int, a: Complex, t0: Complex, t1: Complex, t2: Complex, inverse: bool): (Four, nat)
    requires h >= 1
  {
    var s5, b := CSub(h, a, t1), CAdd(h, a, t1);
    var s3, s4 := CAdd(h, t0, t2), CSub(h, t0, t2);
    var plus, minus := CAdd(h, s5, Turned(s4)), CSub(h, s5, Turned(s4));
    (Four(CAdd(h, b, s3), if inverse then minus else plus, CSub(h, b, s3), if inverse then plus else minus),
     Printed(h, a, t1) + Printed(h, t0, t2) + Printed(h, b, s3))
  }

  function ExactCross(a: Complex, t0: Complex, t1: Complex, t2: Complex, inverse: bool): Four {
    var s5, b, s3, s4 := Diff2(a, t1), Sum2(a, t1), Sum2(t0, t2), Diff2(t0, t2);
    var plus, minus := Sum2(s5, Turned(s4)), Diff2(s5, Turned(s4));
    Four(Sum2(b, s3), if inverse then minus else plus, Diff2(b, s3), if inverse then plus else minus)
  }

  /** The three twiddles of a radix-4 butterfly. */
  datatype Three = Three(tw1: Complex, tw2: Complex, tw3: Complex)

  function ExactBfly4(h: int, f: Four, tw: Three, inverse: bool): Four
    requires h >= 1
  {
    ExactCross(Divided(h, f.f0, 4), Product(h, Divided(h, f.f1, 4), tw.tw1), Product(h, Divided(h, f.f2, 4), tw.tw2),
               Product(h, Divided(h, f.f3, 4), tw.tw3), inverse)
  }

  datatype Quad = Quad(f: Four, warnings: nat, lost: bool)

  function Bfly4(h: int, f: Four, tw: Three, inverse: bool): Quad
    requires h >= 1
  {
    var (r, printed) := Cross(h, CFixDiv(h, f.f0, 4), CMul(h, CFixDiv(h, f.f1, 4), tw.tw1),
                              CMul(h, CFixDiv(h, f.f2, 4), tw.tw2), CMul(h, CFixDiv(h, f.f3, 4), tw.tw3), inverse);
    Quad(r, printed, r != ExactBfly4(h, f, tw, inverse))
  }

  lemma PrintedNone(h: int, a: Complex, t: Complex)
    ensures Printed(h, a, t) == 0 <==> SumsInside(h, a, t)
  {}

  lemma CrossPrints(h: int, a: Complex, t0: Complex, t1: Complex, t2: Complex, inverse: bool)
    requires h >= 1
    ensures Cross(h, a, t0, t1, t2, inverse).1 == 0 <==>
      SumsInside(h, a, t1) && SumsInside(h, t0, t2) && SumsInside(h, CAdd(h, a, t1), CAdd(h, t0, t2))
  {
    PrintedNone(h, a, t1);
    PrintedNone(h, t0, t2);
    PrintedNone(h, CAdd(h, a, t1), CAdd(h, t0, t2));
  }

  /** kf_bfly4 prints nothing exactly when its first six sums are within range; the last two
      are not checked. */
  lemma Bfly4Prints(h: int, f: Four, tw: Three, inverse: bool)
    requires h >= 1
    ensures var a, t0 := CFixDiv(h, f.f0, 4), CMul(h, CFixDiv(h, f.f1, 4), tw.tw1);
      var t1, t2 := CMul(h, CFixDiv(h, f.f2, 4), tw.tw2), CMul(h, CFixDiv(h, f.f3, 4), tw.tw3);
      Bfly4(h, f, tw, inverse).warnings == 0 <==>
      SumsInside(h, a, t1) && SumsInside(h, t0, t2) && SumsInside(h, CAdd(h, a, t1), CAdd(h, t0, t2))
  {
    CrossPrints(h, CFixDiv(h, f.f0, 4), CMul(h, CFixDiv(h, f.f1, 4), tw.tw1), CMul(h, CFixDiv(h, f.f2, 4), tw.tw2),
                CMul(h, CFixDiv(h, f.f3, 4), tw.tw3), inverse);
  }

  predicate AllInside(f: Four, m: real, u: int) {
    Inside(f.f0, m, u) && Inside(f.f1, m, u) && Inside(f.f2, m, u) && Inside(f.f3, m, u)
  }

  predicate AllWithin(h: int, j: int, f: Four) { AllInside(f, Radius(h, j), Max(h)) }

  /** The radius after quartering, and after the multiplication by a twiddle. */
  lemma QuarterBounds(h: int, j: int) returns (p: real, q: real)
    requires Room(h, j) && h % 2 == 0 && j >= 1
    ensures Max(h) / 4 == h / 2 - 1 && Divides(h, j, h / 2 - 1, p) && Turns(h, p, q, h / 2)
    ensures p + 3.0 * q <= Radius(h, j - 1) && 2.0 * p <= h as real + 2.0
  {
    var r, e := h as real, 3.56 - 0.76 * j as real;
    p, q := 0.5 * r + 0.25 * e - 0.2868, 0.5 * r + 0.25 * e + 0.348;
    assert (h / 2) as real == 0.5 * r;
    QuarterArithmetic(r, j as real, e);
    QuarterTurns(h, h / 2, r, p);
  }

  lemma QuarterTurns(h: int, v: int, r: real, p: real)
    requires h == 2 * v && h >= 1 && r == h as real && p * (2.0 * r - 0.2928) < r * r + r
    ensures p * ((2 * h) as real - 0.2928) < (2 * h * v + h) as real
  {
    assert 2 * h * v == h * h;
    assert (h * h + h) as real == r * r + r;
  }

  lemma QuarterArithmetic(r: real, k: real, e: real)
    requires r >= 128.0 && k >= 1.0 && 64.0 * (k + 1.0) <= r && e == 3.56 - 0.76 * k
    ensures (0.5 * r - 1.0) * (2.0 * r + e) + 0.7072 * (2.0 * r) <= (2.0 * r) * (0.5 * r + 0.25 * e - 0.2868)
    ensures (0.5 * r + 0.25 * e - 0.2868) * (2.0 * r - 0.2928) + 0.7072 * (2.0 * r)
         <= (2.0 * r) * (0.5 * r + 0.25 * e + 0.348)
    ensures (0.5 * r + 0.25 * e - 0.2868) * (2.0 * r - 0.2928) < r * r + r
  {
    QuarterLengths(r, e);
    QuarterTurn(r, e);
  }

  lemma QuarterLengths(r: real, e: real)
    requires r >= 128.0 && -0.76 * r <= 64.0 * e && e <= 2.8
    ensures (0.5 * r - 1.0) * (2.0 * r + e) + 0.7072 * (2.0 * r) <= (2.0 * r) * (0.5 * r + 0.25 * e - 0.2868)
    ensures (0.5 * r + 0.25 * e - 0.2868) * (2.0 * r - 0.2928) + 0.7072 * (2.0 * r)
         <= (2.0 * r) * (0.5 * r + 0.25 * e + 0.348)
  {}

  lemma QuarterTurn(r: real, e: real)
    requires r >= 128.0 && -r <= 64.0 * e && e <= 2.8
    ensures (0.5 * r + 0.25 * e - 0.2868) * (2.0 * r - 0.2928) < r * r + r
  {
    ScaledBound(r, e, 2.8);
    QuarterExpansion(r, e, r * r, r * e);
    QuarterBelow((0.5 * r + 0.25 * e - 0.2868) * (2.0 * r - 0.2928), r, e, r * r, r * e);
  }

  lemma QuarterBelow(x: real, r: real, e: real, rr: real, re: real)
    requires r >= 128.0 && -r <= 64.0 * e && re <= 2.8 * r
    requires x == rr + 0.5 * re - 0.72 * r - 0.0732 * e + 0.08397504
    ensures x < rr + r
  {}

  lemma ScaledBound(r: real, e: real, m: real)
    requires r >= 0.0 && e <= m
    ensures r * e <= m * r
  {}

  lemma QuarterExpansion(r: real, e: real, rr: real, re: real)
    requires rr == r * r && re == r * e
    ensures (0.5 * r + 0.25 * e - 0.2868) * (2.0 * r - 0.2928)
         == rr + 0.5 * re - 0.72 * r - 0.0732 * e + 0.08397504
  {}

  lemma TurnedInside(c: Complex, p: real, u: int)
    requires Inside(c, p, u)
    ensures Inside(Turned(c), p, u)
  {
    TurnedLength(c.r as real, c.i as real);
    assert (-c.r) as real == -(c.r as real);
  }

  lemma TurnedLength(x: real, y: real)
    ensures Len2(y, -x) == Len2(x, y)
  {}

  /** The sum and the difference are exact and print nothing. */
  predicate SumsKept(h: int, a: Complex, t: Complex)
    requires h >= 1
  {
    CAdd(h, a, t) == Sum2(a, t) && CSub(h, a, t) == Diff2(a, t) && Printed(h, a, t) == 0
  }

  /** A bound on a value by a length and by the size of its components, such as Inside. */
  type Bound = (Complex, real, int) -> bool

  ghost predicate AddsAt(h: int, bound: Bound, a: Complex, t: Complex, p: real, u: int, q: real, v: int, m: real)
    requires h >= 1
  {
    0.0 <= p && 0.0 <= q && p + q <= m && u + v <= Max(h) && bound(a, p, u) && bound(t, q, v) ==>
      SumsKept(h, a, t) && bound(Sum2(a, t), m, u + v) && bound(Diff2(a, t), m, u + v)
  }

  ghost predicate TurnsAt(bound: Bound, c: Complex, p: real, u: int) { bound(c, p, u) ==> bound(Turned(c), p, u) }

  ghost predicate AllBound(bound: Bound, f: Four, m: real, u: int) {
    bound(f.f0, m, u) && bound(f.f1, m, u) && bound(f.f2, m, u) && bound(f.f3, m, u)
  }

  /** The cross is exact and silent, for any bound that sums and quarter turns respect. */
  lemma CrossBound(h: int, bound: Bound, a: Complex, t0: Complex, t1: Complex, t2: Complex, inverse: bool, p: real,
                   q: real, v: int, m: real)
    requires h >= 2 && 0.0 <= p && 0.0 <= q && p + 3.0 * q <= m && h == 2 * v
    requires forall a, t, p, u, q, v, m :: AddsAt(h, bound, a, t, p, u, q, v, m)
    requires forall c, p, u :: TurnsAt(bound, c, p, u)
    requires bound(a, p, v - 1) && bound(t0, q, v) && bound(t1, q, v) && bound(t2, q, v)
    ensures Cross(h, a, t0, t1, t2, inverse) == (ExactCross(a, t0, t1, t2, inverse), 0)
    ensures AllBound(bound, ExactCross(a, t0, t1, t2, inverse), m, Max(h))
  {
    var s5, b, s3, s4 := Diff2(a, t1), Sum2(a, t1), Sum2(t0, t2), Diff2(t0, t2);
    assert AddsAt(h, bound, a, t1, p, v - 1, q, v, p + q);
    assert AddsAt(h, bound, t0, t2, q, v, q, v, 2.0 * q);
    assert TurnsAt(bound, s4, 2.0 * q, h);
    assert AddsAt(h, bound, b, s3, p + q, h - 1, 2.0 * q, h, m);
    assert AddsAt(h, bound, s5, Turned(s4), p + q, h - 1, 2.0 * q, h, m);
    CrossJoins(h, a, t0, t1, t2, inverse, s5, b, s3, s4);
  }

  lemma CrossJoins(h: int, a: Complex, t0: Complex, t1: Complex, t2: Complex, inverse: bool,
                   s5: Complex, b: Complex, s3: Complex, s4: Complex)
    requires h >= 1 && s5 == Diff2(a, t1) && b == Sum2(a, t1) && s3 == Sum2(t0, t2) && s4 == Diff2(t0, t2)
    requires SumsKept(h, a, t1) && SumsKept(h, t0, t2) && SumsKept(h, b, s3) && SumsKept(h, s5, Turned(s4))
    ensures Cross(h, a, t0, t1, t2, inverse) == (ExactCross(a, t0, t1, t2, inverse), 0)
  {}

  lemma CrossExact(h: int, a: Complex, t0: Complex, t1: Complex, t2: Complex, inverse: bool, p: real, q: real, v: int,
                   m: real)
    requires h >= 2 && 0.0 <= p && 0.0 <= q && p + 3.0 * q <= m && h == 2 * v
    requires Inside(a, p, v - 1) && Inside(t0, q, v) && Inside(t1, q, v) && Inside(t2, q, v)
    ensures Cross(h, a, t0, t1, t2, inverse) == (ExactCross(a, t0, t1, t2, inverse), 0)
    ensures AllInside(ExactCross(a, t0, t1, t2, inverse), m, Max(h))
  {
    var bound := InsideBound();
    InsideAdds(h);
    InsideTurns();
    CrossBound(h, bound, a, t0, t1, t2, inverse, p, q, v, m);
  }

  ghost function InsideBound(): Bound { (c, p, u) => Inside(c, p, u) }

  lemma InsideAdds(h: int)
    requires h >= 1
    ensures forall a, t, p, u, q, v, m :: AddsAt(h, InsideBound(), a, t, p, u, q, v, m)
  {
    forall a, t, p: real, u: int, q: real, v: int, m: real ensures AddsAt(h, InsideBound(), a, t, p, u, q, v, m) {
      if 0.0 <= p && 0.0 <= q && p + q <= m && u + v <= Max(h) && Inside(a, p, u) && Inside(t, q, v) {
        SumExact(h, a, t, p, u, q, v, m);
      }
    }
  }

  lemma InsideTurns()
    ensures forall c, p, u :: TurnsAt(InsideBound(), c, p, u)
  {
    forall c: Complex, p: real, u: int ensures TurnsAt(InsideBound(), c, p, u) {
      if Inside(c, p, u) { TurnedInside(c, p, u); }
    }
  }

  /** A radix-4 butterfly on four values of a disc, from the first on, prints no overflow
      warning, loses nothing to any conversion, and gives four values of the disc before. */
  lemma Bfly4Widens(h: int, j: int, f: Four, tw: Three, inverse: bool)
    requires Room(h, j) && h % 2 == 0 && j >= 1 && AllWithin(h, j, f)
    requires IsTwiddle(h, tw.tw1) && IsTwiddle(h, tw.tw2) && IsTwiddle(h, tw.tw3)
    ensures var r := Bfly4(h, f, tw, inverse); r.warnings == 0 && !r.lost && AllWithin(h, j - 1, r.f)
  {
    var p, q := QuarterBounds(h, j);
    DividedInside(h, j, f.f0, 4, h / 2 - 1, p);
    DividedTurned(h, j, f.f1, 4, tw.tw1, p, q, h / 2);
    DividedTurned(h, j, f.f2, 4, tw.tw2, p, q, h / 2);
    DividedTurned(h, j, f.f3, 4, tw.tw3, p, q, h / 2);
    CrossExact(h, CFixDiv(h, f.f0, 4), CMul(h, CFixDiv(h, f.f1, 4), tw.tw1), CMul(h, CFixDiv(h, f.f2, 4), tw.tw2),
               CMul(h, CFixDiv(h, f.f3, 4), tw.tw3), inverse, p, q, h / 2, Radius(h, j - 1));
  }

  /** A butterfly on one value and three equal ones, with equal twiddles. */
  lemma FirstOfFour(h: int, c0: Complex, c: Complex, t1: Complex, a: Complex, t: Complex) returns (f: Four, tw: Three)
    requires h >= 1 && a == CFixDiv(h, c0, 4) && t == CMul(h, CFixDiv(h, c, 4), t1)
    ensures f == Four(c0, c, c, c) && tw == Three(t1, t1, t1)
    ensures Bfly4(h, f, tw, false).f.f0 == CAdd(h, CAdd(h, a, t), CAdd(h, t, t))
  {
    f, tw := Four(c0, c, c, c), Three(t1, t1, t1);
  }

  lemma NormIs(c: Complex, x: int, y: int, n: int)
    requires c == Complex(x, y) && x * x + y * y == n
    ensures InDisc(Q15, c) <==> n <= 1073676289
  {
    assert Max(Q15) * Max(Q15) == 32767 * 32767;
  }

  /** That the discs widen is no slack of the proof: four values of the disc of radius
      SAMP_MAX can leave it. */
  lemma DiscNotKept() returns (f: Four, tw: Three)
    ensures IsTwiddle(Q15, tw.tw1) && IsTwiddle(Q15, tw.tw2) && IsTwiddle(Q15, tw.tw3)
    ensures InDisc(Q15, f.f0) && InDisc(Q15, f.f1) && InDisc(Q15, f.f2) && InDisc(Q15, f.f3)
    ensures !InDisc(Q15, Bfly4(Q15, f, tw, false).f.f0)
  {
    var c0, c, t1 := Complex(22981, 23357), Complex(22453, 23865), Complex(32757, -826);
    var a, t := Complex(5745, 5839), Complex(5762, 5823);
    NormIs(c0, 22981, 23357, 1073675810);
    NormIs(c, 22453, 23865, 1073675434);
    QuartersAndTurns();
    OnCircle();
    NormIs(CAdd(Q15, CAdd(Q15, a, t), CAdd(Q15, t, t)), 23031, 23308, 1073689825);
    f, tw := FirstOfFour(Q15, c0, c, t1, a, t);
  }

  lemma QuartersAndTurns()
    ensures CFixDiv(Q15, Complex(22981, 23357), 4) == Complex(5745, 5839)
    ensures CMul(Q15, CFixDiv(Q15, Complex(22453, 23865), 4), Complex(32757, -826)) == Complex(5762, 5823)
    ensures var a, t := Complex(5745, 5839), Complex(5762, 5823);
      CAdd(Q15, CAdd(Q15, a, t), CAdd(Q15, t, t)) == Complex(23031, 23308)
  {
    assert CFixDiv(Q15, Complex(22453, 23865), 4) == Complex(5613, 5966);
  }

  lemma OnCircle()
    ensures IsTwiddle(Q15, Complex(32757, -826))
  {
    assert NearCircle(32767.0, 32757.0, -826.0, 56635.0 / 56653.0, -1428.0 / 56653.0);
  }
}
