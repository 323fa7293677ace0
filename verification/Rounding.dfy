/** How far the fixed-point butterflies of codec2-1.2.0/src/kiss_fft.c are from the two-point
    and four-point transforms of exact complex numbers. */
module Rounding {
  import opened FixedPoint
  import opened Butterfly
  import O = Oscillator
  import D = Dft

  type Comp = O.Comp

  function Point(c: Complex): Comp { O.Comp(c.r as real, c.i as real) }

  function Minus(a: Comp, b: Comp): Comp { O.Comp(a.re - b.re, a.im - b.im) }

  /** Of length at most e. */
  predicate Small(a: Comp, e: real) { e >= 0.0 && Len2(a.re, a.im) <= e * e }

  /** Within e of an exact value. */
  predicate Close(v: Complex, x: Comp, e: real) { Small(Minus(Point(v), x), e) }

  // ----- Errors add up

  lemma SmallPlus(a: Comp, b: Comp, e: real, f: real)
    requires Small(a, e) && Small(b, f)
    ensures Small(D.Plus(a, b), e + f) && Small(Minus(a, b), e + f)
  {
    Triangle(a.re, a.im, b.re, b.im, e, f);
  }

  lemma SmallScaled(r: real, a: Comp, e: real)
    requires r >= 0.0 && Small(a, e)
    ensures Small(D.Scaled(r, a), r * e)
  {
    ScaledLength(r, a.re, a.im, e);
    NonnegProduct(r, e);
  }

  lemma SmallTimes(a: Comp, u: Comp, e: real, f: real)
    requires Small(a, e) && Small(u, f)
    ensures Small(O.CMult(a, u), e * f)
  {
    O.MultNorm(a, u);
    NonnegProduct(e, f);
    LengthOfProduct(Len2(a.re, a.im), Len2(u.re, u.im), e, f);
  }

  lemma SmallGrows(a: Comp, e: real, f: real)
    requires Small(a, e) && e <= f
    ensures Small(a, f)
  {
    SquareMonotone(e, f);
  }

  lemma Closer(v: Complex, x: Comp, e: real, f: real)
    requires Close(v, x, e) && e <= f
    ensures Close(v, x, f)
  {
    SmallGrows(Minus(Point(v), x), e, f);
  }

  lemma CloseSum(v: Complex, w: Complex, x: Comp, y: Comp, e: real, f: real)
    requires Close(v, x, e) && Close(w, y, f)
    ensures Close(Sum2(v, w), D.Plus(x, y), e + f) && Close(Diff2(v, w), Minus(x, y), e + f)
  {
    var a, b := Minus(Point(v), x), Minus(Point(w), y);
    SmallPlus(a, b, e, f);
    assert Minus(Point(Sum2(v, w)), D.Plus(x, y)) == D.Plus(a, b);
    assert Minus(Point(Diff2(v, w)), Minus(x, y)) == Minus(a, b);
  }

  lemma CloseTurned(v: Complex, x: Comp, e: real)
    requires Close(v, x, e)
    ensures Close(Turned(v), O.Comp(x.im, -x.re), e)
  {
    var a := Minus(Point(v), x);
    TurnedLength(a.re, a.im);
    assert Minus(Point(Turned(v)), O.Comp(x.im, -x.re)) == O.Comp(a.im, -a.re);
  }

  // ----- C_FIXDIV

  /** An error e that, times d, is within half of d of w in both components. */
  lemma ErrorLength(d: real, e: Comp, w: Comp, a: real, p: real)
    requires d > 0.0 && p >= 0.0 && Small(w, a) && a + 0.7072 * d <= d * p
    requires -0.5 * d <= d * e.re - w.re <= 0.5 * d && -0.5 * d <= d * e.im - w.im <= 0.5 * d
    ensures Small(e, p)
  {
    RoundedLength(d, e.re, e.im, w.re, w.im, a, p);
  }

  lemma NegatedShort(c: Complex, m: real)
    requires m >= 0.0 && Short(c, m)
    ensures Small(D.Negated(Point(c)), m)
  {}

  /** Dividing by n multiplies by a factor g just below 2h / n. */
  lemma FactorGap(h: int, c: Complex, n: int, g: int, s: real, d: real, v: Complex) returns (e: Comp)
    requires h >= 1 && n >= 1 && n * g == 2 * h - n && s * n as real == 1.0 && d == (2 * h) as real
    requires v == Complex(Round(h, c.r * g), Round(h, c.i * g))
    ensures e == Minus(Point(v), D.Scaled(s, Point(c)))
    ensures -0.5 * d <= d * e.re + c.r as real <= 0.5 * d && -0.5 * d <= d * e.im + c.i as real <= 0.5 * d
  {
    e := Minus(Point(v), D.Scaled(s, Point(c)));
    FactorPart(h, c.r, n, g, s, d, v.r, e.re);
    FactorPart(h, c.i, n, g, s, d, v.i, e.im);
  }

  lemma GapLength(d: real, c: Complex, e: Comp, m: real)
    requires d > 0.0 && m >= 0.0 && Short(c, m) && m + 0.7072 * d <= d * 1.75
    requires -0.5 * d <= d * e.re + c.r as real <= 0.5 * d && -0.5 * d <= d * e.im + c.i as real <= 0.5 * d
    ensures Small(e, 1.75)
  {
    NegatedShort(c, m);
    ErrorLength(d, e, D.Negated(Point(c)), m, 1.75);
  }

  lemma FactorPart(h: int, x: int, n: int, g: int, s: real, d: real, v: int, e: real)
    requires h >= 1 && n >= 1 && n * g == 2 * h - n && s * n as real == 1.0 && d == (2 * h) as real
    requires v == Round(h, x * g) && e == v as real - s * x as real
    ensures -0.5 * d <= d * e + x as real <= 0.5 * d
  {
    RoundReal(h, x * g);
    RealProduct(x, g);
    RealProduct(n, g);
    FactorSplit(d, x as real, n as real, g as real, s, v as real);
  }

  lemma FactorSplit(d: real, x: real, n: real, g: real, s: real, v: real)
    requires n * g == d - n && s * n == 1.0
    ensures d * (v - s * x) + x == d * v - x * g
  {
    Cancel(s, n, g, d);
    assert d * (s * x) == (s * d) * x;
  }

  lemma Cancel(s: real, n: real, g: real, d: real)
    requires n * g == d - n && s * n == 1.0
    ensures s * d == g + 1.0
  {
    assert s * (n * g) == (s * n) * g;
    assert s * (d - n) == s * d - s * n;
  }

  predicate Halves(h: int, j: int, n: int) { Room(h, j) && (n == 2 || (n == 4 && h % 2 == 0)) }

  lemma FactorIs(h: int, n: int)
    requires h >= 4 && (n == 2 || (n == 4 && h % 2 == 0))
    ensures 1 <= n && n * (Max(h) / n) == 2 * h - n
  {
    if n == 2 { assert Max(h) / 2 == h - 1; } else { assert Max(h) / 4 == h / 2 - 1; }
  }

  lemma RadiusFits(h: int, j: int, d: real, m: real)
    requires Room(h, j) && d == (2 * h) as real && m == Radius(h, j)
    ensures d > 0.0 && m >= 0.0 && m + 0.7072 * d <= d * 1.75
  {}

  /** C_FIXDIV by two or four is within 1.75 of the exact quotient. */
  lemma DividedClose(h: int, j: int, c: Complex, n: int, s: real)
    requires Halves(h, j, n) && Within(h, j, c) && s * n as real == 1.0
    ensures Close(Divided(h, c, n), D.Scaled(s, Point(c)), 1.75)
  {
    var d, m := (2 * h) as real, Radius(h, j);
    RadiusFits(h, j, d, m);
    var e := DividedGap(h, c, n, s, d, Divided(h, c, n));
    GapLength(d, c, e, m);
  }

  lemma DividedGap(h: int, c: Complex, n: int, s: real, d: real, v: Complex) returns (e: Comp)
    requires h >= 4 && (n == 2 || (n == 4 && h % 2 == 0)) && s * n as real == 1.0
    requires d == (2 * h) as real && v == Divided(h, c, n)
    ensures e == Minus(Point(v), D.Scaled(s, Point(c)))
    ensures -0.5 * d <= d * e.re + c.r as real <= 0.5 * d && -0.5 * d <= d * e.im + c.i as real <= 0.5 * d
  {
    FactorIs(h, n);
    e := FactorGap(h, c, n, Max(h) / n, s, d, v);
  }

  // ----- C_MUL

  /** The nearest scalars to SAMP_MAX times a point of the unit circle. */
  predicate IsTwiddleOf(h: int, tw: Complex, u: Comp) {
    && O.Unit(u)
    && -0.5 <= tw.r as real - Max(h) as real * u.re <= 0.5 && -0.5 <= tw.i as real - Max(h) as real * u.im <= 0.5
  }

  /** What a twiddle lacks to 2h times the exact one. */
  lemma TwiddleError(h: int, tw: Complex, u: Comp)
    requires h >= 1 && IsTwiddleOf(h, tw, u)
    ensures Small(Minus(Point(tw), D.Scaled((2 * h) as real, u)), 1.7072)
  {
    var w := Minus(Point(tw), D.Scaled((2 * h) as real, u));
    NearLength(w.re, w.im, -u.re, -u.im, 1.0, 1.0);
  }

  lemma ProductSplit(b: Comp, tw: Comp, d: real, u: Comp)
    ensures O.CMult(b, tw) == D.Plus(D.Scaled(d, O.CMult(b, u)), O.CMult(b, Minus(tw, D.Scaled(d, u))))
  {
    O.MultCommutes(b, u);
    D.ScaledTimes(d, u, b);
    O.MultCommutes(b, D.Scaled(d, u));
    D.MultDistributes(b, D.Scaled(d, u), Minus(tw, D.Scaled(d, u)));
  }

  /** C_MUL rounds both components of the product to a multiple of d = 2h. */
  lemma PointProduct(h: int, b: Complex, tw: Complex, d: real, v: Complex, w: Comp)
    requires h >= 1 && d == (2 * h) as real && v == Product(h, b, tw) && w == O.CMult(Point(b), Point(tw))
    ensures -0.5 * d <= d * v.r as real - w.re <= 0.5 * d && -0.5 * d <= d * v.i as real - w.im <= 0.5 * d
  {
    RoundReal(h, b.r * tw.r - b.i * tw.i);
    RoundReal(h, b.r * tw.i + b.i * tw.r);
    RealProduct(b.r, tw.r);
    RealProduct(b.i, tw.i);
    RealProduct(b.r, tw.i);
    RealProduct(b.i, tw.r);
  }

  /** The product with a twiddle as 2h times the exact product and a rest. */
  lemma ProductParts(b: Comp, tw: Comp, d: real, u: Comp, p: real, t: real) returns (bu: Comp, bw: Comp, w: Comp)
    requires Small(b, p) && Small(Minus(tw, D.Scaled(d, u)), t)
    ensures bu == O.CMult(b, u) && w == O.CMult(b, tw)
    ensures Small(bw, p * t) && w == D.Plus(D.Scaled(d, bu), bw)
  {
    bu, bw, w := O.CMult(b, u), O.CMult(b, Minus(tw, D.Scaled(d, u))), O.CMult(b, tw);
    SmallTimes(b, Minus(tw, D.Scaled(d, u)), p, t);
    ProductSplit(b, tw, d, u);
  }

  /** C_MUL by a twiddle is within q of the exact product, for a value of length p. */
  lemma ProductClose(h: int, b: Complex, tw: Complex, u: Comp, p: real, q: real)
    requires h >= 1 && IsTwiddleOf(h, tw, u) && p >= 0.0 && q >= 0.0 && Short(b, p)
    requires p * 1.7072 + 0.7072 * (2 * h) as real <= (2 * h) as real * q
    ensures Close(Product(h, b, tw), O.CMult(Point(b), u), q)
  {
    var d, v := (2 * h) as real, Product(h, b, tw);
    TwiddleError(h, tw, u);
    var bu, bw, w := ProductParts(Point(b), Point(tw), d, u, p, 1.7072);
    PointProduct(h, b, tw, d, v, w);
    var e := ProductGap(d, v, bu, bw, w);
    ErrorLength(d, e, bw, p * 1.7072, q);
  }

  lemma ProductGap(d: real, v: Complex, bu: Comp, bw: Comp, w: Comp) returns (e: Comp)
    requires w == D.Plus(D.Scaled(d, bu), bw)
    requires -0.5 * d <= d * v.r as real - w.re <= 0.5 * d && -0.5 * d <= d * v.i as real - w.im <= 0.5 * d
    ensures e == Minus(Point(v), bu)
    ensures -0.5 * d <= d * e.re - bw.re <= 0.5 * d && -0.5 * d <= d * e.im - bw.im <= 0.5 * d
  {
    e := Minus(Point(v), bu);
    ScaledGap(d, v.r as real, bu.re, bw.re, w.re);
    ScaledGap(d, v.i as real, bu.im, bw.im, w.im);
  }

  lemma ScaledGap(d: real, v: real, bu: real, bw: real, w: real)
    requires w == d * bu + bw && -0.5 * d <= d * v - w <= 0.5 * d
    ensures -0.5 * d <= d * (v - bu) - bw <= 0.5 * d
  {}

  // ----- A quotient times a twiddle

  lemma TimesMinus(a: Comp, b: Comp, u: Comp)
    ensures O.CMult(Minus(a, b), u) == Minus(O.CMult(a, u), O.CMult(b, u))
  {}

  lemma Telescope(v: Comp, bu: Comp, fu: Comp, xu: Comp, s: real)
    ensures Minus(v, D.Scaled(s, xu))
         == D.Plus(D.Plus(Minus(v, bu), Minus(bu, D.Scaled(s, fu))), D.Scaled(s, Minus(fu, xu)))
  {}

  lemma QuotientError(b: Complex, f: Complex, s: real, x: Comp, e: real)
    requires s >= 0.0 && Close(b, D.Scaled(s, Point(f)), 1.75) && Close(f, x, e)
    ensures Close(b, D.Scaled(s, x), 1.75 + s * e)
  {
    SmallScaled(s, Minus(Point(f), x), e);
    SmallPlus(Minus(Point(b), D.Scaled(s, Point(f))), D.Scaled(s, Minus(Point(f), x)), 1.75, s * e);
    Telescope(Point(b), D.Scaled(s, Point(f)), Point(f), x, s);
    assert Minus(D.Scaled(s, Point(f)), D.Scaled(s, Point(f))) == D.ZERO;
  }

  lemma UnitTimes(a: Comp, u: Comp, e: real)
    requires O.Unit(u) && Small(a, e)
    ensures Small(O.CMult(a, u), e)
  {
    assert Small(u, 1.0);
    SmallTimes(a, u, e, 1.0);
  }

  /** The errors of a product with a unit, of a quotient, and of the value divided. */
  lemma TurnedError(v: Complex, b: Complex, f: Complex, s: real, u: Comp, x: Comp, q: real, e: real, xu: Comp)
    requires s >= 0.0 && O.Unit(u) && xu == O.CMult(x, u)
    requires Close(v, O.CMult(Point(b), u), q) && Close(b, D.Scaled(s, Point(f)), 1.75) && Close(f, x, e)
    ensures Close(v, D.Scaled(s, xu), q + 1.75 + s * e)
  {
    var bu, fu := O.CMult(Point(b), u), O.CMult(Point(f), u);
    UnitTimes(Minus(Point(b), D.Scaled(s, Point(f))), u, 1.75);
    TimesMinus(Point(b), D.Scaled(s, Point(f)), u);
    D.ScaledTimes(s, Point(f), u);
    UnitTimes(Minus(Point(f), x), u, e);
    TimesMinus(Point(f), x, u);
    ErrorsJoin(Point(v), bu, fu, xu, s, q, e);
  }

  lemma ErrorsJoin(v: Comp, bu: Comp, fu: Comp, xu: Comp, s: real, q: real, e: real)
    requires s >= 0.0 && Small(Minus(v, bu), q) && Small(Minus(bu, D.Scaled(s, fu)), 1.75) && Small(Minus(fu, xu), e)
    ensures Small(Minus(v, D.Scaled(s, xu)), q + 1.75 + s * e)
  {
    SmallScaled(s, Minus(fu, xu), e);
    SmallPlus(Minus(v, bu), Minus(bu, D.Scaled(s, fu)), q, 1.75);
    SmallPlus(D.Plus(Minus(v, bu), Minus(bu, D.Scaled(s, fu))), D.Scaled(s, Minus(fu, xu)), q + 1.75, s * e);
    Telescope(v, bu, fu, xu, s);
  }

  /** A value divided by n and turned by a twiddle, as the butterflies do. */
  lemma TurnedClose(h: int, j: int, f: Complex, n: int, s: real, tw: Complex, u: Comp, x: Comp, p: real, q: real,
                    e: real)
    requires Halves(h, j, n) && Within(h, j, f) && s >= 0.0 && s * n as real == 1.0 && IsTwiddleOf(h, tw, u)
    requires p >= 0.0 && q >= 0.0 && Short(Divided(h, f, n), p)
    requires p * 1.7072 + 0.7072 * (2 * h) as real <= (2 * h) as real * q && Close(f, x, e)
    ensures Close(Product(h, Divided(h, f, n), tw), D.Scaled(s, O.CMult(x, u)), q + 1.75 + s * e)
  {
    DividedClose(h, j, f, n, s);
    ProductClose(h, Divided(h, f, n), tw, u, p, q);
    TurnedError(Product(h, Divided(h, f, n), tw), Divided(h, f, n), f, s, u, x, q, e, O.CMult(x, u));
  }

  lemma QuotientClose(h: int, j: int, f: Complex, n: int, s: real, x: Comp, e: real)
    requires Halves(h, j, n) && Within(h, j, f) && s >= 0.0 && s * n as real == 1.0 && Close(f, x, e)
    ensures Close(Divided(h, f, n), D.Scaled(s, x), 1.75 + s * e)
  {
    DividedClose(h, j, f, n, s);
    QuotientError(Divided(h, f, n), f, s, x, e);
  }

  lemma TwiddleIs(h: int, tw: Complex, u: Comp)
    requires IsTwiddleOf(h, tw, u)
    ensures IsTwiddle(h, tw)
  {
    assert NearCircle(Max(h) as real, tw.r as real, tw.i as real, u.re, u.im);
  }

  // ----- Radix 2

  /** kf_bfly2's results are within six of half the sum and half the difference of the first
      value and the turned second, and an error e of the values stays as it is. */
  lemma Bfly2Close(h: int, j: int, f: Complex, f2: Complex, tw: Complex, u: Comp, x: Comp, y: Comp, e: real)
    requires Room(h, j) && j >= 3 && Within(h, j, f) && Within(h, j, f2) && IsTwiddleOf(h, tw, u)
    requires Close(f, x, e) && Close(f2, y, e)
    ensures var p, t := Bfly2(h, f, f2, tw), O.CMult(y, u);
      && Close(p.f, D.Scaled(0.5, D.Plus(x, t)), e + 6.0)
      && Close(p.f2, D.Scaled(0.5, D.Plus(x, D.Negated(t))), e + 6.0)
  {
    TwiddleIs(h, tw, u);
    Bfly2StaysInDisc(h, j, f, f2, tw);
    HalvesClose(h, j, f, f2, tw, u, x, y, e);
    TwoClose(Divided(h, f, 2), Product(h, Divided(h, f2, 2), tw), x, O.CMult(y, u), e);
  }

  lemma HalvesClose(h: int, j: int, f: Complex, f2: Complex, tw: Complex, u: Comp, x: Comp, y: Comp, e: real)
    requires Room(h, j) && j >= 3 && Within(h, j, f) && Within(h, j, f2) && IsTwiddleOf(h, tw, u)
    requires Close(f, x, e) && Close(f2, y, e)
    ensures Close(Divided(h, f, 2), D.Scaled(0.5, x), 1.75 + 0.5 * e)
    ensures Close(Product(h, Divided(h, f2, 2), tw), D.Scaled(0.5, O.CMult(y, u)), 3.35 + 0.5 * e)
  {
    var p, q := HalfBounds(h, j);
    DividedInside(h, j, f2, 2, h - 1, p);
    QuotientClose(h, j, f, 2, 0.5, x, e);
    TurnedClose(h, j, f2, 2, 0.5, tw, u, y, p, 1.6, e);
  }

  lemma TwoClose(a: Complex, t: Complex, x: Comp, y: Comp, e: real)
    requires Close(a, D.Scaled(0.5, x), 1.75 + 0.5 * e) && Close(t, D.Scaled(0.5, y), 3.35 + 0.5 * e)
    ensures Close(Sum2(a, t), D.Scaled(0.5, D.Plus(x, y)), e + 6.0)
    ensures Close(Diff2(a, t), D.Scaled(0.5, D.Plus(x, D.Negated(y))), e + 6.0)
  {
    var s, d := D.Scaled(0.5, D.Plus(x, y)), D.Scaled(0.5, D.Plus(x, D.Negated(y)));
    CloseSum(a, t, D.Scaled(0.5, x), D.Scaled(0.5, y), 1.75 + 0.5 * e, 3.35 + 0.5 * e);
    assert D.Plus(D.Scaled(0.5, x), D.Scaled(0.5, y)) == s && Minus(D.Scaled(0.5, x), D.Scaled(0.5, y)) == d;
    Closer(Sum2(a, t), s, e + 5.1, e + 6.0);
    Closer(Diff2(a, t), d, e + 5.1, e + 6.0);
  }

  // ----- Radix 4

  /** The cross makes the four-point transform of its values. */
  lemma CrossClose(a: Complex, t0: Complex, t1: Complex, t2: Complex, inverse: bool, i: nat,
                   x: Comp, y: Comp, z: Comp, w: Comp, e: real, f: real)
    requires Close(a, x, e) && Close(t0, y, f) && Close(t1, z, f) && Close(t2, w, f) && i < 4
    ensures Close(Entry(ExactCross(a, t0, t1, t2, inverse), i), D.FourPoint(x, y, z, w, inverse, i), e + 3.0 * f)
  {
    CloseSum(a, t1, x, z, e, f);
    CloseSum(t0, t2, y, w, f, f);
    CloseTurned(Diff2(t0, t2), Minus(y, w), 2.0 * f);
    CloseSum(Sum2(a, t1), Sum2(t0, t2), D.Plus(x, z), D.Plus(y, w), e + f, 2.0 * f);
    var ty := O.Comp(Minus(y, w).im, -Minus(y, w).re);
    CloseSum(Diff2(a, t1), Turned(Diff2(t0, t2)), Minus(x, z), ty, e + f, 2.0 * f);
    FourOf(x, y, z, w, inverse, i);
  }

  lemma FourOf(x: Comp, y: Comp, z: Comp, w: Comp, inverse: bool, i: nat)
    requires i < 4
    ensures var d := Minus(y, w); var ty := O.Comp(d.im, -d.re);
      D.FourPoint(x, y, z, w, inverse, i)
      == if i == 0 then D.Plus(D.Plus(x, z), D.Plus(y, w))
         else if i == 2 then Minus(D.Plus(x, z), D.Plus(y, w))
         else if (i == 1) != inverse then D.Plus(Minus(x, z), ty)
         else Minus(Minus(x, z), ty)
  {}

  lemma FourTerms(s: real, a: real, b: real, c: real, d: real)
    ensures s * a + s * b + s * c + s * d == s * (a + b + c + d)
    ensures s * a - s * b + s * c - s * d == s * (a - b + c - d)
    ensures s * a + s * b - s * c - s * d == s * (a + b - c - d)
    ensures s * a - s * b - s * c + s * d == s * (a - b - c + d)
  {}

  lemma FourScaled(s: real, x: Comp, y: Comp, z: Comp, w: Comp, inverse: bool, i: nat)
    requires i < 4
    ensures D.FourPoint(D.Scaled(s, x), D.Scaled(s, y), D.Scaled(s, z), D.Scaled(s, w), inverse, i)
         == D.Scaled(s, D.FourPoint(x, y, z, w, inverse, i))
  {
    if i == 0 || i == 2 {
      FourTerms(s, x.re, y.re, z.re, w.re);
      FourTerms(s, x.im, y.im, z.im, w.im);
    } else {
      FourTerms(s, x.re, y.im, z.re, w.im);
      FourTerms(s, x.im, y.re, z.im, w.re);
    }
  }

  lemma QuarterClose(h: int, j: int, f: Complex, tw: Complex, u: Comp, x: Comp, e: real)
    requires Room(h, j) && h % 2 == 0 && j >= 1 && Within(h, j, f) && IsTwiddleOf(h, tw, u) && Close(f, x, e)
    ensures Close(Product(h, Divided(h, f, 4), tw), D.Scaled(0.25, O.CMult(x, u)), 2.95 + 0.25 * e)
  {
    var p, q := QuarterBounds(h, j);
    DividedInside(h, j, f, 4, h / 2 - 1, p);
    TurnedClose(h, j, f, 4, 0.25, tw, u, x, p, 1.2, e);
  }

  predicate FourClose(f: Four, x: Comp, y: Comp, z: Comp, w: Comp, e: real) {
    Close(f.f0, x, e) && Close(f.f1, y, e) && Close(f.f2, z, e) && Close(f.f3, w, e)
  }

  predicate AreTwiddlesOf(h: int, tw: Three, u1: Comp, u2: Comp, u3: Comp) {
    IsTwiddleOf(h, tw.tw1, u1) && IsTwiddleOf(h, tw.tw2, u2) && IsTwiddleOf(h, tw.tw3, u3)
  }

  lemma Bfly4Exact(h: int, j: int, f: Four, tw: Three, inverse: bool, u1: Comp, u2: Comp, u3: Comp)
    requires Room(h, j) && h % 2 == 0 && j >= 1 && AllWithin(h, j, f) && AreTwiddlesOf(h, tw, u1, u2, u3)
    ensures Bfly4(h, f, tw, inverse).f == ExactBfly4(h, f, tw, inverse)
    ensures AllWithin(h, j - 1, Bfly4(h, f, tw, inverse).f)
  {
    TwiddleIs(h, tw.tw1, u1);
    TwiddleIs(h, tw.tw2, u2);
    TwiddleIs(h, tw.tw3, u3);
    Bfly4Widens(h, j, f, tw, inverse);
  }

  lemma ExactBfly4Close(h: int, j: int, f: Four, tw: Three, inverse: bool, i: nat, u1: Comp, u2: Comp, u3: Comp,
                        x: Comp, y: Comp, z: Comp, w: Comp, e: real, yu: Comp, zu: Comp, wu: Comp)
    requires Room(h, j) && h % 2 == 0 && j >= 1 && AllWithin(h, j, f) && AreTwiddlesOf(h, tw, u1, u2, u3) && i < 4
    requires FourClose(f, x, y, z, w, e) && yu == O.CMult(y, u1) && zu == O.CMult(z, u2) && wu == O.CMult(w, u3)
    ensures Close(Entry(ExactBfly4(h, f, tw, inverse), i), D.Scaled(0.25, D.FourPoint(x, yu, zu, wu, inverse, i)),
                  e + 11.0)
  {
    QuotientClose(h, j, f.f0, 4, 0.25, x, e);
    QuarterClose(h, j, f.f1, tw.tw1, u1, y, e);
    QuarterClose(h, j, f.f2, tw.tw2, u2, z, e);
    QuarterClose(h, j, f.f3, tw.tw3, u3, w, e);
    CrossOfQuarters(Divided(h, f.f0, 4), Product(h, Divided(h, f.f1, 4), tw.tw1),
                    Product(h, Divided(h, f.f2, 4), tw.tw2), Product(h, Divided(h, f.f3, 4), tw.tw3), inverse, i, x,
                    yu, zu, wu, e);
  }

  /** kf_bfly4's i-th result is within eleven of a quarter of the i-th output of the
      four-point transform, with the powers of -i, of the first value and the three others
      turned, and an error e of the values stays as it is. */
  lemma Bfly4Close(h: int, j: int, f: Four, tw: Three, inverse: bool, i: nat, u1: Comp, u2: Comp, u3: Comp,
                   x: Comp, y: Comp, z: Comp, w: Comp, e: real)
    requires Room(h, j) && h % 2 == 0 && j >= 1 && AllWithin(h, j, f) && AreTwiddlesOf(h, tw, u1, u2, u3) && i < 4
    requires FourClose(f, x, y, z, w, e)
    ensures Within(h, j - 1, Entry(Bfly4(h, f, tw, inverse).f, i))
    ensures var yu, zu, wu := O.CMult(y, u1), O.CMult(z, u2), O.CMult(w, u3);
      Close(Entry(Bfly4(h, f, tw, inverse).f, i), D.Scaled(0.25, D.FourPoint(x, yu, zu, wu, inverse, i)), e + 11.0)
  {
    Bfly4Exact(h, j, f, tw, inverse, u1, u2, u3);
    ExactBfly4Close(h, j, f, tw, inverse, i, u1, u2, u3, x, y, z, w, e, O.CMult(y, u1), O.CMult(z, u2), O.CMult(w, u3));
  }

  lemma CrossOfQuarters(a: Complex, t0: Complex, t1: Complex, t2: Complex, inverse: bool, i: nat,
                        x: Comp, y: Comp, z: Comp, w: Comp, e: real)
    requires Close(a, D.Scaled(0.25, x), 1.75 + 0.25 * e) && Close(t0, D.Scaled(0.25, y), 2.95 + 0.25 * e)
    requires Close(t1, D.Scaled(0.25, z), 2.95 + 0.25 * e) && Close(t2, D.Scaled(0.25, w), 2.95 + 0.25 * e) && i < 4
    ensures var c := ExactCross(a, t0, t1, t2, inverse);
      Close(Entry(c, i), D.Scaled(0.25, D.FourPoint(x, y, z, w, inverse, i)), e + 11.0)
  {
    var v := Entry(ExactCross(a, t0, t1, t2, inverse), i);
    CrossClose(a, t0, t1, t2, inverse, i, D.Scaled(0.25, x), D.Scaled(0.25, y), D.Scaled(0.25, z), D.Scaled(0.25, w),
               1.75 + 0.25 * e, 2.95 + 0.25 * e);
    FourScaled(0.25, x, y, z, w, inverse, i);
    Closer(v, D.Scaled(0.25, D.FourPoint(x, y, z, w, inverse, i)), e + 10.6, e + 11.0);
  }

  /** Four values within e of a quarter of a + b + c + d, a - ib - c + id, a - b + c - d and
      a + ib - c - id, the second and the fourth exchanged for the inverse. */
  predicate AreFourPoint(r: Four, a: Comp, b: Comp, c: Comp, d: Comp, inverse: bool, e: real) {
    var second := O.Comp(0.25 * (a.re + b.im - c.re - d.im), 0.25 * (a.im - b.re - c.im + d.re));
    var fourth := O.Comp(0.25 * (a.re - b.im - c.re + d.im), 0.25 * (a.im + b.re - c.im - d.re));
    && Close(r.f0, O.Comp(0.25 * (a.re + b.re + c.re + d.re), 0.25 * (a.im + b.im + c.im + d.im)), e)
    && Close(r.f1, if inverse then fourth else second, e)
    && Close(r.f2, O.Comp(0.25 * (a.re - b.re + c.re - d.re), 0.25 * (a.im - b.im + c.im - d.im)), e)
    && Close(r.f3, if inverse then second else fourth, e)
  }

  lemma InComponents(r: Four, a: Comp, b: Comp, c: Comp, d: Comp, inverse: bool, e: real)
    requires Close(r.f0, D.Scaled(0.25, D.FourPoint(a, b, c, d, inverse, 0)), e)
    requires Close(r.f1, D.Scaled(0.25, D.FourPoint(a, b, c, d, inverse, 1)), e)
    requires Close(r.f2, D.Scaled(0.25, D.FourPoint(a, b, c, d, inverse, 2)), e)
    requires Close(r.f3, D.Scaled(0.25, D.FourPoint(a, b, c, d, inverse, 3)), e)
    ensures AreFourPoint(r, a, b, c, d, inverse, e)
  {}

  /** kf_bfly4's four results in components, each within eleven, for b, c and d the exact
      values turned. */
  lemma Bfly4Outputs(h: int, j: int, f: Four, tw: Three, inverse: bool, u1: Comp, u2: Comp, u3: Comp, b: Comp, c: Comp,
                     d: Comp)
    requires Room(h, j) && h % 2 == 0 && j >= 1 && AllWithin(h, j, f) && AreTwiddlesOf(h, tw, u1, u2, u3)
    requires b == O.CMult(Point(f.f1), u1) && c == O.CMult(Point(f.f2), u2) && d == O.CMult(Point(f.f3), u3)
    ensures AreFourPoint(Bfly4(h, f, tw, inverse).f, Point(f.f0), b, c, d, inverse, 11.0)
  {
    OutputIn(h, j, f, tw, inverse, 0, u1, u2, u3, b, c, d);
    OutputIn(h, j, f, tw, inverse, 1, u1, u2, u3, b, c, d);
    OutputIn(h, j, f, tw, inverse, 2, u1, u2, u3, b, c, d);
    OutputIn(h, j, f, tw, inverse, 3, u1, u2, u3, b, c, d);
    InComponents(Bfly4(h, f, tw, inverse).f, Point(f.f0), b, c, d, inverse, 11.0);
  }

  lemma OutputIn(h: int, j: int, f: Four, tw: Three, inverse: bool, i: nat, u1: Comp, u2: Comp, u3: Comp, b: Comp,
                 c: Comp, d: Comp)
    requires Room(h, j) && h % 2 == 0 && j >= 1 && AllWithin(h, j, f) && AreTwiddlesOf(h, tw, u1, u2, u3) && i < 4
    requires b == O.CMult(Point(f.f1), u1) && c == O.CMult(Point(f.f2), u2) && d == O.CMult(Point(f.f3), u3)
    ensures Close(Entry(Bfly4(h, f, tw, inverse).f, i), D.Scaled(0.25, D.FourPoint(Point(f.f0), b, c, d, inverse, i)),
                  11.0)
  {
    Bfly4Close(h, j, f, tw, inverse, i, u1, u2, u3, Point(f.f0), Point(f.f1), Point(f.f2), Point(f.f3), 0.0);
  }
}
