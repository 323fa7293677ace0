/** The fixed-point branch of kiss FFT's macros (codec2-1.2.0/src/_kiss_fft_guts.h), for
    every word size: h is 2 to the power FRACBITS - 1, so that FRACBITS 15 and 31 are
    h = 2^14 and h = 2^30. Scalars have FRACBITS + 1 bits, products 2 * FRACBITS + 2. */
module FixedPoint {

  const Q15 := 0x4000

  /** SAMP_MAX. */
  function Max(h: int): int { 2 * h - 1 }

  datatype Complex = Complex(r: int, i: int)

  predicate IsScalar(h: int, x: int) { -2 * h <= x < 2 * h }

  predicate IsComplex(h: int, c: Complex) { IsScalar(h, c.r) && IsScalar(h, c.i) }

  /** The range of SAMPPROD. */
  predicate FitsProduct(h: int, x: int) { -8 * (h * h) <= x < 8 * (h * h) }

  /** Within SAMP_MIN..SAMP_MAX. */
  predicate InSamples(h: int, x: int) { -Max(h) <= x <= Max(h) }

  /** Conversion to kiss_fft_scalar: a value out of range keeps its low FRACBITS + 1 bits. */
  function Wrap(h: int, x: int): int
    requires h >= 1
  {
    if IsScalar(h, x) then x else (x + 2 * h) % (4 * h) - 2 * h
  }

  /** sround before the conversion: add one half, shift right. */
  function Round(h: int, x: int): int
    requires h >= 1
  {
    (x + h) / (2 * h)
  }

  function SRound(h: int, x: int): int
    requires h >= 1
  {
    Wrap(h, Round(h, x))
  }

  function CMul(h: int, a: Complex, b: Complex): Complex
    requires h >= 1
  {
    Complex(SRound(h, a.r * b.r - a.i * b.i), SRound(h, a.r * b.i + a.i * b.r))
  }

  function DivScalar(h: int, x: int, k: int): int
    requires h >= 1 && k >= 1
  {
    SRound(h, x * (Max(h) / k))
  }

  function CFixDiv(h: int, c: Complex, k: int): Complex
    requires h >= 1 && k >= 1
  {
    Complex(DivScalar(h, c.r, k), DivScalar(h, c.i, k))
  }

  function CAdd(h: int, a: Complex, b: Complex): Complex
    requires h >= 1
  {
    Complex(Wrap(h, a.r + b.r), Wrap(h, a.i + b.i))
  }

  function CSub(h: int, a: Complex, b: Complex): Complex
    requires h >= 1
  {
    Complex(Wrap(h, a.r - b.r), Wrap(h, a.i - b.i))
  }

  /** CHECK_OVERFLOW_OP on both components: how many warnings it prints. */
  function Warnings(h: int, r: int, i: int): nat {
    (if InSamples(h, r) then 0 else 1) + (if InSamples(h, i) then 0 else 1)
  }

  // ----- The macros in place

  class Cell {
    var r: int
    var i: int

    function Value(): Complex
      reads this
    {
      Complex(r, i)
    }
  }

  /** C_MUL. The macro reads its operands again after writing the real part, so that a
      destination that is also an operand gets an imaginary part made with the new one. */
  method CMulInto(h: int, m: Cell, a: Cell, b: Cell)
    requires h >= 1
    modifies m
    ensures m != a && m != b ==> m.Value() == CMul(h, a.Value(), b.Value())
    ensures m.r == CMul(h, old(a.Value()), old(b.Value())).r
    ensures m.i == SRound(h, (if m == a then m.r else old(a.r)) * old(b.i)
        + old(a.i) * (if m == b then m.r else old(b.r)))
  {
    m.r := SRound(h, a.r * b.r - a.i * b.i);
    m.i := SRound(h, a.r * b.i + a.i * b.r);
  }

  method CFixDivInPlace(h: int, c: Cell, k: int)
    requires h >= 1 && k >= 1
    modifies c
    ensures c.Value() == CFixDiv(h, old(c.Value()), k)
  {
    c.r := SRound(h, c.r * (Max(h) / k));
    c.i := SRound(h, c.i * (Max(h) / k));
  }

  method CAddTo(h: int, res: Cell, a: Cell) returns (warnings: nat)
    requires h >= 1
    modifies res
    ensures res.Value() == CAdd(h, old(res.Value()), old(a.Value()))
    ensures warnings == Warnings(h, old(res.r) + old(a.r), old(res.i) + old(a.i))
  {
    warnings := Warnings(h, res.r + a.r, res.i + a.i);
    var ai := a.i;
    res.r := Wrap(h, res.r + a.r);
    res.i := Wrap(h, res.i + ai);
  }

  method CSubFrom(h: int, res: Cell, a: Cell) returns (warnings: nat)
    requires h >= 1
    modifies res
    ensures res.Value() == CSub(h, old(res.Value()), old(a.Value()))
    ensures warnings == Warnings(h, old(res.r) - old(a.r), old(res.i) - old(a.i))
  {
    warnings := Warnings(h, res.r - a.r, res.i - a.i);
    var ai := a.i;
    res.r := Wrap(h, res.r - a.r);
    res.i := Wrap(h, res.i - ai);
  }

  /** One warning for each component below -SAMP_MAX or above SAMP_MAX. */
  lemma WarnsOutside(h: int, r: int, i: int)
    ensures Warnings(h, r, i) == 0 <==> -(2 * h - 1) <= r <= 2 * h - 1 && -(2 * h - 1) <= i <= 2 * h - 1
    ensures Warnings(h, r, i) == 2 <==>
      (r < -(2 * h - 1) || r > 2 * h - 1) && (i < -(2 * h - 1) || i > 2 * h - 1)
    ensures Warnings(h, r, i) <= 2
  {}

  // ----- Rounding

  /** Rounding is within one half unit of the exact quotient. */
  lemma RoundError(h: int, x: int)
    requires h >= 1
    ensures -h <= 2 * h * Round(h, x) - x <= h
  {}

  lemma QuotientBound(d: int, q: int, lo: int, hi: int)
    requires d >= 1 && d * lo - d < d * q < d * hi + d
    ensures lo <= q <= hi
  {
    if q > hi { MulMonotone(d, hi + 1, q); }
    if q < lo { MulMonotone(d, q, lo - 1); }
  }

  lemma MulMonotone(d: int, a: int, b: int)
    requires d >= 0 && a <= b
    ensures d * a <= d * b
  {}

  // ----- C_MUL does not overflow its product type

  /** The extreme products of two values in -s..s-1. */
  lemma ProductBound(s: int, a: int, b: int)
    requires s >= 1 && -s <= a <= s - 1 && -s <= b <= s - 1
    ensures -(s * s) + s <= a * b <= s * s
    ensures a * b > s * s - s ==> a == b == -s
  {
    MulMonotone(s, 1, s);
    if a >= 0 && b >= 0 {
      MixedProduct(s, a, b);
    } else if a >= 0 {
      MixedProduct(s, a, -b);
      NegateProduct(a, b);
    } else if b >= 0 {
      MixedProduct(s, b, -a);
      NegateProduct(b, a);
    } else {
      NegativeProduct(s, -a, -b);
      NegateProduct(-a, b);
      NegateProduct(b, a);
    }
  }

  lemma NegateProduct(a: int, b: int)
    ensures a * -b == -(a * b) == -(b * a)
  {}

  lemma MixedProduct(s: int, a: int, c: int)
    requires 0 <= a <= s - 1 && 0 <= c <= s
    ensures 0 <= a * c <= s * s - s
  {
    MulMonotone(a, 0, c);
    MulMonotone(a, c, s);
    MulMonotone(s, a, s - 1);
  }

  lemma NegativeProduct(s: int, c: int, d: int)
    requires 1 <= c <= s && 1 <= d <= s
    ensures 0 <= c * d <= s * s
    ensures c * d > s * s - s ==> c == d == s
  {
    MulMonotone(c, 0, d);
    MulMonotone(c, d, s);
    MulMonotone(s, c, s);
    if c < s { MixedProduct(s, c, d); }
    if d < s { MixedProduct(s, d, c); }
  }

  /** Over every scalar value, the sums C_MUL forms, with the rounding term, fit the product
      type unless all four components are the most negative scalar, when the imaginary part
      does not; SAMP_MIN..SAMP_MAX excludes that value. */
  lemma CMulFits(h: int, a: Complex, b: Complex)
    requires h >= 1 && IsComplex(h, a) && IsComplex(h, b)
    ensures FitsProduct(h, a.r * b.r - a.i * b.i) && FitsProduct(h, a.r * b.r - a.i * b.i + h)
    ensures FitsProduct(h, a.r * b.i + a.i * b.r) && FitsProduct(h, a.r * b.i + a.i * b.r + h)
       <==> !(a.r == a.i == b.r == b.i == -2 * h)
  {
    var s := 2 * h;
    var corner := a.r == a.i == b.r == b.i == -s;
    ProductBound(s, a.r, b.r);
    ProductBound(s, a.i, b.i);
    ProductBound(s, a.r, b.i);
    ProductBound(s, a.i, b.r);
    if corner { SquareOfNegative(s); }
    DoubleSquare(h);
    MulMonotone(h, 1, h);
    SumsFit(h, h * h, s * s, a.r * b.r, a.i * b.i, a.r * b.i, a.i * b.r, corner);
  }

  lemma SquareOfNegative(s: int)
    ensures -s * -s == s * s
  {}

  /** The last step, over plain numbers: hh for h * h, ss for 4 * hh, and p, q, u, v for the
      four products. */
  lemma SumsFit(h: int, hh: int, ss: int, p: int, q: int, u: int, v: int, corner: bool)
    requires 1 <= h <= hh && ss == 4 * hh
    requires -ss + 2 * h <= p <= ss && -ss + 2 * h <= q <= ss && -ss + 2 * h <= u <= ss && -ss + 2 * h <= v <= ss
    requires if corner then u == v == ss else u <= ss - 2 * h || v <= ss - 2 * h
    ensures -8 * hh <= p - q < 8 * hh && -8 * hh <= p - q + h < 8 * hh
    ensures (-8 * hh <= u + v < 8 * hh && -8 * hh <= u + v + h < 8 * hh) <==> !corner
  {}

  // ----- Inside the disc

  function Norm(c: Complex): int { c.r * c.r + c.i * c.i }

  /** In the disc of radius SAMP_MAX. */
  predicate InDisc(h: int, c: Complex) { Norm(c) <= Max(h) * Max(h) }

  lemma SquareBound(x: int, m: int)
    requires m >= 0 && x * x <= m * m
    ensures -m <= x <= m
  {}

  lemma DiscComponents(h: int, c: Complex)
    requires h >= 1 && InDisc(h, c)
    ensures InSamples(h, c.r) && InSamples(h, c.i)
  {
    assert c.r * c.r >= 0 && c.i * c.i >= 0;
    SquareBound(c.r, Max(h));
    SquareBound(c.i, Max(h));
  }

  lemma TwoSquares(a: Complex, b: Complex)
    ensures Norm(Complex(a.r * b.r - a.i * b.i, a.r * b.i + a.i * b.r)) == Norm(a) * Norm(b)
  {}

  /** For operands in the disc each product component rounds to within half a unit of the
      exact one, stays within SAMP_MIN..SAMP_MAX, and the conversion does not wrap. */
  lemma CMulInDisc(h: int, a: Complex, b: Complex)
    requires h >= 1 && InDisc(h, a) && InDisc(h, b)
    ensures var m := CMul(h, a, b);
      && InSamples(h, m.r) && InSamples(h, m.i)
      && -h <= 2 * h * m.r - (a.r * b.r - a.i * b.i) <= h
      && -h <= 2 * h * m.i - (a.r * b.i + a.i * b.r) <= h
  {
    var x, y := a.r * b.r - a.i * b.i, a.r * b.i + a.i * b.r;
    var d := Max(h) * Max(h);
    TwoSquares(a, b);
    NormProduct(Norm(a), Norm(b), d);
    assert x * x >= 0 && y * y >= 0;
    SquareBound(x, d);
    SquareBound(y, d);
    RoundInDisc(h, x);
    RoundInDisc(h, y);
  }

  // ----- When C_MUL's conversions keep the rounded sums

  /** The sums that round to a scalar. */
  predicate Keeps(h: int, x: int) { -(4 * (h * h)) - h <= x < 4 * (h * h) - h }

  lemma RoundKeeps(h: int, x: int)
    requires h >= 1
    ensures IsScalar(h, Round(h, x)) <==> Keeps(h, x)
    ensures SRound(h, x) == Round(h, x) <==> Keeps(h, x)
  {
    var d, q := 2 * h, Round(h, x);
    RoundRemainder(h, x);
    QuotientAtLeast(d, q, x + h, d);
    QuotientAtLeast(d, q, x + h, -d);
    NegateProduct(d, d);
    DoubleSquare(h);
    WrapIsScalar(h, q);
  }

  lemma DoubleSquare(h: int)
    ensures (2 * h) * (2 * h) == 4 * (h * h)
  {}

  lemma QuotientAtLeast(d: int, q: int, y: int, c: int)
    requires d >= 1 && 0 <= y - d * q < d
    ensures q >= c <==> y >= d * c
  {
    if q >= c { MulMonotone(d, c, q); } else { MulMonotone(d, q, c - 1); }
  }

  lemma RoundRemainder(h: int, x: int)
    requires h >= 1
    ensures 0 <= x + h - (2 * h) * Round(h, x) < 2 * h
  {}

  lemma WrapIsScalar(h: int, x: int)
    requires h >= 1
    ensures IsScalar(h, Wrap(h, x))
  {}

  /** C_MUL gives the rounded product exactly when both sums round to a scalar, over all
      operands. */
  lemma CMulExact(h: int, a: Complex, b: Complex)
    requires h >= 1
    ensures var x, y := a.r * b.r - a.i * b.i, a.r * b.i + a.i * b.r;
      CMul(h, a, b) == Complex(Round(h, x), Round(h, y)) <==> Keeps(h, x) && Keeps(h, y)
  {
    RoundKeeps(h, a.r * b.r - a.i * b.i);
    RoundKeeps(h, a.r * b.i + a.i * b.r);
  }

  predicate KeepsProduct(h: int, a: Complex, b: Complex)
    requires h >= 1
  {
    CMul(h, a, b) == Complex(Round(h, a.r * b.r - a.i * b.i), Round(h, a.r * b.i + a.i * b.r))
  }

  function Abs(x: int): int { if x < 0 then -x else x }

  /** A value never wraps, whatever sample it is multiplied with, exactly when its
      components add up to at most SAMP_MAX + 1. */
  lemma NeverWraps(h: int, a: Complex)
    requires h >= 1
    ensures (forall b: Complex :: InSamples(h, b.r) && InSamples(h, b.i) ==> KeepsProduct(h, a, b))
       <==> Abs(a.r) + Abs(a.i) <= Max(h) + 1
  {
    var m := Max(h);
    if Abs(a.r) + Abs(a.i) <= m + 1 {
      forall b: Complex | InSamples(h, b.r) && InSamples(h, b.i) ensures KeepsProduct(h, a, b) {
        SumKeeps(h, a.r, a.i, b.r, -b.i);
        SumKeeps(h, a.r, a.i, b.i, b.r);
        NegateProduct(a.i, b.i);
        CMulExact(h, a, b);
      }
    } else {
      var b := WorstPartner(h, a);
      CMulExact(h, a, b);
      assert !KeepsProduct(h, a, b);
    }
  }

  /** The sample whose product with a has the largest real part. */
  lemma WorstPartner(h: int, a: Complex) returns (b: Complex)
    requires h >= 1 && Abs(a.r) + Abs(a.i) > Max(h) + 1
    ensures InSamples(h, b.r) && InSamples(h, b.i) && !Keeps(h, a.r * b.r - a.i * b.i)
  {
    var m := Max(h);
    b := Complex(if a.r < 0 then -m else m, if a.i < 0 then m else -m);
    SignedProduct(a.r, m);
    SignedProduct(a.i, m);
    SignedProduct(a.i, -m);
    NegateProduct(a.i, m);
    Spread(m, Abs(a.r), Abs(a.i));
    MulMonotone(m, 2 * h + 1, Abs(a.r) + Abs(a.i));
    MaxTimes(h);
  }

  lemma Spread(m: int, a: int, b: int)
    ensures m * (a + b) == m * a + m * b
  {}

  lemma MaxTimes(h: int)
    ensures Max(h) * (2 * h) == 4 * (h * h) - 2 * h && Max(h) * (2 * h + 1) == 4 * (h * h) - 1
  {}

  lemma SignedProduct(x: int, m: int)
    ensures m * Abs(x) == if x < 0 then x * -m else x * m
  {}

  lemma SumKeeps(h: int, x: int, y: int, u: int, v: int)
    requires h >= 1 && Abs(x) + Abs(y) <= 2 * h && InSamples(h, u) && InSamples(h, v)
    ensures Keeps(h, x * u + y * v)
  {
    var m := Max(h);
    AbsProduct(x, u, m);
    AbsProduct(y, v, m);
    MulMonotone(m, Abs(x) + Abs(y), 2 * h);
    Spread(m, Abs(x), Abs(y));
    MaxTimes(h);
  }

  lemma AbsProduct(x: int, u: int, m: int)
    requires -m <= u <= m
    ensures -(m * Abs(x)) <= x * u <= m * Abs(x)
  {
    NaturalProduct(Abs(x), u, m);
    if x < 0 { NegateProduct(u, x); }
  }

  lemma NaturalProduct(n: int, u: int, m: int)
    requires n >= 0 && -m <= u <= m
    ensures -(m * n) <= n * u <= m * n
  {
    MulMonotone(n, u, m);
    MulMonotone(n, -m, u);
    NegateProduct(n, m);
  }

  /** Outside the disc the condition can fail: at FRACBITS 15 the square of the corner of
      the sample range comes out negative. */
  lemma CornerWraps()
    ensures var c := Complex(Max(Q15), Max(Q15));
      InSamples(Q15, c.r) && !InDisc(Q15, c) && CMul(Q15, c, c) == Complex(0, -4)
  {}

  lemma NormProduct(p: int, q: int, d: int)
    requires 0 <= p <= d && 0 <= q <= d
    ensures p * q <= d * d
  {}

  lemma RoundInDisc(h: int, x: int)
    requires h >= 1 && -Max(h) * Max(h) <= x <= Max(h) * Max(h)
    ensures InSamples(h, Round(h, x)) && SRound(h, x) == Round(h, x)
    ensures -h <= 2 * h * SRound(h, x) - x <= h
  {
    RoundError(h, x);
    var d := 2 * h;
    assert Max(h) * Max(h) == d * Max(h) - Max(h);
    QuotientBound(d, Round(h, x), -Max(h), Max(h));
  }

  // ----- C_FIXDIV keeps sums in range

  lemma Quotient(h: int, k: int)
    requires h >= 1 && 1 <= k <= Max(h)
    ensures var q := Max(h) / k; 1 <= q <= Max(h) && 0 <= Max(h) - k * q < k
  {}

  /** DIVSCALAR's result is at most SAMP_MAX / k in size, so that its conversion does not wrap. */
  lemma DivScalarBound(h: int, x: int, k: int)
    requires h >= 1 && 1 <= k <= Max(h) && InSamples(h, x)
    ensures -(Max(h) / k) <= DivScalar(h, x, k) <= Max(h) / k
    ensures DivScalar(h, x, k) == Round(h, x * (Max(h) / k))
  {
    Quotient(h, k);
    ScaledRound(h, x, Max(h) / k);
  }

  lemma ScaledRound(h: int, x: int, q: int)
    requires h >= 1 && 1 <= q <= Max(h) && InSamples(h, x)
    ensures -q <= Round(h, x * q) <= q
  {
    var d, p := 2 * h, x * q;
    var y := Round(h, p);
    RoundError(h, p);
    MulMonotone(q, x, d - 1);
    MulMonotone(q, 1 - d, x);
    var dq := d * q;
    assert q * (d - 1) == dq - q && q * (1 - d) == q - dq && q * x == p;
    NegateProduct(d, q);
    QuotientBound(d, y, -q, q);
  }

  /** DIVSCALAR divides by k to within 3/2. */
  lemma DivScalarError(h: int, x: int, k: int)
    requires h >= 1 && 1 <= k <= Max(h) && InSamples(h, x)
    ensures -3 * k <= 2 * (k * DivScalar(h, x, k) - x) <= 3 * k
  {
    var q, d := Max(h) / k, 2 * h;
    Quotient(h, k);
    DivScalarBound(h, x, k);
    var y := DivScalar(h, x, k);
    RoundError(h, x * q);
    var e, g := d * y - x * q, d - k * q;
    DivIdentity(d, k, x, q, y);
    MulMonotone(k, e, h);
    MulMonotone(k, -h, e);
    NegateProduct(k, h);
    GapTimes(d, g, k, x);
    ErrorBound(h, k, 2 * (k * y - x), k * e, g * x);
  }

  lemma GapTimes(d: int, g: int, k: int, x: int)
    requires 0 <= g <= k && -d <= x <= d
    ensures -(k * d) <= g * x <= k * d
  {}

  lemma ErrorBound(h: int, k: int, v: int, ke: int, gx: int)
    requires h >= 1 && 2 * h * v == 2 * ke - 2 * gx
    requires -(k * h) <= ke <= k * h && -(k * (2 * h)) <= gx <= k * (2 * h)
    ensures -3 * k <= v <= 3 * k
  {}

  lemma DivIdentity(d: int, k: int, x: int, q: int, y: int)
    ensures d * (2 * (k * y - x)) == 2 * (k * (d * y - x * q)) - 2 * ((d - k * q) * x)
  {}

  function Sum(xs: seq<int>): int {
    if xs == [] then 0 else Sum(xs[..|xs| - 1]) + xs[|xs| - 1]
  }

  /** Any signed sum of at most k values divided by C_FIXDIV has every partial sum within
      SAMP_MIN..SAMP_MAX, so adding or subtracting them one by one prints no warning. */
  lemma {:induction false} ScaledSumsFit(h: int, xs: seq<int>, k: int)
    requires h >= 1 && |xs| <= k && 1 <= k <= Max(h)
    requires forall j :: 0 <= j < |xs| ==> IsScaled(h, xs[j], k)
    ensures forall j :: 0 <= j <= |xs| ==> InSamples(h, Sum(xs[..j]))
  {
    var q := Max(h) / k;
    Quotient(h, k);
    forall j | 0 <= j <= |xs| ensures InSamples(h, Sum(xs[..j])) {
      SumBound(h, xs[..j], k);
      MulMonotone(q, j, k);
    }
  }

  ghost predicate IsScaled(h: int, v: int, k: int)
    requires h >= 1 && k >= 1
  {
    exists x :: InSamples(h, x) && (v == DivScalar(h, x, k) || v == -DivScalar(h, x, k))
  }

  lemma {:induction false} SumBound(h: int, xs: seq<int>, k: int)
    requires h >= 1 && 1 <= k <= Max(h)
    requires forall j :: 0 <= j < |xs| ==> IsScaled(h, xs[j], k)
    ensures -((Max(h) / k) * |xs|) <= Sum(xs) <= (Max(h) / k) * |xs|
  {
    if xs != [] {
      var last := xs[|xs| - 1];
      SumBound(h, xs[..|xs| - 1], k);
      assert IsScaled(h, last, k);
      var x :| InSamples(h, x) && (last == DivScalar(h, x, k) || last == -DivScalar(h, x, k));
      DivScalarBound(h, x, k);
      Distribute(Max(h) / k, |xs| - 1);
    }
  }

  lemma Distribute(q: int, n: int)
    ensures q * (n + 1) == q * n + q
  {}
}
