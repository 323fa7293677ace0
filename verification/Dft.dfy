/** The discrete Fourier transform over exact complex numbers: sums over the powers of a
    root, and how such a sum splits into sums over every second and every fourth term. The
    algebra is done for any multiplication with the laws it needs, and cmult has them. */
module Dft {
  import opened Oscillator
  import F = Fft

  const ZERO := Comp(0.0, 0.0)

  function Plus(a: Comp, b: Comp): Comp { Comp(a.re + b.re, a.im + b.im) }

  function Scaled(r: real, a: Comp): Comp { Comp(r * a.re, r * a.im) }

  function Negated(v: Comp): Comp { Comp(-v.re, -v.im) }

  type Signal = nat -> Comp

  /** The sum of n terms of x, from f in hops, with the powers of z: at z the k-th power of an
      n-th root of one, n times the k-th coefficient of the transform. */
  function Sum(x: Signal, f: nat, hop: nat, z: Comp, n: nat): Comp {
    if n == 0 then ZERO else Plus(Sum(x, f, hop, z, n - 1), CMult(x(f + F.Advance(n - 1, hop)), Power(z, n - 1)))
  }

  // ----- Quarter turns

  /** The i-th power of -i, or of i for the inverse. */
  function QuarterTurn(inverse: bool, i: nat): Comp {
    if i == 0 then ONE
    else if i == 2 then Comp(-1.0, 0.0)
    else if (i == 1) != inverse then Comp(0.0, -1.0)
    else Comp(0.0, 1.0)
  }

  /** Multiplication by a quarter turn, in components. */
  function TurnedBy(v: Comp, inverse: bool, i: nat): Comp {
    if i == 0 then v
    else if i == 2 then Negated(v)
    else if (i == 1) != inverse then Comp(v.im, -v.re)
    else Comp(-v.im, v.re)
  }

  /** Twice and three times i quarter turns, without the whole ones. */
  function Twice(i: nat): nat { if i == 0 || i == 2 then 0 else 2 }

  function Thrice(i: nat): nat { if i == 1 then 3 else if i == 3 then 1 else i }

  /** The i-th output of a transform of four points, in components: forward, output 1 is
      a - ib - c + id and output 3 is a + ib - c - id. */
  function FourPoint(a: Comp, b: Comp, c: Comp, d: Comp, inverse: bool, i: nat): Comp {
    if i == 0 then Comp(a.re + b.re + c.re + d.re, a.im + b.im + c.im + d.im)
    else if i == 2 then Comp(a.re - b.re + c.re - d.re, a.im - b.im + c.im - d.im)
    else if (i == 1) != inverse then Comp(a.re + b.im - c.re - d.im, a.im - b.re - c.im + d.re)
    else Comp(a.re - b.im - c.re + d.im, a.im + b.re - c.im - d.re)
  }

  lemma FourTurned(a: Comp, b: Comp, c: Comp, d: Comp, inverse: bool, i: nat)
    requires i < 4
    ensures Plus(Plus(a, TurnedBy(c, inverse, Twice(i))),
                 Plus(TurnedBy(b, inverse, i), TurnedBy(d, inverse, Thrice(i))))
         == FourPoint(a, b, c, d, inverse, i)
  {}

  lemma TurnsAdd(inverse: bool, i: nat, j: nat, k: nat)
    requires i < 4 && j < 4 && k < 4 && (k == i + j || k == i + j - 4)
    ensures TurnedBy(QuarterTurn(inverse, i), inverse, j) == QuarterTurn(inverse, k)
  {
    if j == 0 { assert k == i; }
    if j == 1 { assert k == i + 1 || i == 3; }
    if j == 2 { assert k == i + 2 || k == i - 2; }
    if j == 3 { assert k == i + 3 || k == i - 1; }
  }

  // ----- The laws of multiplication

  type Mul = (Comp, Comp) -> Comp

  ghost predicate AssocAt(mul: Mul, a: Comp, b: Comp, c: Comp) { mul(mul(a, b), c) == mul(a, mul(b, c)) }

  ghost predicate CommAt(mul: Mul, a: Comp, b: Comp) { mul(a, b) == mul(b, a) }

  ghost predicate DistAt(mul: Mul, a: Comp, b: Comp, c: Comp) { mul(a, Plus(b, c)) == Plus(mul(a, b), mul(a, c)) }

  ghost predicate TurnAt(mul: Mul, v: Comp, inverse: bool, i: nat) {
    i < 4 ==> mul(QuarterTurn(inverse, i), v) == TurnedBy(v, inverse, i)
  }

  ghost predicate ScaleAt(mul: Mul, r: real, a: Comp, b: Comp) { mul(Scaled(r, a), b) == Scaled(r, mul(a, b)) }

  ghost predicate Lawful(mul: Mul) {
    && (forall a, b, c :: AssocAt(mul, a, b, c)) && (forall a, b :: CommAt(mul, a, b))
    && (forall a, b, c :: DistAt(mul, a, b, c)) && (forall v, inverse, i :: TurnAt(mul, v, inverse, i))
    && (forall r, a, b :: ScaleAt(mul, r, a, b))
  }

  lemma Assoc(mul: Mul, a: Comp, b: Comp, c: Comp)
    requires Lawful(mul)
    ensures mul(mul(a, b), c) == mul(a, mul(b, c))
  {
    assert AssocAt(mul, a, b, c);
  }

  lemma Comm(mul: Mul, a: Comp, b: Comp)
    requires Lawful(mul)
    ensures mul(a, b) == mul(b, a)
  {
    assert CommAt(mul, a, b);
  }

  lemma Dist(mul: Mul, a: Comp, b: Comp, c: Comp)
    requires Lawful(mul)
    ensures mul(a, Plus(b, c)) == Plus(mul(a, b), mul(a, c))
  {
    assert DistAt(mul, a, b, c);
  }

  lemma Turn(mul: Mul, v: Comp, inverse: bool, i: nat)
    requires Lawful(mul) && i < 4
    ensures mul(QuarterTurn(inverse, i), v) == TurnedBy(v, inverse, i)
  {
    assert TurnAt(mul, v, inverse, i);
  }

  lemma TurnTwice(mul: Mul, inverse: bool, i: nat, j: nat, k: nat)
    requires Lawful(mul) && i < 4 && j < 4 && k < 4 && (k == i + j || k == i + j - 4)
    ensures mul(QuarterTurn(inverse, j), QuarterTurn(inverse, i)) == QuarterTurn(inverse, k)
  {
    Turn(mul, QuarterTurn(inverse, i), inverse, j);
    TurnsAdd(inverse, i, j, k);
  }

  lemma TimesOne(mul: Mul, v: Comp)
    requires Lawful(mul)
    ensures mul(ONE, v) == v && mul(v, ONE) == v
  {
    assert TurnAt(mul, v, false, 0);
    Comm(mul, v, ONE);
  }

  /** (ab)(cd) is (ac)(bd). */
  lemma Swap(mul: Mul, a: Comp, b: Comp, c: Comp, d: Comp)
    requires Lawful(mul)
    ensures mul(mul(a, b), mul(c, d)) == mul(mul(a, c), mul(b, d))
  {
    Assoc(mul, a, b, mul(c, d));
    Assoc(mul, b, c, d);
    Comm(mul, b, c);
    Assoc(mul, c, b, d);
    Assoc(mul, a, c, mul(b, d));
  }

  // ----- Powers

  function Pow(mul: Mul, z: Comp, n: nat): Comp { if n == 0 then ONE else mul(Pow(mul, z, n - 1), z) }

  lemma {:induction false} PowAdds(mul: Mul, z: Comp, m: nat, n: nat)
    requires Lawful(mul)
    ensures Pow(mul, z, m + n) == mul(Pow(mul, z, m), Pow(mul, z, n))
  {
    if n == 0 {
      TimesOne(mul, Pow(mul, z, m));
    } else {
      PowAdds(mul, z, m, n - 1);
      Assoc(mul, Pow(mul, z, m), Pow(mul, z, n - 1), z);
    }
  }

  lemma PowSum(mul: Mul, z: Comp, m: nat, n: nat, k: nat)
    requires Lawful(mul) && k == m + n
    ensures Pow(mul, z, k) == mul(Pow(mul, z, m), Pow(mul, z, n))
  {
    PowAdds(mul, z, m, n);
  }

  lemma {:induction false} PowSquare(mul: Mul, z: Comp, k: nat, n: nat)
    requires Lawful(mul) && n == 2 * k
    ensures Pow(mul, mul(z, z), k) == Pow(mul, z, n)
  {
    if k > 0 {
      PowSquare(mul, z, k - 1, n - 2);
      Assoc(mul, Pow(mul, z, n - 2), z, z);
    }
  }

  lemma SmallPowers(mul: Mul, w: Comp, a: nat, a2: nat, a3: nat, a4: nat)
    requires Lawful(mul) && a2 == 2 * a && a3 == 3 * a && a4 == 4 * a
    ensures var u := Pow(mul, w, a);
      && Pow(mul, w, a2) == mul(u, u) && Pow(mul, w, a3) == mul(u, mul(u, u))
      && Pow(mul, w, a4) == mul(mul(u, u), mul(u, u))
  {
    PowSum(mul, w, a, a, a2);
    PowSum(mul, w, a, a2, a3);
    PowSum(mul, w, a2, a2, a4);
  }

  // ----- Sums

  function SumOf(mul: Mul, x: Signal, f: nat, hop: nat, z: Comp, n: nat): Comp {
    if n == 0 then ZERO
    else Plus(SumOf(mul, x, f, hop, z, n - 1), mul(x(f + F.Advance(n - 1, hop)), Pow(mul, z, n - 1)))
  }

  lemma EvenOddPlaces(k: nat, hop: nat, f: nat)
    ensures f + F.Advance(2 * k, hop) == f + F.Advance(k, 2 * hop)
    ensures f + F.Advance(2 * k + 1, hop) == f + hop + F.Advance(k, 2 * hop)
  {
    F.AdvanceProduct(2 * k, hop);
    F.AdvanceProduct(2 * k + 1, hop);
    F.AdvanceProduct(k, 2 * hop);
    assert (2 * k + 1) * hop == k * (2 * hop) + hop;
  }

  lemma PlusShuffle(e: Comp, zo: Comp, a: Comp, zb: Comp)
    ensures Plus(Plus(Plus(e, zo), a), zb) == Plus(Plus(e, a), Plus(zo, zb))
  {}

  /** Term j of a sum. */
  function Term(mul: Mul, x: Signal, f: nat, hop: nat, z: Comp, j: nat): Comp {
    mul(x(f + F.Advance(j, hop)), Pow(mul, z, j))
  }

  /** An even term is a term of the even sum, and an odd one z times one of the odd sum. */
  lemma EvenOddTerms(mul: Mul, x: Signal, f: nat, hop: nat, z: Comp, k: nat, n: nat)
    requires Lawful(mul) && n == 2 * k
    ensures Term(mul, x, f, hop, z, n) == Term(mul, x, f, 2 * hop, mul(z, z), k)
    ensures Term(mul, x, f, hop, z, n + 1) == mul(z, Term(mul, x, f + hop, 2 * hop, mul(z, z), k))
  {
    EvenOddPlaces(k, hop, f);
    PowSquare(mul, z, k, n);
    var v, p := x(f + hop + F.Advance(k, 2 * hop)), Pow(mul, z, n);
    Assoc(mul, v, p, z);
    Comm(mul, mul(v, p), z);
  }

  lemma SumNext(mul: Mul, x: Signal, f: nat, hop: nat, z: Comp, n: nat, n1: nat)
    requires n1 == n + 1
    ensures SumOf(mul, x, f, hop, z, n1) == Plus(SumOf(mul, x, f, hop, z, n), Term(mul, x, f, hop, z, n))
  {}

  lemma NoneSplit(mul: Mul, x: Signal, f: nat, hop: nat, z: Comp, n: nat)
    requires Lawful(mul) && n == 0
    ensures SumOf(mul, x, f, hop, z, n)
         == Plus(SumOf(mul, x, f, 2 * hop, mul(z, z), n), mul(z, SumOf(mul, x, f + hop, 2 * hop, mul(z, z), n)))
  {
    ZeroTimes(mul, z);
  }

  /** A sum of an even number of terms is that of the even ones and z times that of the odd
      ones, at the square of z. */
  lemma {:induction false} SumSplits(mul: Mul, x: Signal, f: nat, hop: nat, z: Comp, m: nat, n: nat)
    requires Lawful(mul) && n == 2 * m
    ensures SumOf(mul, x, f, hop, z, n)
         == Plus(SumOf(mul, x, f, 2 * hop, mul(z, z), m), mul(z, SumOf(mul, x, f + hop, 2 * hop, mul(z, z), m)))
  {
    if m == 0 {
      NoneSplit(mul, x, f, hop, z, n);
    } else {
      SumSplits(mul, x, f, hop, z, m - 1, n - 2);
      SplitNext(mul, x, f, hop, z, m - 1, n - 2);
    }
  }

  lemma ZeroTimes(mul: Mul, z: Comp)
    requires Lawful(mul)
    ensures mul(z, ZERO) == ZERO
  {
    assert ScaleAt(mul, 0.0, ONE, z);
    Comm(mul, z, ZERO);
    assert Scaled(0.0, ONE) == ZERO;
    assert Scaled(0.0, mul(ONE, z)) == ZERO;
  }

  lemma SplitNext(mul: Mul, x: Signal, f: nat, hop: nat, z: Comp, k: nat, n: nat)
    requires Lawful(mul) && n == 2 * k
    requires SumOf(mul, x, f, hop, z, n)
         == Plus(SumOf(mul, x, f, 2 * hop, mul(z, z), k), mul(z, SumOf(mul, x, f + hop, 2 * hop, mul(z, z), k)))
    ensures SumOf(mul, x, f, hop, z, n + 2)
         == Plus(SumOf(mul, x, f, 2 * hop, mul(z, z), k + 1), mul(z, SumOf(mul, x, f + hop, 2 * hop, mul(z, z), k + 1)))
  {
    var y := mul(z, z);
    var e, o := SumOf(mul, x, f, 2 * hop, y, k), SumOf(mul, x, f + hop, 2 * hop, y, k);
    var a, b := Term(mul, x, f, 2 * hop, y, k), Term(mul, x, f + hop, 2 * hop, y, k);
    SumNextTwo(mul, x, f, hop, z, n);
    EvenOddTerms(mul, x, f, hop, z, k, n);
    PlusShuffle(e, mul(z, o), a, mul(z, b));
    Dist(mul, z, o, b);
  }

  lemma SumNextTwo(mul: Mul, x: Signal, f: nat, hop: nat, z: Comp, n: nat)
    ensures SumOf(mul, x, f, hop, z, n + 2)
         == Plus(Plus(SumOf(mul, x, f, hop, z, n), Term(mul, x, f, hop, z, n)), Term(mul, x, f, hop, z, n + 1))
  {
    SumNext(mul, x, f, hop, z, n, n + 1);
    SumNext(mul, x, f, hop, z, n + 1, n + 2);
  }

  lemma SplitAt(mul: Mul, x: Signal, f: nat, hop: nat, z: Comp, m: nat, n: nat, hop2: nat, odd: nat)
    requires Lawful(mul) && n == 2 * m && hop2 == 2 * hop && odd == f + hop
    ensures SumOf(mul, x, f, hop, z, n)
         == Plus(SumOf(mul, x, f, hop2, mul(z, z), m), mul(z, SumOf(mul, x, odd, hop2, mul(z, z), m)))
  {
    SumSplits(mul, x, f, hop, z, m, n);
  }

  // ----- Two and four sums into one

  /** The sum of twice as many terms as two sums with the twiddle u, at z = u or -u. */
  lemma TwoSums(mul: Mul, x: Signal, f: nat, f1: nat, hop: nat, z: Comp, m: nat, n: nat, hop2: nat, y: Comp, u: Comp,
                i: nat)
    requires Lawful(mul) && f1 == f + hop && n == 2 * m && hop2 == 2 * hop && y == mul(z, z)
    requires i < 2 && z == (if i == 0 then u else Negated(u))
    ensures var t := mul(SumOf(mul, x, f1, hop2, y, m), u);
      SumOf(mul, x, f, hop, z, n) == Plus(SumOf(mul, x, f, hop2, y, m), if i == 0 then t else Negated(t))
  {
    var o := SumOf(mul, x, f1, hop2, y, m);
    SplitAt(mul, x, f, hop, z, m, n, hop2, f1);
    Comm(mul, o, u);
    if i == 1 {
      Turn(mul, u, false, 2);
      Assoc(mul, QuarterTurn(false, 2), u, o);
      Turn(mul, mul(u, o), false, 2);
    }
  }

  lemma EvenPart(mul: Mul, s2: Comp, u: Comp, inverse: bool, i: nat, z: Comp)
    requires Lawful(mul) && i < 4 && z == mul(u, QuarterTurn(inverse, i))
    ensures mul(mul(z, z), s2) == TurnedBy(mul(s2, mul(u, u)), inverse, Twice(i))
  {
    var r := QuarterTurn(inverse, i);
    Swap(mul, u, r, u, r);
    TurnTwice(mul, inverse, i, i, Twice(i));
    TurnOut(mul, s2, mul(u, u), inverse, Twice(i));
  }

  /** A turn of one factor is a turn of the product. */
  lemma TurnOut(mul: Mul, v: Comp, u: Comp, inverse: bool, i: nat)
    requires Lawful(mul) && i < 4
    ensures mul(mul(u, QuarterTurn(inverse, i)), v) == TurnedBy(mul(v, u), inverse, i)
  {
    var r := QuarterTurn(inverse, i);
    Comm(mul, u, r);
    Assoc(mul, r, u, v);
    Comm(mul, u, v);
    Turn(mul, mul(v, u), inverse, i);
  }

  lemma ThirdPart(mul: Mul, s3: Comp, u: Comp, inverse: bool, i: nat, z: Comp)
    requires Lawful(mul) && i < 4 && z == mul(u, QuarterTurn(inverse, i))
    ensures mul(z, mul(mul(z, z), s3)) == TurnedBy(mul(s3, mul(u, mul(u, u))), inverse, Thrice(i))
  {
    var r, rr, uu := QuarterTurn(inverse, i), QuarterTurn(inverse, Twice(i)), mul(u, u);
    Swap(mul, u, r, u, r);
    TurnTwice(mul, inverse, i, i, Twice(i));
    Swap(mul, u, r, uu, rr);
    TurnTwice(mul, inverse, Twice(i), i, Thrice(i));
    Assoc(mul, z, mul(z, z), s3);
    TurnOut(mul, s3, mul(u, uu), inverse, Thrice(i));
  }

  /** Four sums, of every fourth term, make the sum at z = u * r, with r one of the four
      quarter turns, as the four-point transform of them with the powers of u. */
  lemma FourCombine(mul: Mul, s0: Comp, s1: Comp, s2: Comp, s3: Comp, u: Comp, inverse: bool, i: nat, z: Comp)
    requires Lawful(mul) && i < 4 && z == mul(u, QuarterTurn(inverse, i))
    ensures var zz, uu := mul(z, z), mul(u, u);
      Plus(Plus(s0, mul(zz, s2)), mul(z, Plus(s1, mul(zz, s3))))
      == FourPoint(s0, mul(s1, u), mul(s2, uu), mul(s3, mul(u, uu)), inverse, i)
  {
    var zz, uu := mul(z, z), mul(u, u);
    EvenPart(mul, s2, u, inverse, i, z);
    TurnOut(mul, s1, u, inverse, i);
    ThirdPart(mul, s3, u, inverse, i, z);
    Dist(mul, z, s1, mul(zz, s3));
    FourTurned(s0, mul(s1, u), mul(s2, uu), mul(s3, mul(u, uu)), inverse, i);
  }

  /** The sum of four times as many terms as four sums with the powers of the twiddle u. */
  lemma FourSums(mul: Mul, x: Signal, f: nat, f1: nat, f2: nat, f3: nat, hop: nat, z: Comp, m: nat, n: nat, hop4: nat,
                 y: Comp, u: Comp, inverse: bool, i: nat)
    requires Lawful(mul) && f1 == f + hop && f2 == f + 2 * hop && f3 == f + 3 * hop
    requires n == 4 * m && hop4 == 4 * hop && y == mul(mul(z, z), mul(z, z))
    requires i < 4 && z == mul(u, QuarterTurn(inverse, i))
    ensures SumOf(mul, x, f, hop, z, n)
         == FourPoint(SumOf(mul, x, f, hop4, y, m), mul(SumOf(mul, x, f1, hop4, y, m), u),
                      mul(SumOf(mul, x, f2, hop4, y, m), mul(u, u)),
                      mul(SumOf(mul, x, f3, hop4, y, m), mul(u, mul(u, u))), inverse, i)
  {
    SplitFour(mul, x, f, f1, f2, f3, hop, z, m, n, 2 * m, 2 * hop, hop4, mul(z, z), y);
    FourCombine(mul, SumOf(mul, x, f, hop4, y, m), SumOf(mul, x, f1, hop4, y, m),
                SumOf(mul, x, f2, hop4, y, m), SumOf(mul, x, f3, hop4, y, m), u, inverse, i, z);
  }

  lemma SplitFour(mul: Mul, x: Signal, f: nat, f1: nat, f2: nat, f3: nat, hop: nat, z: Comp, m: nat, n: nat, m2: nat,
                  hop2: nat, hop4: nat, zz: Comp, y: Comp)
    requires Lawful(mul) && f1 == f + hop && f2 == f + hop2 && f3 == f1 + hop2
    requires n == 2 * m2 && m2 == 2 * m && hop2 == 2 * hop && hop4 == 2 * hop2 && zz == mul(z, z) && y == mul(zz, zz)
    ensures SumOf(mul, x, f, hop, z, n)
         == Plus(Plus(SumOf(mul, x, f, hop4, y, m), mul(zz, SumOf(mul, x, f2, hop4, y, m))),
                 mul(z, Plus(SumOf(mul, x, f1, hop4, y, m), mul(zz, SumOf(mul, x, f3, hop4, y, m)))))
  {
    SplitAt(mul, x, f, hop, z, m2, n, hop2, f1);
    SplitAt(mul, x, f, hop2, zz, m, m2, hop4, f2);
    SplitAt(mul, x, f1, hop2, zz, m, m2, hop4, f3);
  }

  // ----- Roots

  lemma {:induction false} QuarterPowers(mul: Mul, w: Comp, c: nat, inverse: bool, i: nat, n: nat)
    requires Lawful(mul) && Pow(mul, w, c) == QuarterTurn(inverse, 1) && i < 4 && n == F.Advance(i, c)
    ensures Pow(mul, w, n) == QuarterTurn(inverse, i)
  {
    if i > 0 {
      QuarterPowers(mul, w, c, inverse, i - 1, n - c);
      PowSum(mul, w, n - c, c, n);
      TurnTwice(mul, inverse, 1, i - 1, i);
    }
  }

  /** The power that output k + i * m of four m-point transforms takes: a is the twiddle's
      power in the k-th butterfly, c a quarter of the points. */
  lemma FourthPowers(mul: Mul, w: Comp, a: nat, c: nat, inverse: bool, i: nat, n: nat, q: nat, a4: nat)
    requires Lawful(mul) && Pow(mul, w, c) == QuarterTurn(inverse, 1)
    requires i < 4 && n == F.Advance(i, c) && q == a + n && a4 == 4 * a
    ensures var u, z := Pow(mul, w, a), Pow(mul, w, q);
      z == mul(u, QuarterTurn(inverse, i)) && mul(mul(z, z), mul(z, z)) == Pow(mul, w, a4)
  {
    var u, z := Pow(mul, w, a), Pow(mul, w, q);
    TurnedPower(mul, w, a, c, inverse, i, n, q);
    FourthOfTurned(mul, u, inverse, i, z);
    FourTimes(mul, w, a, a4);
  }

  lemma TurnedPower(mul: Mul, w: Comp, a: nat, c: nat, inverse: bool, i: nat, n: nat, q: nat)
    requires Lawful(mul) && Pow(mul, w, c) == QuarterTurn(inverse, 1) && i < 4 && n == F.Advance(i, c) && q == a + n
    ensures Pow(mul, w, q) == mul(Pow(mul, w, a), QuarterTurn(inverse, i))
  {
    QuarterPowers(mul, w, c, inverse, i, n);
    PowSum(mul, w, a, n, q);
  }

  lemma FourTimes(mul: Mul, w: Comp, a: nat, a4: nat)
    requires Lawful(mul) && a4 == 4 * a
    ensures var uu := mul(Pow(mul, w, a), Pow(mul, w, a)); Pow(mul, w, a4) == mul(uu, uu)
  {
    SmallPowers(mul, w, a, 2 * a, 3 * a, a4);
  }

  lemma FourthOfTurned(mul: Mul, u: Comp, inverse: bool, i: nat, z: Comp)
    requires Lawful(mul) && i < 4 && z == mul(u, QuarterTurn(inverse, i))
    ensures mul(mul(z, z), mul(z, z)) == mul(mul(u, u), mul(u, u))
  {
    var uu, r, rr := mul(u, u), QuarterTurn(inverse, i), QuarterTurn(inverse, Twice(i));
    Swap(mul, u, r, u, r);
    TurnTwice(mul, inverse, i, i, Twice(i));
    Swap(mul, uu, rr, uu, rr);
    TurnTwice(mul, inverse, Twice(i), Twice(i), 0);
    TimesOne(mul, mul(uu, uu));
  }

  /** Likewise with two transforms, c half of the points. */
  lemma SecondPowers(mul: Mul, w: Comp, a: nat, c: nat, i: nat, n: nat, q: nat, a2: nat)
    requires Lawful(mul) && Pow(mul, w, c) == Comp(-1.0, 0.0)
    requires i < 2 && n == F.Advance(i, c) && q == a + n && a2 == 2 * a
    ensures var u, z := Pow(mul, w, a), Pow(mul, w, q);
      z == (if i == 0 then u else Negated(u)) && mul(z, z) == Pow(mul, w, a2)
  {
    var u := Pow(mul, w, a);
    PowSum(mul, w, a, a, a2);
    if i == 1 {
      PowSum(mul, w, a, n, q);
      SquareOfNegated(mul, u);
    }
  }

  lemma SquareOfNegated(mul: Mul, u: Comp)
    requires Lawful(mul)
    ensures mul(u, Comp(-1.0, 0.0)) == Negated(u) && mul(Negated(u), Negated(u)) == mul(u, u)
  {
    var r := QuarterTurn(false, 2);
    Comm(mul, u, r);
    Turn(mul, u, false, 2);
    Swap(mul, u, r, u, r);
    Turn(mul, r, false, 2);
    TimesOne(mul, mul(u, u));
  }

  // ----- cmult

  function Times(): Mul { (a, b) => CMult(a, b) }

  lemma MultDistributes(a: Comp, b: Comp, c: Comp)
    ensures CMult(a, Plus(b, c)) == Plus(CMult(a, b), CMult(a, c))
  {}

  lemma ScaledTimes(r: real, a: Comp, b: Comp)
    ensures CMult(Scaled(r, a), b) == Scaled(r, CMult(a, b))
  {
    MultScaled(r, a.re, a.im, b.re, b.im);
  }

  lemma TurnTimes(v: Comp, inverse: bool, i: nat)
    requires i < 4
    ensures CMult(QuarterTurn(inverse, i), v) == TurnedBy(v, inverse, i)
  {}

  lemma TimesLawful()
    ensures Lawful(Times())
  {
    forall a, b, c ensures AssocAt(Times(), a, b, c) { MultAssoc(a, b, c); }
    forall a, b ensures CommAt(Times(), a, b) { MultCommutes(a, b); }
    forall a, b, c ensures DistAt(Times(), a, b, c) { MultDistributes(a, b, c); }
    forall v, inverse, i: nat ensures TurnAt(Times(), v, inverse, i) { if i < 4 { TurnTimes(v, inverse, i); } }
    forall r, a, b ensures ScaleAt(Times(), r, a, b) { ScaledTimes(r, a, b); }
  }

  lemma {:induction false} PowIsPower(z: Comp, n: nat)
    ensures Pow(Times(), z, n) == Power(z, n)
  {
    if n > 0 { PowIsPower(z, n - 1); }
  }

  lemma {:induction false} SumOfIsSum(x: Signal, f: nat, hop: nat, z: Comp, n: nat)
    ensures SumOf(Times(), x, f, hop, z, n) == Sum(x, f, hop, z, n)
  {
    if n > 0 {
      SumOfIsSum(x, f, hop, z, n - 1);
      PowIsPower(z, n - 1);
    }
  }

  // ----- Four points

  lemma SumOfOne(mul: Mul, x: Signal, f: nat, hop: nat, z: Comp)
    requires Lawful(mul)
    ensures SumOf(mul, x, f, hop, z, 1) == x(f)
  {
    SumNext(mul, x, f, hop, z, 0, 1);
    TimesOne(mul, x(f));
  }

  lemma FourPointOf(mul: Mul, x: Signal, inverse: bool, i: nat, z: Comp)
    requires Lawful(mul) && i < 4 && z == QuarterTurn(inverse, i)
    ensures FourPoint(x(0), x(1), x(2), x(3), inverse, i) == SumOf(mul, x, 0, 1, z, 4)
  {
    var y := mul(mul(z, z), mul(z, z));
    TimesOne(mul, z);
    TimesOne(mul, ONE);
    FourSums(mul, x, 0, 1, 2, 3, 1, z, 1, 4, 4, y, ONE, inverse, i);
    SumOfOne(mul, x, 0, 4, y);
    SumOfOne(mul, x, 1, 4, y);
    SumOfOne(mul, x, 2, 4, y);
    SumOfOne(mul, x, 3, 4, y);
    TimesOne(mul, x(1));
    TimesOne(mul, x(2));
    TimesOne(mul, x(3));
  }

  lemma TurnIsPower(mul: Mul, inverse: bool, i: nat)
    requires Lawful(mul) && i < 4
    ensures Pow(mul, QuarterTurn(inverse, 1), i) == QuarterTurn(inverse, i)
  {
    F.AdvanceProduct(i, 1);
    TimesOne(mul, QuarterTurn(inverse, 1));
    QuarterPowers(mul, QuarterTurn(inverse, 1), 1, inverse, i, i);
  }

  /** The four-point transform in components is the sum of the four values with the powers of
      the i-th power of -i, or of i for the inverse. */
  lemma FourPointIsSum(x: Signal, inverse: bool, i: nat)
    requires i < 4
    ensures FourPoint(x(0), x(1), x(2), x(3), inverse, i)
         == Sum(x, 0, 1, Power(Comp(0.0, if inverse then 1.0 else -1.0), i), 4)
  {
    TimesLawful();
    TurnIsPower(Times(), inverse, i);
    PowIsPower(QuarterTurn(inverse, 1), i);
    FourPointOf(Times(), x, inverse, i, QuarterTurn(inverse, i));
    SumOfIsSum(x, 0, 1, QuarterTurn(inverse, i), 4);
  }
}
