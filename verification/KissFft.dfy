/** kiss_fft_stride of codec2-1.2.0/src/kiss_fft.c: that what it leaves in the output is the
    discrete Fourier transform of the input, divided by its length, within a bound. */
module KissFft {
  import opened FixedPoint
  import opened Butterfly
  import opened Fft
  import opened Transform
  import opened Decimation
  import R = Rounding
  import O = Oscillator
  import D = Dft

  type Comp = O.Comp

  // ----- Near an exact transform

  /** How near a value of some disc is to an exact one. */
  type Near = (int, nat, Complex, Comp) -> bool

  /** A twiddle of an exact point of the unit circle. */
  type TwiddleOf = (Complex, Comp) -> bool

  /** Whether a transform with some factors has what it needs at some place. */
  type Fitting = (Factors, Place) -> bool

  /** The outputs of an exact transform. */
  type ExactOutput = (Factors, Place, nat) -> Comp

  /** What a fixed-point transform is measured by: the outputs of an exact one, with the
      powers of a root, for values from the k-th disc. */
  datatype Aim = Aim(mul: D.Mul, near: Near, twiddle: TwiddleOf, fits: Fitting, exact: ExactOutput, power: nat -> Comp,
                     inverse: bool, k: int)

  /** The bound: six for each factor of two, eleven for each of four. */
  function Err(fs: Factors): nat {
    match fs
    case One => 0
    case Times2(rest) => Err(rest) + 6
    case Times4(rest) => Err(rest) + 11
  }

  ghost function NearExact(c: Aim): Output {
    (fs: Factors, at: Place, q: nat, v: Complex) =>
      c.fits(fs, at) && q < Size(fs) ==> c.near(Left(c.k, fs), Err(fs), v, c.exact(fs, at, q))
  }

  // ----- What the exact transform and the butterflies do

  ghost predicate LeafExact(c: Aim, input: seq<Complex>, at: Place) {
    c.fits(One, at) ==> c.near(c.k, 0, At(input, at.f), c.exact(One, at, 0))
  }

  /** Where a transform fits, its two parts do, and it takes the k-th power for the k-th
      butterfly. */
  ghost predicate TwoFit(c: Aim, tw: seq<Complex>, rest: Factors, at: Place, k: nat) {
    c.fits(Times2(rest), at) && k < Size(rest) ==>
      && c.fits(rest, Inner(at, 2, Size(rest), 0)) && c.fits(rest, Inner(at, 2, Size(rest), 1))
      && Left(c.k, rest) >= TWO_FROM
      && c.twiddle(TwiddleAt(tw, k, at.fstride), c.power(Advance(k, at.fstride)))
  }

  /** Output q = k + i * m of twice the length m, from outputs k of two transforms. */
  ghost predicate TwoExact(c: Aim, rest: Factors, at: Place, k: nat, i: nat, q: nat, a0: Place, a1: Place) {
    var m := Size(rest);
    c.fits(Times2(rest), at) && i < 2 && q == k + Advance(i, m)
    && a0 == Inner(at, 2, m, 0) && a1 == Inner(at, 2, m, 1) ==>
      var x, t := c.exact(rest, a0, k), c.mul(c.exact(rest, a1, k), c.power(Advance(k, at.fstride)));
      c.exact(Times2(rest), at, q) == D.Scaled(0.5, D.Plus(x, if i == 0 then t else D.Negated(t)))
  }

  /** The places of four transforms. */
  predicate FourPlaces(at: Place, m: nat, a0: Place, a1: Place, a2: Place, a3: Place) {
    a0 == Inner(at, 4, m, 0) && a1 == Inner(at, 4, m, 1) && a2 == Inner(at, 4, m, 2) && a3 == Inner(at, 4, m, 3)
  }

  /** Twiddles of the first, second and third power of u. */
  ghost predicate TurnBy(c: Aim, tw: Three, u: Comp) {
    c.twiddle(tw.tw1, u) && c.twiddle(tw.tw2, c.mul(u, u)) && c.twiddle(tw.tw3, c.mul(u, c.mul(u, u)))
  }

  ghost predicate FourFit(c: Aim, tw: seq<Complex>, rest: Factors, at: Place, k: nat, a0: Place, a1: Place, a2: Place,
                          a3: Place) {
    c.fits(Times4(rest), at) && k < Size(rest) && FourPlaces(at, Size(rest), a0, a1, a2, a3) ==>
      && c.fits(rest, a0) && c.fits(rest, a1) && c.fits(rest, a2) && c.fits(rest, a3) && Left(c.k, rest) >= 1
      && TurnBy(c, ThreeOf(tw, k, at.fstride), c.power(Advance(k, at.fstride)))
  }

  /** A quarter of the i-th output of four points turned by the powers of u. */
  function FourTurned(c: Aim, x: Comp, y: Comp, z: Comp, w: Comp, u: Comp, i: nat): Comp {
    D.Scaled(0.25, D.FourPoint(x, c.mul(y, u), c.mul(z, c.mul(u, u)), c.mul(w, c.mul(u, c.mul(u, u))), c.inverse, i))
  }

  /** Output q = k + i * m of four times the length m, from outputs k of four transforms. */
  ghost predicate FourExact(c: Aim, rest: Factors, at: Place, k: nat, i: nat, q: nat, a0: Place, a1: Place, a2: Place,
                            a3: Place) {
    c.fits(Times4(rest), at) && i < 4 && q == k + Advance(i, Size(rest)) && FourPlaces(at, Size(rest), a0, a1, a2, a3)
    ==>
      c.exact(Times4(rest), at, q)
      == FourTurned(c, c.exact(rest, a0, k), c.exact(rest, a1, k), c.exact(rest, a2, k), c.exact(rest, a3, k),
                    c.power(Advance(k, at.fstride)), i)
  }

  ghost predicate TwoNear(c: Aim, op: Op2, j: int, e: nat, a: Complex, b: Complex, tw: Complex, x: Comp, y: Comp,
                          u: Comp) {
    TWO_FROM <= j <= c.k && c.near(j, e, a, x) && c.near(j, e, b, y) && c.twiddle(tw, u) ==>
      var p, t := op(a, b, tw), c.mul(y, u);
      && c.near(j, e + 6, p.f, D.Scaled(0.5, D.Plus(x, t)))
      && c.near(j, e + 6, p.f2, D.Scaled(0.5, D.Plus(x, D.Negated(t))))
  }

  ghost predicate AllNear(c: Aim, j: int, e: nat, f: Four, x: Comp, y: Comp, z: Comp, w: Comp) {
    c.near(j, e, f.f0, x) && c.near(j, e, f.f1, y) && c.near(j, e, f.f2, z) && c.near(j, e, f.f3, w)
  }

  ghost predicate FourNear(c: Aim, op: Op4, j: int, e: nat, f: Four, tw: Three, x: Comp, y: Comp, z: Comp, w: Comp,
                           u: Comp, i: nat) {
    1 <= j <= c.k && i < 4 && AllNear(c, j, e, f, x, y, z, w) && TurnBy(c, tw, u) ==>
      c.near(j - 1, e + 11, Entry(op(f, tw).f, i), FourTurned(c, x, y, z, w, u, i))
  }

  /** The plan's input, twiddles and butterflies are near the exact ones, and the exact
      transform splits as the plan does. */
  ghost predicate Aims(c: Aim, plan: Plan) {
    && (forall at :: LeafExact(c, plan.input, at))
    && (forall rest, at, k :: TwoFit(c, plan.tw, rest, at, k))
    && (forall rest, at, k, i, q, a0, a1 :: TwoExact(c, rest, at, k, i, q, a0, a1))
    && (forall rest, at, k, a0, a1, a2, a3 :: FourFit(c, plan.tw, rest, at, k, a0, a1, a2, a3))
    && (forall rest, at, k, i, q, a0, a1, a2, a3 :: FourExact(c, rest, at, k, i, q, a0, a1, a2, a3))
    && (forall j, e, a, b, tw, x, y, u :: TwoNear(c, plan.op2, j, e, a, b, tw, x, y, u))
    && (forall j, e, f, tw, x, y, z, w, u, i :: FourNear(c, plan.op4, j, e, f, tw, x, y, z, w, u, i))
  }

  // ----- From the parts to the whole

  lemma NearMeans(c: Aim, fs: Factors, at: Place, q: nat, v: Complex, j: int, e: nat)
    requires j == Left(c.k, fs) && e == Err(fs)
    requires c.fits(fs, at) && q < Size(fs) ==> c.near(j, e, v, c.exact(fs, at, q))
    ensures NearExact(c)(fs, at, q, v)
  {}

  lemma NearIs(c: Aim, fs: Factors, at: Place, q: nat, v: Complex)
    requires NearExact(c)(fs, at, q, v) && c.fits(fs, at) && q < Size(fs)
    ensures c.near(Left(c.k, fs), Err(fs), v, c.exact(fs, at, q))
  {}

  lemma LeafCarried(c: Aim, plan: Plan, at: Place)
    requires Aims(c, plan)
    ensures LeafAt(NearExact(c), plan, at)
  {
    assert LeafExact(c, plan.input, at);
    NearMeans(c, One, at, 0, At(plan.input, at.f), c.k, 0);
  }

  lemma TwoAreNear(c: Aim, plan: Plan, j: int, e: nat, a: Complex, b: Complex, tw: Complex, x: Comp, y: Comp, u: Comp,
                   v: Comp, w: Comp)
    requires Aims(c, plan) && TWO_FROM <= j <= c.k && c.near(j, e, a, x) && c.near(j, e, b, y) && c.twiddle(tw, u)
    requires v == D.Scaled(0.5, D.Plus(x, c.mul(y, u))) && w == D.Scaled(0.5, D.Plus(x, D.Negated(c.mul(y, u))))
    ensures var p := plan.op2(a, b, tw); c.near(j, e + 6, p.f, v) && c.near(j, e + 6, p.f2, w)
  {
    assert TwoNear(c, plan.op2, j, e, a, b, tw, x, y, u);
  }

  lemma NearPair(c: Aim, plan: Plan, rest: Factors, at: Place, k: nat, a: Complex, b: Complex, m: nat, q: nat,
                 a0: Place, a1: Place)
    requires Aims(c, plan) && c.fits(Times2(rest), at) && m == Size(rest) && k < m && q == k + Advance(1, m)
    requires a0 == Inner(at, 2, m, 0) && a1 == Inner(at, 2, m, 1)
    requires NearExact(c)(rest, a0, k, a) && NearExact(c)(rest, a1, k, b)
    ensures var p, j, e := plan.op2(a, b, TwiddleAt(plan.tw, k, at.fstride)), Left(c.k, rest), Err(rest) + 6;
      && c.near(j, e, p.f, c.exact(Times2(rest), at, k)) && c.near(j, e, p.f2, c.exact(Times2(rest), at, q))
  {
    assert TwoFit(c, plan.tw, rest, at, k);
    NearIs(c, rest, a0, k, a);
    NearIs(c, rest, a1, k, b);
    assert TwoExact(c, rest, at, k, 0, k, a0, a1) && TwoExact(c, rest, at, k, 1, q, a0, a1);
    TwoAreNear(c, plan, Left(c.k, rest), Err(rest), a, b, TwiddleAt(plan.tw, k, at.fstride), c.exact(rest, a0, k),
               c.exact(rest, a1, k), c.power(Advance(k, at.fstride)), c.exact(Times2(rest), at, k),
               c.exact(Times2(rest), at, q));
  }

  lemma PairCarried(c: Aim, plan: Plan, rest: Factors, at: Place, k: nat, a: Complex, b: Complex, q: nat, p: Pair)
    requires Aims(c, plan) && q == k + Size(rest) && PairGiven(NearExact(c), rest, at, k, a, b)
    requires p == plan.op2(a, b, TwiddleAt(plan.tw, k, at.fstride))
    ensures NearExact(c)(Times2(rest), at, k, p.f) && NearExact(c)(Times2(rest), at, q, p.f2)
  {
    if c.fits(Times2(rest), at) {
      AdvanceProduct(1, Size(rest));
      NearPair(c, plan, rest, at, k, a, b, Size(rest), q, Inner(at, 2, Size(rest), 0), Inner(at, 2, Size(rest), 1));
    }
    NearMeans(c, Times2(rest), at, k, p.f, Left(c.k, rest), Err(rest) + 6);
    NearMeans(c, Times2(rest), at, q, p.f2, Left(c.k, rest), Err(rest) + 6);
  }

  lemma FourIsNear(c: Aim, plan: Plan, j: int, e: nat, f: Four, tw: Three, x: Comp, y: Comp, z: Comp, w: Comp, u: Comp,
                   i: nat, v: Comp)
    requires Aims(c, plan) && 1 <= j <= c.k && i < 4 && AllNear(c, j, e, f, x, y, z, w) && TurnBy(c, tw, u)
    requires v == FourTurned(c, x, y, z, w, u, i)
    ensures c.near(j - 1, e + 11, Entry(plan.op4(f, tw).f, i), v)
  {
    assert FourNear(c, plan.op4, j, e, f, tw, x, y, z, w, u, i);
  }

  lemma FourGiven(c: Aim, plan: Plan, rest: Factors, at: Place, k: nat, f: Four, m: nat, a0: Place, a1: Place,
                  a2: Place, a3: Place)
    requires Aims(c, plan) && c.fits(Times4(rest), at) && m == Size(rest) && FourPlaces(at, m, a0, a1, a2, a3)
    requires QuadGiven(NearExact(c), rest, at, k, f)
    ensures AllNear(c, Left(c.k, rest), Err(rest), f, c.exact(rest, a0, k), c.exact(rest, a1, k), c.exact(rest, a2, k),
                    c.exact(rest, a3, k))
  {
    assert FourFit(c, plan.tw, rest, at, k, a0, a1, a2, a3);
    NearIs(c, rest, a0, k, Entry(f, 0));
    NearIs(c, rest, a1, k, Entry(f, 1));
    NearIs(c, rest, a2, k, Entry(f, 2));
    NearIs(c, rest, a3, k, Entry(f, 3));
  }

  lemma FourTaken(c: Aim, plan: Plan, rest: Factors, at: Place, k: nat, i: nat, q: nat, m: nat, a0: Place, a1: Place,
                  a2: Place, a3: Place)
    requires Aims(c, plan) && c.fits(Times4(rest), at) && m == Size(rest) && k < m && i < 4 && q == k + Advance(i, m)
    requires FourPlaces(at, m, a0, a1, a2, a3)
    ensures Left(c.k, rest) >= 1 && TurnBy(c, ThreeOf(plan.tw, k, at.fstride), c.power(Advance(k, at.fstride)))
    ensures c.exact(Times4(rest), at, q)
         == FourTurned(c, c.exact(rest, a0, k), c.exact(rest, a1, k), c.exact(rest, a2, k), c.exact(rest, a3, k),
                       c.power(Advance(k, at.fstride)), i)
  {
    assert FourFit(c, plan.tw, rest, at, k, a0, a1, a2, a3);
    assert FourExact(c, rest, at, k, i, q, a0, a1, a2, a3);
  }

  lemma NearQuad(c: Aim, plan: Plan, rest: Factors, at: Place, k: nat, f: Four, i: nat, q: nat, m: nat, tw: Three,
                 a0: Place, a1: Place, a2: Place, a3: Place)
    requires Aims(c, plan) && c.fits(Times4(rest), at) && m == Size(rest) && i < 4 && q == k + Advance(i, m)
    requires FourPlaces(at, m, a0, a1, a2, a3) && QuadGiven(NearExact(c), rest, at, k, f)
    requires tw == ThreeOf(plan.tw, k, at.fstride)
    ensures c.near(Left(c.k, rest) - 1, Err(rest) + 11, Entry(plan.op4(f, tw).f, i), c.exact(Times4(rest), at, q))
  {
    FourTaken(c, plan, rest, at, k, i, q, m, a0, a1, a2, a3);
    FourGiven(c, plan, rest, at, k, f, m, a0, a1, a2, a3);
    FourIsNear(c, plan, Left(c.k, rest), Err(rest), f, tw, c.exact(rest, a0, k), c.exact(rest, a1, k),
               c.exact(rest, a2, k), c.exact(rest, a3, k), c.power(Advance(k, at.fstride)), i,
               c.exact(Times4(rest), at, q));
  }

  lemma QuadCarried(c: Aim, plan: Plan, rest: Factors, at: Place, k: nat, f: Four, i: nat, q: nat, v: Complex)
    requires Aims(c, plan) && i < 4 && q == k + Advance(i, Size(rest)) && QuadGiven(NearExact(c), rest, at, k, f)
    requires v == Entry(plan.op4(f, ThreeOf(plan.tw, k, at.fstride)).f, i)
    ensures NearExact(c)(Times4(rest), at, q, v)
  {
    var m := Size(rest);
    if c.fits(Times4(rest), at) {
      NearQuad(c, plan, rest, at, k, f, i, q, m, ThreeOf(plan.tw, k, at.fstride), Inner(at, 4, m, 0),
               Inner(at, 4, m, 1), Inner(at, 4, m, 2), Inner(at, 4, m, 3));
    }
    NearMeans(c, Times4(rest), at, q, v, Left(c.k, rest) - 1, Err(rest) + 11);
  }

  lemma NearCarries(c: Aim, plan: Plan)
    requires Aims(c, plan)
    ensures Carries(NearExact(c), plan)
  {
    forall at ensures LeafAt(NearExact(c), plan, at) { LeafCarried(c, plan, at); }
    forall rest, at, k: nat, a, b, q: nat ensures PairAt(NearExact(c), plan, rest, at, k, a, b, q) {
      if q == k + Size(rest) && PairGiven(NearExact(c), rest, at, k, a, b) {
        PairCarried(c, plan, rest, at, k, a, b, q, plan.op2(a, b, TwiddleAt(plan.tw, k, at.fstride)));
      }
    }
    forall rest, at, k: nat, f, i: nat, q: nat ensures QuadAt(NearExact(c), plan, rest, at, k, f, i, q) {
      if i < 4 && q == k + Advance(i, Size(rest)) && QuadGiven(NearExact(c), rest, at, k, f) {
        QuadCarried(c, plan, rest, at, k, f, i, q, Entry(plan.op4(f, ThreeOf(plan.tw, k, at.fstride)).f, i));
      }
    }
  }

  /** Every output of a transform is near the exact one. */
  lemma WorkNear(c: Aim, plan: Plan, fs: Factors, o: Out, at: Place, q: nat)
    requires Aims(c, plan) && at.base + Size(fs) <= |o.s| && c.fits(fs, at) && q < Size(fs)
    ensures c.near(Left(c.k, fs), Err(fs), Work(plan, fs, o, at).s[at.base + q], c.exact(fs, at, q))
  {
    NearCarries(c, plan);
    WorkComputes(NearExact(c), plan, fs, o, at);
    OutputAt(NearExact(c), fs, at, Work(plan, fs, o, at).s, q, at.base + q);
  }

  // ----- Where a transform fits

  lemma NestedStride(p: nat, m: nat, n: nat, w: nat, i: nat, pw: nat)
    requires i < p && m >= 1 && n == p * m && pw == p * w
    ensures n >= 1 && Advance(m, pw) == Advance(n, w) && Advance(i, w) + Advance(m - 1, pw) <= Advance(n - 1, w)
    ensures w >= 1 ==> pw >= 1
  {
    StridesNest(p, m, w, i);
    ProductOrder(1, p, w);
  }

  /** A length and a stride that make up the points, with input enough. */
  predicate Placed(points: nat, inputs: nat, n: nat, at: Place) {
    n >= 1 && at.fstride >= 1 && Advance(n, at.fstride) == points && at.f + Advance(n - 1, at.hop) < inputs
  }

  lemma PartPlaced(points: nat, inputs: nat, p: nat, m: nat, n: nat, at: Place, i: nat, inner: Place)
    requires i < p && m >= 1 && n == p * m && Placed(points, inputs, n, at)
    requires inner.f == at.f + Advance(i, at.hop) && inner.fstride == p * at.fstride && inner.hop == p * at.hop
    ensures Placed(points, inputs, m, inner)
  {
    NestedStride(p, m, n, at.fstride, i, inner.fstride);
    NestedStride(p, m, n, at.hop, i, inner.hop);
  }

  /** Enough discs for the factors, and a length and a stride that make up the points. */
  predicate Fits(k: int, points: nat, inputs: nat, fs: Factors, at: Place) {
    FitsFrom(TWO_FROM, 1, k, fs) && Placed(points, inputs, Size(fs), at)
  }

  lemma TwoPartsFit(k: int, points: nat, inputs: nat, rest: Factors, at: Place, i: nat)
    requires Fits(k, points, inputs, Times2(rest), at) && i < 2
    ensures Fits(k, points, inputs, rest, Inner(at, 2, Size(rest), i)) && Left(k, rest) >= TWO_FROM
    ensures at.fstride >= 1 && Advance(2 * Size(rest), at.fstride) == points
  {
    PartPlaced(points, inputs, 2, Size(rest), 2 * Size(rest), at, i, Inner(at, 2, Size(rest), i));
  }

  lemma FourPartsFit(k: int, points: nat, inputs: nat, rest: Factors, at: Place, i: nat)
    requires Fits(k, points, inputs, Times4(rest), at) && i < 4
    ensures Fits(k, points, inputs, rest, Inner(at, 4, Size(rest), i)) && Left(k, rest) >= 1
    ensures at.fstride >= 1 && Advance(4 * Size(rest), at.fstride) == points
  {
    PartPlaced(points, inputs, 4, Size(rest), 4 * Size(rest), at, i, Inner(at, 4, Size(rest), i));
  }

  // ----- The discrete Fourier transform splits

  function Part(n: nat): real
    requires n >= 1
  {
    1.0 / n as real
  }

  /** Half and quarter of an inverse length. */
  lemma PartOf(m: nat, p: nat, n: nat)
    requires m >= 1 && n == p * m && (p == 2 || p == 4)
    ensures Part(n) == (if p == 2 then 0.5 else 0.25) * Part(m)
  {
    var x := m as real;
    assert n as real == p as real * x;
    InverseScaled(x, p as real, n as real);
  }

  lemma InverseScaled(x: real, p: real, y: real)
    requires x >= 1.0 && p >= 1.0 && y == p * x
    ensures 1.0 / y == (1.0 / p) * (1.0 / x)
  {}

  /** Where the twiddle pointer stands for output k + i * m. */
  lemma StridesAdd(k: nat, i: nat, m: nat, w: nat, q: nat, im: nat, mw: nat)
    requires im == Advance(i, m) && q == k + im && mw == Advance(m, w)
    ensures Advance(q, w) == Advance(k, w) + Advance(i, mw)
  {
    AdvanceProduct(i, m);
    AdvanceProduct(q, w);
    AdvanceProduct(k, w);
    AdvanceProduct(m, w);
    AdvanceProduct(i, mw);
    StridesDistribute(k, i, m, w, im, mw);
  }

  lemma StridesDistribute(k: int, i: int, m: int, w: int, im: int, mw: int)
    requires im == i * m && mw == m * w
    ensures (k + im) * w == k * w + i * mw
  {
    assert im * w == i * (m * w);
  }

  lemma WiderStride(k: nat, w: nat, p: nat, pw: nat)
    requires pw == p * w
    ensures Advance(k, pw) == p * Advance(k, w)
  {
    AdvanceProduct(k, w);
    AdvanceProduct(k, pw);
    Interchanged(k, w, p, pw);
  }

  lemma Interchanged(k: int, w: int, p: int, pw: int)
    requires pw == p * w
    ensures k * pw == p * (k * w)
  {
    assert k * (p * w) == p * (k * w);
  }

  lemma MoreSteps(m: nat, w: nat, p: nat, n: nat)
    requires n == p * m
    ensures Advance(n, w) == p * Advance(m, w)
  {
    AdvanceProduct(m, w);
    AdvanceProduct(n, w);
    Regrouped(p, m, w, n);
  }

  lemma Regrouped(p: int, m: int, w: int, n: int)
    requires n == p * m
    ensures n * w == p * (m * w)
  {}

  lemma ScaledTwo(mul: D.Mul, r: real, n: real, s0: Comp, s1: Comp, u: Comp, i: nat)
    requires D.Lawful(mul) && n == 0.5 * r
    ensures var t, v := mul(s1, u), mul(D.Scaled(r, s1), u);
      D.Scaled(n, D.Plus(s0, if i == 0 then t else D.Negated(t)))
      == D.Scaled(0.5, D.Plus(D.Scaled(r, s0), if i == 0 then v else D.Negated(v)))
  {
    assert D.ScaleAt(mul, r, s1, u);
    var t := mul(s1, u);
    HalfOfSum(r, n, s0.re, t.re);
    HalfOfSum(r, n, s0.im, t.im);
  }

  lemma HalfOfSum(r: real, n: real, a: real, b: real)
    requires n == 0.5 * r
    ensures n * (a + b) == 0.5 * (r * a + r * b) && n * (a + -b) == 0.5 * (r * a + -(r * b))
  {}

  lemma ScaledFour(mul: D.Mul, r: real, n: real, s0: Comp, s1: Comp, s2: Comp, s3: Comp, u1: Comp, u2: Comp, u3: Comp,
                   inverse: bool, i: nat)
    requires D.Lawful(mul) && n == 0.25 * r && i < 4
    ensures D.Scaled(n, D.FourPoint(s0, mul(s1, u1), mul(s2, u2), mul(s3, u3), inverse, i))
         == D.Scaled(0.25, D.FourPoint(D.Scaled(r, s0), mul(D.Scaled(r, s1), u1), mul(D.Scaled(r, s2), u2),
                                       mul(D.Scaled(r, s3), u3), inverse, i))
  {
    assert D.ScaleAt(mul, r, s1, u1) && D.ScaleAt(mul, r, s2, u2) && D.ScaleAt(mul, r, s3, u3);
    R.FourScaled(r, s0, mul(s1, u1), mul(s2, u2), mul(s3, u3), inverse, i);
    ScaledTwice(0.25, r, n, D.FourPoint(s0, mul(s1, u1), mul(s2, u2), mul(s3, u3), inverse, i));
  }

  lemma ScaledTwice(q: real, r: real, n: real, v: Comp)
    requires n == q * r
    ensures D.Scaled(q, D.Scaled(r, v)) == D.Scaled(n, v)
  {}


  /** Output q of a transform at some place over a signal: the sum over its part of the
      signal, with the powers of a power of the root w, divided by the length. */
  function Coefficient(mul: D.Mul, x: D.Signal, w: Comp, fs: Factors, at: Place, q: nat): Comp {
    D.Scaled(Part(Size(fs)), D.SumOf(mul, x, at.f, at.hop, D.Pow(mul, w, Advance(q, at.fstride)), Size(fs)))
  }

  /** The root's half and quarter powers are -1 and -i, or i for the inverse. */
  ghost predicate RootOf(mul: D.Mul, w: Comp, points: nat, inverse: bool) {
    && (forall m: nat {:trigger D.Pow(mul, w, m)} :: points == 2 * m ==> D.Pow(mul, w, m) == O.Comp(-1.0, 0.0))
    && (forall m: nat {:trigger D.Pow(mul, w, m)} :: points == 4 * m ==> D.Pow(mul, w, m) == D.QuarterTurn(inverse, 1))
  }

  lemma OneTerm(mul: D.Mul, x: D.Signal, w: Comp, at: Place)
    requires D.Lawful(mul)
    ensures Coefficient(mul, x, w, One, at, 0) == x(at.f)
  {
    var z := D.Pow(mul, w, Advance(0, at.fstride));
    D.SumNext(mul, x, at.f, at.hop, z, 0, 1);
    D.TimesOne(mul, x(at.f));
    assert D.SumOf(mul, x, at.f, at.hop, z, 1) == x(at.f);
  }

  lemma SumTwo(mul: D.Mul, x: D.Signal, w: Comp, inverse: bool, at: Place, m: nat, k: nat, i: nat, q: nat, n: nat,
               u: Comp, z: Comp, y: Comp, f1: nat, hop2: nat)
    requires D.Lawful(mul) && RootOf(mul, w, Advance(n, at.fstride), inverse)
    requires n == 2 * m && i < 2 && q == k + Advance(i, m) && f1 == at.f + at.hop && hop2 == 2 * at.hop
    requires u == D.Pow(mul, w, Advance(k, at.fstride)) && z == D.Pow(mul, w, Advance(q, at.fstride))
    requires y == D.Pow(mul, w, Advance(k, 2 * at.fstride))
    ensures var t := mul(D.SumOf(mul, x, f1, hop2, y, m), u);
      D.SumOf(mul, x, at.f, at.hop, z, n)
      == D.Plus(D.SumOf(mul, x, at.f, hop2, y, m), if i == 0 then t else D.Negated(t))
  {
    var half := Advance(m, at.fstride);
    StridesAdd(k, i, m, at.fstride, q, Advance(i, m), half);
    WiderStride(k, at.fstride, 2, 2 * at.fstride);
    MoreSteps(m, at.fstride, 2, n);
    D.SecondPowers(mul, w, Advance(k, at.fstride), half, i, Advance(i, half), Advance(q, at.fstride),
                   Advance(k, 2 * at.fstride));
    D.TwoSums(mul, x, at.f, f1, at.hop, z, m, n, hop2, y, u, i);
  }

  lemma CoefficientIs(mul: D.Mul, x: D.Signal, w: Comp, fs: Factors, at: Place, q: nat, f: nat, hop: nat, z: Comp,
                      n: nat)
    requires f == at.f && hop == at.hop && n == Size(fs) && z == D.Pow(mul, w, Advance(q, at.fstride))
    ensures Coefficient(mul, x, w, fs, at, q) == D.Scaled(Part(n), D.SumOf(mul, x, f, hop, z, n))
  {}

  lemma CoefficientTwo(mul: D.Mul, x: D.Signal, w: Comp, inverse: bool, rest: Factors, at: Place, k: nat, i: nat,
                       q: nat, u: Comp, m: nat, a0: Place, a1: Place, v0: Comp, v1: Comp, v: Comp)
    requires D.Lawful(mul) && m == Size(rest) && RootOf(mul, w, Advance(2 * m, at.fstride), inverse)
    requires i < 2 && q == k + Advance(i, m) && u == D.Pow(mul, w, Advance(k, at.fstride))
    requires a0 == Inner(at, 2, m, 0) && a1 == Inner(at, 2, m, 1) && v == Coefficient(mul, x, w, Times2(rest), at, q)
    requires v0 == Coefficient(mul, x, w, rest, a0, k) && v1 == Coefficient(mul, x, w, rest, a1, k)
    ensures v == D.Scaled(0.5, D.Plus(v0, if i == 0 then mul(v1, u) else D.Negated(mul(v1, u))))
  {
    var z, y := D.Pow(mul, w, Advance(q, at.fstride)), D.Pow(mul, w, Advance(k, a1.fstride));
    AdvanceProduct(1, at.hop);
    SumTwo(mul, x, w, inverse, at, m, k, i, q, 2 * m, u, z, y, a1.f, a1.hop);
    PartOf(m, 2, 2 * m);
    CoefficientIs(mul, x, w, rest, a0, k, at.f, a1.hop, y, m);
    CoefficientIs(mul, x, w, rest, a1, k, a1.f, a1.hop, y, m);
    CoefficientIs(mul, x, w, Times2(rest), at, q, at.f, at.hop, z, 2 * m);
    ScaledTwo(mul, Part(m), Part(2 * m), D.SumOf(mul, x, at.f, a1.hop, y, m), D.SumOf(mul, x, a1.f, a1.hop, y, m), u,
              i);
  }

  lemma SumFour(mul: D.Mul, x: D.Signal, w: Comp, inverse: bool, at: Place, m: nat, k: nat, i: nat, q: nat, n: nat,
                u: Comp, z: Comp, y: Comp, f1: nat, f2: nat, f3: nat, hop4: nat)
    requires D.Lawful(mul) && RootOf(mul, w, Advance(n, at.fstride), inverse)
    requires n == 4 * m && i < 4 && q == k + Advance(i, m) && hop4 == 4 * at.hop
    requires f1 == at.f + at.hop && f2 == at.f + 2 * at.hop && f3 == at.f + 3 * at.hop
    requires u == D.Pow(mul, w, Advance(k, at.fstride)) && z == D.Pow(mul, w, Advance(q, at.fstride))
    requires y == D.Pow(mul, w, Advance(k, 4 * at.fstride))
    ensures D.SumOf(mul, x, at.f, at.hop, z, n)
         == D.FourPoint(D.SumOf(mul, x, at.f, hop4, y, m), mul(D.SumOf(mul, x, f1, hop4, y, m), u),
                        mul(D.SumOf(mul, x, f2, hop4, y, m), mul(u, u)),
                        mul(D.SumOf(mul, x, f3, hop4, y, m), mul(u, mul(u, u))), inverse, i)
  {
    var quarter := Advance(m, at.fstride);
    StridesAdd(k, i, m, at.fstride, q, Advance(i, m), quarter);
    WiderStride(k, at.fstride, 4, 4 * at.fstride);
    MoreSteps(m, at.fstride, 4, n);
    D.FourthPowers(mul, w, Advance(k, at.fstride), quarter, inverse, i, Advance(i, quarter), Advance(q, at.fstride),
                   Advance(k, 4 * at.fstride));
    D.FourSums(mul, x, at.f, f1, f2, f3, at.hop, z, m, n, hop4, y, u, inverse, i);
  }

  lemma PlacesAre(at: Place, m: nat, a0: Place, a1: Place, a2: Place, a3: Place)
    requires FourPlaces(at, m, a0, a1, a2, a3)
    ensures a0.f == at.f && a1.f == at.f + at.hop && a2.f == at.f + 2 * at.hop && a3.f == at.f + 3 * at.hop
    ensures a0.hop == a1.hop == a2.hop == a3.hop == 4 * at.hop
    ensures a0.fstride == a1.fstride == a2.fstride == a3.fstride == 4 * at.fstride
  {
    AdvanceProduct(1, at.hop);
    AdvanceProduct(2, at.hop);
    AdvanceProduct(3, at.hop);
  }

  lemma CoefficientFour(mul: D.Mul, x: D.Signal, w: Comp, inverse: bool, rest: Factors, at: Place, k: nat, i: nat,
                        q: nat, u: Comp, m: nat, a0: Place, a1: Place, a2: Place, a3: Place)
    requires D.Lawful(mul) && m == Size(rest) && RootOf(mul, w, Advance(4 * m, at.fstride), inverse)
    requires i < 4 && q == k + Advance(i, m) && u == D.Pow(mul, w, Advance(k, at.fstride))
    requires FourPlaces(at, m, a0, a1, a2, a3)
    ensures Coefficient(mul, x, w, Times4(rest), at, q)
         == D.Scaled(0.25, D.FourPoint(Coefficient(mul, x, w, rest, a0, k), mul(Coefficient(mul, x, w, rest, a1, k), u),
                                       mul(Coefficient(mul, x, w, rest, a2, k), mul(u, u)),
                                       mul(Coefficient(mul, x, w, rest, a3, k), mul(u, mul(u, u))), inverse, i))
  {
    var z, y := D.Pow(mul, w, Advance(q, at.fstride)), D.Pow(mul, w, Advance(k, 4 * at.fstride));
    PlacesAre(at, m, a0, a1, a2, a3);
    SumFour(mul, x, w, inverse, at, m, k, i, q, 4 * m, u, z, y, a1.f, a2.f, a3.f, a1.hop);
    PartOf(m, 4, 4 * m);
    ScaledFour(mul, Part(m), Part(4 * m), D.SumOf(mul, x, at.f, a1.hop, y, m), D.SumOf(mul, x, a1.f, a1.hop, y, m),
               D.SumOf(mul, x, a2.f, a1.hop, y, m), D.SumOf(mul, x, a3.f, a1.hop, y, m), u, mul(u, u),
               mul(u, mul(u, u)), inverse, i);
  }

  // ----- In fixed point

  function SignalOf(input: seq<Complex>): D.Signal { (i: nat) => R.Point(At(input, i)) }

  /** In the j-th disc and within e of the exact value. */
  ghost function NearIn(h: int): Near {
    (j: int, e: nat, v: Complex, x: Comp) => Within(h, j, v) && R.Close(v, x, e as real)
  }

  ghost function FixedAim(h: int, k: int, inverse: bool, input: seq<Complex>, w: Comp, points: nat): Aim {
    Aim(D.Times(), NearIn(h), (tw: Complex, u: Comp) => R.IsTwiddleOf(h, tw, u),
        (fs: Factors, at: Place) => Fits(k, points, |input|, fs, at),
        (fs: Factors, at: Place, q: nat) => Coefficient(D.Times(), SignalOf(input), w, fs, at, q),
        (i: nat) => D.Pow(D.Times(), w, i), inverse, k)
  }

  /** Twiddles are the nearest scalars to SAMP_MAX times the powers of w. */
  predicate TwiddlesOf(h: int, tw: seq<Complex>, w: Comp) {
    forall i: nat :: i < |tw| ==> R.IsTwiddleOf(h, tw[i], O.Power(w, i))
  }

  /** What the transform asks of an n-th root of one: its half power is -1, and its quarter
      power -i, or i for the inverse. */
  predicate IsRoot(w: Comp, n: nat, inverse: bool) {
    && (n % 2 == 0 ==> O.Power(w, n / 2) == O.Comp(-1.0, 0.0))
    && (n % 4 == 0 ==> O.Power(w, n / 4) == O.Comp(0.0, if inverse then 1.0 else -1.0))
  }

  lemma FixedLeaf(h: int, k: int, inverse: bool, input: seq<Complex>, w: Comp, points: nat, at: Place)
    requires D.Lawful(D.Times()) && forall i :: 0 <= i < |input| ==> Within(h, k, input[i])
    ensures LeafExact(FixedAim(h, k, inverse, input, w, points), input, at)
  {
    OneTerm(D.Times(), SignalOf(input), w, at);
    assert Advance(0, at.hop) == 0;
  }

  lemma FixedTwo(h: int, k: int, inverse: bool, input: seq<Complex>, w: Comp, points: nat, op: Op2, j: int, e: nat,
                 a: Complex, b: Complex, tw: Complex, x: Comp, y: Comp, u: Comp)
    requires Room(h, k) && IsBfly2(op, h)
    ensures TwoNear(FixedAim(h, k, inverse, input, w, points), op, j, e, a, b, tw, x, y, u)
  {
    if TWO_FROM <= j <= k && NearIn(h)(j, e, a, x) && NearIn(h)(j, e, b, y) && R.IsTwiddleOf(h, tw, u) {
      R.TwiddleIs(h, tw, u);
      Bfly2StaysInDisc(h, j, a, b, tw);
      R.Bfly2Close(h, j, a, b, tw, u, x, y, e as real);
      assert op(a, b, tw) == Bfly2(h, a, b, tw);
    }
  }

  lemma NearInMeans(h: int, j: int, e: nat, r: real, v: Complex, x: Comp)
    requires r == e as real && Within(h, j, v) && R.Close(v, x, r)
    ensures NearIn(h)(j, e, v, x)
  {}

  lemma QuadClose(h: int, j: int, inverse: bool, f: Four, tw: Three, u1: Comp, u2: Comp, u3: Comp, x: Comp, y: Comp,
                  z: Comp, w: Comp, e: nat, i: nat, v: Complex, t: Comp, mul: D.Mul)
    requires Room(h, j) && h % 2 == 0 && j >= 1 && AllWithin(h, j, f) && R.AreTwiddlesOf(h, tw, u1, u2, u3) && i < 4
    requires R.FourClose(f, x, y, z, w, e as real) && v == Entry(Bfly4(h, f, tw, inverse).f, i) && mul == D.Times()
    requires t == D.Scaled(0.25, D.FourPoint(x, mul(y, u1), mul(z, u2), mul(w, u3), inverse, i))
    ensures NearIn(h)(j - 1, e + 11, v, t)
  {
    R.Bfly4Close(h, j, f, tw, inverse, i, u1, u2, u3, x, y, z, w, e as real);
    NearInMeans(h, j - 1, e + 11, e as real + 11.0, v, t);
  }

  lemma FourValues(h: int, c: Aim, j: int, e: nat, f: Four, x0: Comp, x1: Comp, x2: Comp, x3: Comp)
    requires c.near == NearIn(h) && AllNear(c, j, e, f, x0, x1, x2, x3)
    ensures AllWithin(h, j, f) && R.FourClose(f, x0, x1, x2, x3, e as real)
  {}

  lemma FixedQuad(h: int, c: Aim, op: Op4, j: int, e: nat, f: Four, tw: Three, x0: Comp, x1: Comp, x2: Comp, x3: Comp,
                  u: Comp, uu: Comp, i: nat, v: Complex, t: Comp)
    requires Room(h, j) && h % 2 == 0 && j >= 1 && i < 4 && IsBfly4(op, h, c.inverse) && c.mul == D.Times()
    requires AllWithin(h, j, f) && R.FourClose(f, x0, x1, x2, x3, e as real) && uu == c.mul(u, u)
    requires R.AreTwiddlesOf(h, tw, u, uu, c.mul(u, uu))
    requires v == Entry(op(f, tw).f, i) && t == FourTurned(c, x0, x1, x2, x3, u, i)
    ensures NearIn(h)(j - 1, e + 11, v, t)
  {
    assert op(f, tw) == Bfly4(h, f, tw, c.inverse);
    QuadClose(h, j, c.inverse, f, tw, u, uu, c.mul(u, uu), x0, x1, x2, x3, e, i, v, t, c.mul);
  }

  lemma FixedFour(h: int, k: int, inverse: bool, input: seq<Complex>, w: Comp, points: nat, op: Op4, j: int, e: nat,
                  f: Four, tw: Three, x0: Comp, x1: Comp, x2: Comp, x3: Comp, u: Comp, i: nat)
    requires Room(h, k) && h % 2 == 0 && IsBfly4(op, h, inverse)
    ensures FourNear(FixedAim(h, k, inverse, input, w, points), op, j, e, f, tw, x0, x1, x2, x3, u, i)
  {
    var c := FixedAim(h, k, inverse, input, w, points);
    if 1 <= j <= k && i < 4 && AllNear(c, j, e, f, x0, x1, x2, x3) && TurnBy(c, tw, u) {
      FourValues(h, c, j, e, f, x0, x1, x2, x3);
      FixedQuad(h, c, op, j, e, f, tw, x0, x1, x2, x3, u, c.mul(u, u), i, Entry(op(f, tw).f, i),
                FourTurned(c, x0, x1, x2, x3, u, i));
    }
  }

  /** A transform that fits finds the twiddle of each power it takes. */
  lemma TwiddleUsed(h: int, tw: seq<Complex>, w: Comp, at: Place, n: nat, k: nat, g: nat, gw: nat)
    requires TwiddlesOf(h, tw, w) && at.fstride >= 1 && Advance(n, at.fstride) == |tw| && g * k < n
    requires gw == g * at.fstride
    ensures R.IsTwiddleOf(h, TwiddleAt(tw, k, gw), D.Pow(D.Times(), w, Advance(k, gw)))
  {
    StrideInside(n, at.fstride, |tw|, g, gw, k);
    D.PowIsPower(w, Advance(k, gw));
  }

  lemma FixedTwoFit(h: int, k: int, inverse: bool, input: seq<Complex>, w: Comp, tw: seq<Complex>, rest: Factors,
                    at: Place, l: nat)
    requires TwiddlesOf(h, tw, w)
    ensures TwoFit(FixedAim(h, k, inverse, input, w, |tw|), tw, rest, at, l)
  {
    if Fits(k, |tw|, |input|, Times2(rest), at) && l < Size(rest) {
      TwoPartsFit(k, |tw|, |input|, rest, at, 0);
      TwoPartsFit(k, |tw|, |input|, rest, at, 1);
      TwiddleUsed(h, tw, w, at, 2 * Size(rest), l, 1, at.fstride);
    }
  }

  /** The three twiddles of a radix-4 butterfly are of the first, second and third power. */
  lemma ThreeUsed(h: int, tw: seq<Complex>, w: Comp, at: Place, m: nat, k: nat, mul: D.Mul, u: Comp)
    requires TwiddlesOf(h, tw, w) && at.fstride >= 1 && Advance(4 * m, at.fstride) == |tw| && k < m
    requires D.Lawful(mul) && mul == D.Times() && u == D.Pow(mul, w, Advance(k, at.fstride))
    ensures R.AreTwiddlesOf(h, ThreeOf(tw, k, at.fstride), u, mul(u, u), mul(u, mul(u, u)))
  {
    TwiddleUsed(h, tw, w, at, 4 * m, k, 1, at.fstride);
    TwiddleUsed(h, tw, w, at, 4 * m, k, 2, 2 * at.fstride);
    TwiddleUsed(h, tw, w, at, 4 * m, k, 3, 3 * at.fstride);
    WiderStride(k, at.fstride, 2, 2 * at.fstride);
    WiderStride(k, at.fstride, 3, 3 * at.fstride);
    var a := Advance(k, at.fstride);
    D.SmallPowers(mul, w, a, Advance(k, 2 * at.fstride), Advance(k, 3 * at.fstride), 4 * a);
  }

  lemma FixedFourFit(h: int, k: int, inverse: bool, input: seq<Complex>, w: Comp, tw: seq<Complex>, rest: Factors,
                     at: Place, l: nat, a0: Place, a1: Place, a2: Place, a3: Place)
    requires TwiddlesOf(h, tw, w) && D.Lawful(D.Times())
    ensures FourFit(FixedAim(h, k, inverse, input, w, |tw|), tw, rest, at, l, a0, a1, a2, a3)
  {
    if Fits(k, |tw|, |input|, Times4(rest), at) && l < Size(rest) {
      FourPartsFit(k, |tw|, |input|, rest, at, 0);
      FourPartsFit(k, |tw|, |input|, rest, at, 1);
      FourPartsFit(k, |tw|, |input|, rest, at, 2);
      FourPartsFit(k, |tw|, |input|, rest, at, 3);
      ThreeUsed(h, tw, w, at, Size(rest), l, D.Times(), D.Pow(D.Times(), w, Advance(l, at.fstride)));
    }
  }

  lemma FixedTwoExact(h: int, k: int, inverse: bool, input: seq<Complex>, w: Comp, points: nat, rest: Factors,
                      at: Place, l: nat, i: nat, q: nat, a0: Place, a1: Place)
    requires D.Lawful(D.Times()) && RootOf(D.Times(), w, points, inverse)
    ensures TwoExact(FixedAim(h, k, inverse, input, w, points), rest, at, l, i, q, a0, a1)
  {
    var mul, x, m := D.Times(), SignalOf(input), Size(rest);
    if Fits(k, points, |input|, Times2(rest), at) && i < 2 && q == l + Advance(i, m) && a0 == Inner(at, 2, m, 0)
       && a1 == Inner(at, 2, m, 1) {
      TwoPartsFit(k, points, |input|, rest, at, 0);
      CoefficientTwo(mul, x, w, inverse, rest, at, l, i, q, D.Pow(mul, w, Advance(l, at.fstride)), m, a0, a1,
                     Coefficient(mul, x, w, rest, a0, l), Coefficient(mul, x, w, rest, a1, l),
                     Coefficient(mul, x, w, Times2(rest), at, q));
    }
  }

  lemma FixedFourExact(h: int, k: int, inverse: bool, input: seq<Complex>, w: Comp, points: nat, rest: Factors,
                       at: Place, l: nat, i: nat, q: nat, a0: Place, a1: Place, a2: Place, a3: Place)
    requires D.Lawful(D.Times()) && RootOf(D.Times(), w, points, inverse)
    ensures FourExact(FixedAim(h, k, inverse, input, w, points), rest, at, l, i, q, a0, a1, a2, a3)
  {
    var mul, x, m := D.Times(), SignalOf(input), Size(rest);
    if Fits(k, points, |input|, Times4(rest), at) && i < 4 && q == l + Advance(i, m)
       && FourPlaces(at, m, a0, a1, a2, a3) {
      FourPartsFit(k, points, |input|, rest, at, 0);
      CoefficientFour(mul, x, w, inverse, rest, at, l, i, q, D.Pow(mul, w, Advance(l, at.fstride)), m, a0, a1, a2, a3);
    }
  }

  lemma RootPower(w: Comp, m: nat, n: nat, v: Comp)
    requires m == n && O.Power(w, n) == v
    ensures D.Pow(D.Times(), w, m) == v
  {
    D.PowIsPower(w, m);
  }

  lemma RootIs(w: Comp, n: nat, inverse: bool)
    requires IsRoot(w, n, inverse)
    ensures RootOf(D.Times(), w, n, inverse)
  {
    forall m: nat | n == 2 * m ensures D.Pow(D.Times(), w, m) == O.Comp(-1.0, 0.0) {
      RootPower(w, m, n / 2, O.Comp(-1.0, 0.0));
    }
    forall m: nat | n == 4 * m ensures D.Pow(D.Times(), w, m) == D.QuarterTurn(inverse, 1) {
      RootPower(w, m, n / 4, D.QuarterTurn(inverse, 1));
    }
  }

  lemma FixedAims(h: int, k: int, inverse: bool, plan: Plan, w: Comp, c: Aim)
    requires Ready(h, k, inverse, plan) && TwiddlesOf(h, plan.tw, w) && IsRoot(w, |plan.tw|, inverse)
    requires c == FixedAim(h, k, inverse, plan.input, w, |plan.tw|)
    ensures Aims(c, plan)
  {
    D.TimesLawful();
    RootIs(w, |plan.tw|, inverse);
    forall at ensures LeafExact(c, plan.input, at) { FixedLeaf(h, k, inverse, plan.input, w, |plan.tw|, at); }
    forall rest, at, l: nat ensures TwoFit(c, plan.tw, rest, at, l) {
      FixedTwoFit(h, k, inverse, plan.input, w, plan.tw, rest, at, l);
    }
    forall rest, at, l: nat, a0, a1, a2, a3 ensures FourFit(c, plan.tw, rest, at, l, a0, a1, a2, a3) {
      FixedFourFit(h, k, inverse, plan.input, w, plan.tw, rest, at, l, a0, a1, a2, a3);
    }
    forall rest, at, l: nat, i: nat, q: nat, a0, a1 ensures TwoExact(c, rest, at, l, i, q, a0, a1) {
      FixedTwoExact(h, k, inverse, plan.input, w, |plan.tw|, rest, at, l, i, q, a0, a1);
    }
    forall rest, at, l: nat, i: nat, q: nat, a0, a1, a2, a3 ensures FourExact(c, rest, at, l, i, q, a0, a1, a2, a3) {
      FixedFourExact(h, k, inverse, plan.input, w, |plan.tw|, rest, at, l, i, q, a0, a1, a2, a3);
    }
    forall j: int, e: nat, a, b, tw, x, y, u ensures TwoNear(c, plan.op2, j, e, a, b, tw, x, y, u) {
      FixedTwo(h, k, inverse, plan.input, w, |plan.tw|, plan.op2, j, e, a, b, tw, x, y, u);
    }
    forall j: int, e: nat, f, tw, x, y, z, v, u, i: nat ensures FourNear(c, plan.op4, j, e, f, tw, x, y, z, v, u, i) {
      FixedFour(h, k, inverse, plan.input, w, |plan.tw|, plan.op4, j, e, f, tw, x, y, z, v, u, i);
    }
  }

  // ----- What kiss_fft_stride leaves

  /** The sum over i < n of input[i * stride] times the (i * q)-th power of w, divided by n. */
  function CoefficientOf(input: seq<Complex>, stride: nat, w: Comp, q: nat, n: nat): Comp
    requires n >= 1
  {
    D.Scaled(1.0 / n as real, D.Sum(SignalOf(input), 0, stride, O.Power(w, q), n))
  }

  predicate IsCoefficient(s: seq<Complex>, input: seq<Complex>, stride: nat, w: Comp, e: nat, q: nat)
    requires q < |s|
  {
    R.Close(s[q], CoefficientOf(input, stride, w, q, |s|), e as real)
  }

  /** The array holds the discrete Fourier transform of the input. */
  ghost predicate IsTransform(s: seq<Complex>, input: seq<Complex>, stride: nat, w: Comp, e: nat) {
    forall q: nat :: q < |s| ==> IsCoefficient(s, input, stride, w, e, q)
  }

  lemma CoefficientIsSum(input: seq<Complex>, stride: nat, w: Comp, fs: Factors, q: nat, n: nat)
    requires n == Size(fs)
    ensures Coefficient(D.Times(), SignalOf(input), w, fs, Place(0, 0, 1, stride), q)
         == CoefficientOf(input, stride, w, q, n)
  {
    AdvanceProduct(q, 1);
    D.PowIsPower(w, q);
    D.SumOfIsSum(SignalOf(input), 0, stride, O.Power(w, q), n);
  }

  /** The twiddles are those of the powers of a root for the length. */
  ghost predicate Rooted(h: int, tw: seq<Complex>, w: Comp, inverse: bool) {
    TwiddlesOf(h, tw, w) && IsRoot(w, |tw|, inverse)
  }

  lemma OutputClose(h: int, k: int, inverse: bool, plan: Plan, fs: Factors, o: Out, at: Place, q: nat, w: Comp, c: Aim,
                    v: Complex, x: Comp)
    requires c == FixedAim(h, k, inverse, plan.input, w, |plan.tw|) && Aims(c, plan)
    requires at.base + Size(fs) <= |o.s| && Fits(k, |plan.tw|, |plan.input|, fs, at) && q < Size(fs)
    requires v == Work(plan, fs, o, at).s[at.base + q]
    requires x == Coefficient(D.Times(), SignalOf(plan.input), w, fs, at, q)
    ensures R.Close(v, x, Err(fs) as real)
  {
    WorkNear(c, plan, fs, o, at, q);
  }

  lemma CloseIs(r: seq<Complex>, input: seq<Complex>, stride: nat, w: Comp, e: nat, q: nat, x: Comp)
    requires q < |r| && x == CoefficientOf(input, stride, w, q, |r|) && R.Close(r[q], x, e as real)
    ensures IsCoefficient(r, input, stride, w, e, q)
  {}

  lemma WholeOutput(fs: Factors, r: seq<Complex>, input: seq<Complex>, stride: nat, w: Comp, q: nat, x: Comp)
    requires q < |r| == Size(fs) && R.Close(r[q], x, Err(fs) as real)
    requires x == Coefficient(D.Times(), SignalOf(input), w, fs, Place(0, 0, 1, stride), q)
    ensures IsCoefficient(r, input, stride, w, Err(fs), q)
  {
    CoefficientIsSum(input, stride, w, fs, q, |r|);
    CloseIs(r, input, stride, w, Err(fs), q, x);
  }

  lemma WholePlaced(k: int, points: nat, inputs: nat, fs: Factors, stride: nat)
    requires FitsFrom(TWO_FROM, 1, k, fs) && points == Size(fs) && Advance(Size(fs) - 1, stride) < inputs
    ensures Fits(k, points, inputs, fs, Place(0, 0, 1, stride))
  {
    AdvanceProduct(Size(fs), 1);
  }

  /** A whole transform of values of the k-th disc computes the discrete Fourier transform
      divided by its length: forward or inverse as the root of the twiddles is, within six
      for each factor of two and eleven for each of four. */
  lemma WholeIsTransform(h: int, k: int, inverse: bool, input: seq<Complex>, tw: seq<Complex>, fs: Factors, stride: nat,
                         output: seq<Complex>, w: Comp)
    requires h >= 1 && |output| == |tw| == Size(fs) && Advance(Size(fs) - 1, stride) < |input|
    requires Safe(h, k, input, tw, fs) && Rooted(h, tw, w, inverse)
    ensures IsTransform(Whole(h, inverse, input, tw, fs, stride, output).s, input, stride, w, Err(fs))
  {
    var plan, o, at := PlanOf(h, inverse, input, tw), Out(output, 0, false), Place(0, 0, 1, stride);
    var c, r := FixedAim(h, k, inverse, input, w, |tw|), Whole(h, inverse, input, tw, fs, stride, output).s;
    FixedAims(h, k, inverse, plan, w, c);
    WholePlaced(k, |tw|, |input|, fs, stride);
    forall q: nat | q < |r| ensures IsCoefficient(r, input, stride, w, Err(fs), q) {
      var x := Coefficient(D.Times(), SignalOf(input), w, fs, at, q);
      OutputClose(h, k, inverse, plan, fs, o, at, q, w, c, r[q], x);
      WholeOutput(fs, r, input, stride, w, q, x);
    }
  }

  /** kiss_fft_stride. From an input in the k-th disc it prints nothing and loses nothing, and
      with the twiddles of a root for the length it leaves the discrete Fourier transform of
      every stride-th value of the input, divided by the length, in natural order. (A length
      of one goes to the generic butterfly, which is not part of this model.) */
  method KissFftStride(h: int, fin: array<Complex>, fout: array<Complex>, tw: seq<Complex>, inverse: bool, fs: Factors,
                       stride: nat, ghost k: int, ghost w: Comp)
    returns (warnings: nat)
    requires h >= 1 && fs != One && fout.Length == |tw| == Size(fs) && Advance(Size(fs) - 1, stride) < fin.Length
    modifies fout
    ensures Holds(fout, warnings, Whole(h, inverse, old(fin[..]), tw, fs, stride, old(fout[..])))
    ensures Safe(h, k, old(fin[..]), tw, fs) ==>
      Silent(h, Left(k, fs), Whole(h, inverse, old(fin[..]), tw, fs, stride, old(fout[..])))
    ensures Safe(h, k, old(fin[..]), tw, fs) && Rooted(h, tw, w, inverse) ==>
      IsTransform(fout[..], old(fin[..]), stride, w, Err(fs))
  {
    WholeNeverOverflows(h, k, inverse, fin[..], tw, fs, stride, fout[..]);
    if Safe(h, k, fin[..], tw, fs) && Rooted(h, tw, w, inverse) {
      WholeIsTransform(h, k, inverse, fin[..], tw, fs, stride, fout[..], w);
    }
    warnings := RunFft(h, fin, fout, tw, inverse, fs, stride);
  }
}
