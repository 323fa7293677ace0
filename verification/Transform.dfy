/** kf_work of codec2-1.2.0/src/kiss_fft.c for lengths that factor into fours and twos: the
    recursion over the factors, in place, and the inputs on which a whole fixed-point
    transform prints no warning and loses nothing to a conversion. */
module Transform {
  import opened FixedPoint
  import opened Butterfly
  import opened Fft

  // ----- kf_work as a function of the output array

  /** The factors of a length, outermost first, as kf_factor stores them; One stands for the
      single values at the bottom. */
  datatype Factors = One | Times2(rest: Factors) | Times4(rest: Factors)

  /** The length of a transform with these factors. */
  function Size(fs: Factors): (n: nat)
    ensures n >= 1
  {
    match fs
    case One => 1
    case Times2(rest) => 2 * Size(rest)
    case Times4(rest) => 4 * Size(rest)
  }

  /** k less the number of factors that are four. */
  function Left(k: int, fs: Factors): (j: int)
    ensures j <= k
  {
    match fs
    case One => k
    case Times2(rest) => Left(k, rest)
    case Times4(rest) => Left(k, rest) - 1
  }

  /** At every factor of two at least g2 of k is left, and at every factor of four g4. */
  predicate FitsFrom(g2: int, g4: int, k: int, fs: Factors) {
    match fs
    case One => true
    case Times2(rest) => FitsFrom(g2, g4, k, rest) && Left(k, rest) >= g2
    case Times4(rest) => FitsFrom(g2, g4, k, rest) && Left(k, rest) >= g4
  }

  /** What a transform does not change: the butterflies, the input and the twiddles. */
  datatype Plan = Plan(op2: Op2, op4: Op4, input: seq<Complex>, tw: seq<Complex>)

  /** Where a transform works: on entries base.. of the output, on the input from f in hops,
      and with every fstride-th twiddle. */
  datatype Place = Place(base: nat, f: nat, fstride: nat, hop: nat)

  /** The place of the i-th of p smaller transforms of length m. */
  function Inner(at: Place, p: nat, m: nat, i: nat): Place {
    Place(at.base + Advance(i, m), at.f + Advance(i, at.hop), p * at.fstride, p * at.hop)
  }

  function Strided(tw: seq<Complex>, fstride: nat, m: nat): (r: seq<Complex>)
    ensures |r| == m && forall k: nat :: k < m ==> r[k] == TwiddleAt(tw, k, fstride)
  {
    seq(m, k requires 0 <= k < m => TwiddleAt(tw, k, fstride))
  }

  function Threes(tw: seq<Complex>, fstride: nat, m: nat): (r: seq<Three>)
    ensures |r| == m && forall k: nat :: k < m ==> r[k] == ThreeOf(tw, k, fstride)
  {
    seq(m, k requires 0 <= k < m => ThreeOf(tw, k, fstride))
  }

  /** The butterflies that recombine two or four parts. */
  function Recombine2(plan: Plan, o: Out, at: Place, m: nat): (r: Out)
    requires at.base + 2 * m <= |o.s|
    ensures |r.s| == |o.s|
  {
    Stage2(plan.op2, o, at.base, m, Strided(plan.tw, at.fstride, m), m)
  }

  function Recombine4(plan: Plan, o: Out, at: Place, m: nat): (r: Out)
    requires at.base + 4 * m <= |o.s|
    ensures |r.s| == |o.s|
  {
    Stage4(plan.op4, o, at.base, m, Threes(plan.tw, at.fstride, m), m)
  }

  /** The innermost step: one value of the input copied. */
  function Copied(plan: Plan, o: Out, at: Place): (r: Out)
    requires at.base < |o.s|
    ensures |r.s| == |o.s|
  {
    Out(o.s[at.base := At(plan.input, at.f)], o.printed, o.lost)
  }

  /** kf_work: the smaller transforms, one hop of the input apart, and their recombination. */
  function Work(plan: Plan, fs: Factors, o: Out, at: Place): (r: Out)
    requires at.base + Size(fs) <= |o.s|
    ensures |r.s| == |o.s|
    decreases fs, 5
  {
    match fs
    case One => Copied(plan, o, at)
    case Times2(rest) =>
      AdvanceProduct(2, Size(rest));
      Recombine2(plan, Parts(plan, rest, o, at, 2, 2), at, Size(rest))
    case Times4(rest) =>
      AdvanceProduct(4, Size(rest));
      Recombine4(plan, Parts(plan, rest, o, at, 4, 4), at, Size(rest))
  }

  /** The first i of p smaller transforms, one after the other. */
  function Parts(plan: Plan, rest: Factors, o: Out, at: Place, p: nat, i: nat): (r: Out)
    requires at.base + Advance(i, Size(rest)) <= |o.s|
    ensures |r.s| == |o.s|
    decreases rest, 6, i
  {
    if i == 0 then o
    else Work(plan, rest, Parts(plan, rest, o, at, p, i - 1), Inner(at, p, Size(rest), i - 1))
  }

  // ----- A stage on values of a set

  /** A set of values; the discs below are such sets. */
  type Region = Complex -> bool

  ghost predicate AllIn(c: Region, s: seq<Complex>, lo: nat, hi: nat) {
    hi <= |s| && forall i :: lo <= i < hi ==> c(s[i])
  }

  predicate SameOutside(s: seq<Complex>, r: seq<Complex>, lo: nat, hi: nat) {
    |r| == |s| && forall i :: 0 <= i < |s| && !(lo <= i < hi) ==> r[i] == s[i]
  }

  /** Nothing printed, nothing lost, nothing written outside lo..hi, and values of d there. */
  ghost predicate Quiet(d: Region, before: Out, after: Out, lo: nat, hi: nat) {
    && after.printed == before.printed && after.lost == before.lost
    && AllIn(d, after.s, lo, hi) && SameOutside(before.s, after.s, lo, hi)
  }

  ghost predicate QuietPair(c: Region, p: Pair) { p.warnings == 0 && !p.lost && c(p.f) && c(p.f2) }

  /** On values of c and twiddles of t, op prints nothing, loses nothing and gives values
      of c. */
  ghost predicate Quiet2(op: Op2, c: Region, t: Region) {
    forall f, f2, tw {:trigger op(f, f2, tw)} :: c(f) && c(f2) && t(tw) ==> QuietPair(c, op(f, f2, tw))
  }

  ghost predicate AllThree(t: Region, tw: Three) { t(tw.tw1) && t(tw.tw2) && t(tw.tw3) }

  ghost predicate AllFour(c: Region, f: Four) { c(f.f0) && c(f.f1) && c(f.f2) && c(f.f3) }

  ghost predicate QuietQuad(d: Region, q: Quad) { q.warnings == 0 && !q.lost && AllFour(d, q.f) }

  ghost predicate Quiet4(op: Op4, c: Region, d: Region, t: Region) {
    forall f, tw {:trigger op(f, tw)} :: AllFour(c, f) && AllThree(t, tw) ==> QuietQuad(d, op(f, tw))
  }

  /** A stage of quiet radix-2 butterflies stays in the region. */
  lemma {:induction false} QuietStage2(op: Op2, c: Region, t: Region, o: Out, base: nat, m: nat, tw: seq<Complex>,
                                       k: nat)
    requires Quiet2(op, c, t) && AllIn(t, tw, 0, |tw|)
    requires k <= m <= |tw| && AllIn(c, o.s, base, base + 2 * m)
    ensures Quiet(c, o, Stage2(op, o, base, m, tw, k), base, base + 2 * m)
  {
    if k > 0 {
      QuietStage2(op, c, t, o, base, m, tw, k - 1);
      var r := Stage2(op, o, base, m, tw, k - 1).s;
      assert t(tw[k - 1]) && c(r[base + k - 1]) && c(r[base + m + k - 1]);
    }
  }

  predicate SameOn(s: seq<Complex>, r: seq<Complex>, lo: nat, hi: nat) {
    |r| == |s| && forall i :: lo <= i < hi && i < |s| ==> r[i] == s[i]
  }

  /** The entries the stage has not reached are as it found them. */
  predicate Untouched(s: seq<Complex>, r: seq<Complex>, base: nat, m: nat, k: nat) {
    && SameOn(s, r, base + k, base + m) && SameOn(s, r, base + m + k, base + 2 * m)
    && SameOn(s, r, base + 2 * m + k, base + 3 * m) && SameOn(s, r, base + 3 * m + k, base + 4 * m)
  }

  ghost predicate QuietSoFar(d: Region, o: Out, r: Out, base: nat, m: nat, k: nat) {
    Quiet(d, o, r, base, base + 4 * m) && Untouched(o.s, r.s, base, m, k)
  }

  /** A butterfly finds its four entries as they were. */
  lemma FourFound(c: Region, d: Region, o: Out, r: Out, base: nat, m: nat, k: nat)
    requires k < m && AllIn(c, o.s, base, base + 4 * m) && QuietSoFar(d, o, r, base, m, k)
    ensures AllFour(c, TakeFour(r.s, base + k, m))
  {}

  /** What one radix-4 butterfly adds to the state of a stage. */
  lemma QuietNext(d: Region, o: Out, r: Out, base: nat, m: nat, k: nat, q: Quad)
    requires k < m && QuietSoFar(d, o, r, base, m, k) && QuietQuad(d, q)
    ensures QuietSoFar(d, o, PutQuad(r, base + k, m, q), base, m, k + 1)
  {}

  /** Nothing has happened before the first butterfly. */
  lemma QuietStart(c: Region, d: Region, o: Out, base: nat, m: nat)
    requires (forall x :: c(x) ==> d(x)) && AllIn(c, o.s, base, base + 4 * m)
    ensures QuietSoFar(d, o, o, base, m, 0)
  {}

  lemma QuietStep4(op: Op4, c: Region, d: Region, t: Region, o: Out, r: Out, base: nat, m: nat, k: nat, tw: Three)
    requires Quiet4(op, c, d, t) && AllThree(t, tw) && k < m && AllIn(c, o.s, base, base + 4 * m)
    requires QuietSoFar(d, o, r, base, m, k)
    ensures QuietSoFar(d, o, PutQuad(r, base + k, m, op(TakeFour(r.s, base + k, m), tw)), base, m, k + 1)
  {
    FourFound(c, d, o, r, base, m, k);
    var f := TakeFour(r.s, base + k, m);
    QuietOne(op, c, d, t, f, tw);
    QuietNext(d, o, r, base, m, k, op(f, tw));
  }

  lemma QuietOne(op: Op4, c: Region, d: Region, t: Region, f: Four, tw: Three)
    requires Quiet4(op, c, d, t) && AllFour(c, f) && AllThree(t, tw)
    ensures QuietQuad(d, op(f, tw))
  {}

  /** A stage of quiet radix-4 butterflies leads from one region to another around it. */
  lemma {:induction false} QuietStage4(op: Op4, c: Region, d: Region, t: Region, o: Out, base: nat, m: nat,
                                      tw: seq<Three>, k: nat)
    requires Quiet4(op, c, d, t) && (forall x :: c(x) ==> d(x)) && forall i :: 0 <= i < |tw| ==> AllThree(t, tw[i])
    requires k <= m <= |tw| && AllIn(c, o.s, base, base + 4 * m)
    ensures QuietSoFar(d, o, Stage4(op, o, base, m, tw, k), base, m, k)
  {
    if k == 0 {
      QuietStart(c, d, o, base, m);
    } else {
      QuietStage4(op, c, d, t, o, base, m, tw, k - 1);
      QuietStep4(op, c, d, t, o, Stage4(op, o, base, m, tw, k - 1), base, m, k - 1, tw[k - 1]);
    }
  }

  // ----- One after the other

  lemma QuietNothing(d: Region, o: Out, at: nat)
    requires at <= |o.s|
    ensures Quiet(d, o, o, at, at)
  {}

  /** Two quiet steps on adjacent entries. */
  lemma QuietThen(d: Region, o: Out, a: Out, b: Out, lo: nat, mid: nat, hi: nat)
    requires lo <= mid <= hi && Quiet(d, o, a, lo, mid) && Quiet(d, a, b, mid, hi)
    ensures Quiet(d, o, b, lo, hi)
  {}

  /** Two quiet steps on the same entries. */
  lemma QuietAgain(c: Region, d: Region, o: Out, a: Out, b: Out, lo: nat, hi: nat)
    requires Quiet(c, o, a, lo, hi) && Quiet(d, a, b, lo, hi)
    ensures Quiet(d, o, b, lo, hi)
  {}

  // ----- What a transform reads

  /** A recombination to length n at this place stays inside the output and the twiddles. */
  predicate StageReaches(plan: Plan, n: nat, entries: nat, at: Place) {
    at.base + n <= entries && at.fstride >= 1 && Advance(n, at.fstride) <= |plan.tw|
  }

  /** A transform of length n at this place reads and writes inside its arrays. */
  predicate Reaches(plan: Plan, n: nat, entries: nat, at: Place) {
    StageReaches(plan, n, entries, at) && (n > 0 ==> at.f + Advance(n - 1, at.hop) < |plan.input|)
  }

  lemma StridesNest(p: nat, m: nat, w: nat, i: nat)
    requires i < p && m >= 1
    ensures Advance(m, p * w) == Advance(p * m, w)
    ensures Advance(i, w) + Advance(m - 1, p * w) <= Advance(p * m - 1, w)
    ensures Advance(i, m) + m <= p * m
  {
    AdvanceProduct(m, p * w);
    AdvanceProduct(p * m, w);
    AdvanceProduct(i, w);
    AdvanceProduct(m - 1, p * w);
    AdvanceProduct(p * m - 1, w);
    AdvanceProduct(i, m);
    NestedProducts(p, m, w, i);
  }

  lemma NestedProducts(p: int, m: int, w: int, i: int)
    requires 0 <= i < p && m >= 1 && w >= 0
    ensures m * (p * w) == (p * m) * w
    ensures p * m >= 1 && i * w + (m - 1) * (p * w) <= (p * m - 1) * w
    ensures i * m + m <= p * m
  {
    var pw := p * w;
    Reorder(m, p, w);
    Less(m, pw);
    Less(p * m, w);
    ProductOrder(i + 1, p, m);
    Less(i + 1, m);
    ProductOrder(i + 1, p, w);
    Less(i + 1, w);
    ProductOrder(1, m, p);
  }

  lemma Reorder(m: int, p: int, w: int)
    ensures m * (p * w) == (p * m) * w && m * p == p * m
  {}

  lemma Less(a: int, b: int)
    ensures (a - 1) * b == a * b - b
  {}

  lemma ProductOrder(a: int, b: int, w: int)
    requires a <= b && w >= 0
    ensures a * w <= b * w
  {}

  /** A g-fold stride stays inside for n / g steps when the stride does for n. */
  lemma StrideInside(n: nat, w: nat, len: nat, g: nat, gw: nat, k: nat)
    requires w >= 1 && Advance(n, w) <= len && g * k < n && gw == g * w
    ensures StepInside(k, gw, len)
  {
    AdvanceProduct(n, w);
    AdvanceProduct(k, gw);
    StrideProduct(n, w, g, gw, k);
  }

  lemma StrideProduct(n: int, w: int, g: int, gw: int, k: int)
    requires w >= 1 && g * k < n && gw == g * w
    ensures k * gw < n * w
  {
    assert k * (g * w) == (g * k) * w;
    ProductGrows(g * k, n, w);
  }

  lemma ProductGrows(a: int, b: int, w: int)
    requires a < b && w >= 1
    ensures a * w < b * w
  {}

  /** Where a transform reaches, its parts reach. */
  lemma PartReaches(plan: Plan, p: nat, m: nat, entries: nat, at: Place, i: nat)
    requires i < p && m >= 1 && Reaches(plan, p * m, entries, at)
    ensures Reaches(plan, m, entries, Inner(at, p, m, i))
  {
    StridesNest(p, m, at.fstride, i);
    StridesNest(p, m, at.hop, i);
  }

  // ----- The recursion, for any property of its steps

  /** What going from a to r, and in a second run from b to u, does to entries lo..hi, with
      j of k left. */
  type Kept = (int, Out, Out, Out, Out, nat, nat) -> bool

  /** Whether a transform of some length at some place stays inside what it reads. */
  type Reach = (nat, Place) -> bool

  /** A property of two runs of a transform and what its steps need: enough left at a factor
      of two and of four, and places inside. */
  datatype Claim = Claim(kept: Kept, reach: Reach, plan: Plan, g2: int, g4: int, k: int)

  ghost predicate RestartAt(c: Claim, i: int, j: int, a: Out, b: Out, r: Out, u: Out, lo: nat, hi: nat) {
    c.kept(j, a, b, r, u, lo, hi) ==> c.kept(i, r, u, r, u, hi, hi)
  }

  ghost predicate ThenAt(c: Claim, j: int, a: Out, b: Out, r: Out, u: Out, v: Out, w: Out, lo: nat, mid: nat, hi: nat) {
    lo <= mid <= hi && c.kept(j, a, b, r, u, lo, mid) && c.kept(j, r, u, v, w, mid, hi) ==>
        c.kept(j, a, b, v, w, lo, hi)
  }

  ghost predicate CopyAt(c: Claim, a: Out, b: Out, at: Place, n: nat, hi: nat) {
    |a.s| == |b.s| && n == 1 && hi == at.base + n <= |a.s| && c.reach(n, at)
        && c.kept(c.k, a, b, a, b, at.base, at.base) ==>
      c.kept(c.k, a, b, Copied(c.plan, a, at), Copied(c.plan, b, at), at.base, hi)
  }

  ghost predicate TwoAt(c: Claim, j: int, a: Out, b: Out, r: Out, u: Out, at: Place, m: nat, n: nat, hi: nat) {
    |r.s| == |u.s| && n == 2 * m && hi == at.base + n <= |r.s| && c.g2 <= j <= c.k && c.reach(n, at)
    && c.kept(j, a, b, r, u, at.base, hi) ==>
      c.kept(j, a, b, Recombine2(c.plan, r, at, m), Recombine2(c.plan, u, at, m), at.base, hi)
  }

  ghost predicate FourAt(c: Claim, j: int, a: Out, b: Out, r: Out, u: Out, at: Place, m: nat, n: nat, hi: nat) {
    |r.s| == |u.s| && n == 4 * m && hi == at.base + n <= |r.s| && c.g4 <= j <= c.k && c.reach(n, at)
    && c.kept(j, a, b, r, u, at.base, hi) ==>
      c.kept(j - 1, a, b, Recombine4(c.plan, r, at, m), Recombine4(c.plan, u, at, m), at.base, hi)
  }

  ghost predicate PartAt(c: Claim, at: Place, p: nat, m: nat, n: nat, i: nat) {
    i < p && m >= 1 && n == Advance(p, m) && c.reach(n, at) ==> c.reach(m, Inner(at, p, m, i))
  }

  /** Each step of a transform does what the claim says. */
  ghost predicate StepsKeep(c: Claim) {
    && (forall i, j, a, b, r, u, lo, hi :: RestartAt(c, i, j, a, b, r, u, lo, hi))
    && (forall j, a, b, r, u, v, w, lo, mid, hi :: ThenAt(c, j, a, b, r, u, v, w, lo, mid, hi))
    && (forall a, b, at, n, hi :: CopyAt(c, a, b, at, n, hi))
    && (forall j, a, b, r, u, at, m, n, hi :: TwoAt(c, j, a, b, r, u, at, m, n, hi))
    && (forall j, a, b, r, u, at, m, n, hi :: FourAt(c, j, a, b, r, u, at, m, n, hi))
    && (forall at, p, m, n, i :: PartAt(c, at, p, m, n, i))
  }

  /** Two outputs of a length, about to have entries from base on written. */
  ghost predicate Starts(c: Claim, a: Out, b: Out, base: nat) {
    |a.s| == |b.s| && c.kept(c.k, a, b, a, b, base, base)
  }

  /** What is kept of the first i smaller transforms, in two runs, up to entry hi. */
  ghost predicate PartsKeptAt(c: Claim, rest: Factors, a: Out, b: Out, at: Place, p: nat, i: nat, hi: nat)
    requires |a.s| == |b.s| && at.base + Advance(i, Size(rest)) <= |a.s|
  {
    c.kept(Left(c.k, rest), a, b, Parts(c.plan, rest, a, at, p, i), Parts(c.plan, rest, b, at, p, i), at.base, hi)
  }

  /** Bounds that are sums are parameters, so that they are compared as numbers. */
  lemma {:induction false} PartsKept(c: Claim, rest: Factors, a: Out, b: Out, at: Place, p: nat, i: nat, n: nat,
                                     hi: nat)
    requires StepsKeep(c) && FitsFrom(c.g2, c.g4, c.k, rest) && Starts(c, a, b, at.base)
    requires i <= p && n == Advance(p, Size(rest)) && c.reach(n, at) && hi == at.base + Advance(i, Size(rest)) <= |a.s|
    ensures PartsKeptAt(c, rest, a, b, at, p, i, hi)
    decreases rest, 6, i
  {
    if i == 0 {
      Restart(c, Left(c.k, rest), c.k, a, b, a, b, at.base, at.base, hi);
    } else {
      var inner := Inner(at, p, Size(rest), i - 1);
      PartsKept(c, rest, a, b, at, p, i - 1, n, inner.base);
      PartsNext(c, rest, a, b, at, p, i - 1, n, inner, hi);
    }
  }

  lemma {:induction false} PartsNext(c: Claim, rest: Factors, a: Out, b: Out, at: Place, p: nat, i: nat, n: nat,
                                    inner: Place, hi: nat)
    requires StepsKeep(c) && FitsFrom(c.g2, c.g4, c.k, rest) && |a.s| == |b.s| && inner == Inner(at, p, Size(rest), i)
    requires i < p && n == Advance(p, Size(rest)) && c.reach(n, at) && hi == inner.base + Size(rest) <= |a.s|
    requires PartsKeptAt(c, rest, a, b, at, p, i, inner.base)
    ensures PartsKeptAt(c, rest, a, b, at, p, i + 1, hi)
    decreases rest, 5, 2
  {
    InnerReaches(c, at, p, Size(rest), n, i, inner);
    PartKept(c, rest, a, b, Parts(c.plan, rest, a, at, p, i), Parts(c.plan, rest, b, at, p, i), at.base, inner, hi);
  }

  lemma InnerReaches(c: Claim, at: Place, p: nat, m: nat, n: nat, i: nat, inner: Place)
    requires StepsKeep(c) && i < p && m >= 1 && n == Advance(p, m) && c.reach(n, at) && inner == Inner(at, p, m, i)
    ensures c.reach(m, inner)
  {
    assert PartAt(c, at, p, m, n, i);
  }

  lemma Restart(c: Claim, i: int, j: int, a: Out, b: Out, r: Out, u: Out, lo: nat, hi: nat, end: nat)
    requires StepsKeep(c) && c.kept(j, a, b, r, u, lo, hi) && end == hi
    ensures c.kept(i, r, u, r, u, hi, end)
  {
    assert RestartAt(c, i, j, a, b, r, u, lo, hi);
  }

  lemma Join(c: Claim, j: int, a: Out, b: Out, r: Out, u: Out, v: Out, w: Out, lo: nat, mid: nat, hi: nat)
    requires StepsKeep(c) && lo <= mid <= hi && c.kept(j, a, b, r, u, lo, mid) && c.kept(j, r, u, v, w, mid, hi)
    ensures c.kept(j, a, b, v, w, lo, hi)
  {
    assert ThenAt(c, j, a, b, r, u, v, w, lo, mid, hi);
  }

  lemma JoinTwo(c: Claim, j: int, a: Out, b: Out, r: Out, u: Out, at: Place, m: nat, n: nat, hi: nat)
    requires StepsKeep(c) && |r.s| == |u.s| && n == 2 * m && hi == at.base + n <= |r.s| && c.g2 <= j <= c.k
    requires c.reach(n, at) && c.kept(j, a, b, r, u, at.base, hi)
    ensures c.kept(j, a, b, Recombine2(c.plan, r, at, m), Recombine2(c.plan, u, at, m), at.base, hi)
  {
    assert TwoAt(c, j, a, b, r, u, at, m, n, hi);
  }

  lemma JoinFour(c: Claim, j: int, a: Out, b: Out, r: Out, u: Out, at: Place, m: nat, n: nat, hi: nat)
    requires StepsKeep(c) && |r.s| == |u.s| && n == 4 * m && hi == at.base + n <= |r.s| && c.g4 <= j <= c.k
    requires c.reach(n, at) && c.kept(j, a, b, r, u, at.base, hi)
    ensures c.kept(j - 1, a, b, Recombine4(c.plan, r, at, m), Recombine4(c.plan, u, at, m), at.base, hi)
  {
    assert FourAt(c, j, a, b, r, u, at, m, n, hi);
  }

  /** One more smaller transform after those before it. */
  lemma {:induction false} PartKept(c: Claim, rest: Factors, a: Out, b: Out, r: Out, u: Out, lo: nat, inner: Place,
                                    hi: nat)
    requires StepsKeep(c) && FitsFrom(c.g2, c.g4, c.k, rest) && c.reach(Size(rest), inner)
    requires |r.s| == |u.s| && lo <= inner.base && hi == inner.base + Size(rest) <= |r.s|
    requires c.kept(Left(c.k, rest), a, b, r, u, lo, inner.base)
    ensures c.kept(Left(c.k, rest), a, b, Work(c.plan, rest, r, inner), Work(c.plan, rest, u, inner), lo, hi)
    decreases rest, 5, 1
  {
    var j := Left(c.k, rest);
    Restart(c, c.k, j, a, b, r, u, lo, inner.base, inner.base);
    WorkKept(c, rest, r, u, inner, Size(rest), hi);
    Join(c, j, a, b, r, u, Work(c.plan, rest, r, inner), Work(c.plan, rest, u, inner), lo, inner.base, hi);
  }

  /** A transform does what its steps do: copies, smaller transforms side by side, and
      recombinations, each of four with one less of k left. */
  lemma {:induction false} WorkKept(c: Claim, fs: Factors, a: Out, b: Out, at: Place, n: nat, hi: nat)
    requires StepsKeep(c) && FitsFrom(c.g2, c.g4, c.k, fs) && Starts(c, a, b, at.base)
    requires n == Size(fs) && c.reach(n, at) && hi == at.base + n <= |a.s|
    ensures c.kept(Left(c.k, fs), a, b, Work(c.plan, fs, a, at), Work(c.plan, fs, b, at), at.base, hi)
    decreases fs, 5, 0
  {
    match fs
    case One => assert CopyAt(c, a, b, at, n, hi);
    case Times2(rest) =>
      AdvanceProduct(2, Size(rest));
      PartsKept(c, rest, a, b, at, 2, 2, n, hi);
      JoinTwo(c, Left(c.k, rest), a, b, Parts(c.plan, rest, a, at, 2, 2), Parts(c.plan, rest, b, at, 2, 2),
              at, Size(rest), n, hi);
    case Times4(rest) =>
      AdvanceProduct(4, Size(rest));
      PartsKept(c, rest, a, b, at, 4, 4, n, hi);
      JoinFour(c, Left(c.k, rest), a, b, Parts(c.plan, rest, a, at, 4, 4), Parts(c.plan, rest, b, at, 4, 4),
               at, Size(rest), n, hi);
  }

  // ----- Quiet transforms

  /** Regions around one another, the 0-th outermost. */
  type Regions = int -> Region

  /** The first region that a radix-2 butterfly keeps. */
  const TWO_FROM := 3

  /** A radix-2 butterfly keeps the j-th region, and a radix-4 butterfly leads to the one
      around it. */
  ghost predicate SteadyAt(discs: Regions, t: Region, plan: Plan, j: int) {
    (j >= TWO_FROM ==> Quiet2(plan.op2, discs(j), t))
    && (j >= 1 ==> Quiet4(plan.op4, discs(j), discs(j - 1), t) && forall c :: discs(j)(c) ==> discs(j - 1)(c))
  }

  ghost predicate Steady(discs: Regions, t: Region, k: int, plan: Plan) {
    && (forall j {:trigger SteadyAt(discs, t, plan, j)} :: 0 <= j <= k ==> SteadyAt(discs, t, plan, j))
    && AllIn(discs(k), plan.input, 0, |plan.input|) && AllIn(t, plan.tw, 0, |plan.tw|)
  }

  lemma TwosReach(tw: seq<Complex>, fstride: nat, m: nat)
    requires fstride >= 1 && Advance(2 * m, fstride) <= |tw|
    ensures forall k: nat :: k < m ==> StepInside(k, fstride, |tw|)
  {
    forall k: nat | k < m ensures StepInside(k, fstride, |tw|) {
      StrideInside(2 * m, fstride, |tw|, 1, fstride, k);
    }
  }

  lemma FoursReach(tw: seq<Complex>, fstride: nat, m: nat)
    requires fstride >= 1 && Advance(4 * m, fstride) <= |tw|
    ensures forall k: nat :: k < m ==> ThreeInside(k, fstride, |tw|)
  {
    forall k: nat | k < m ensures ThreeInside(k, fstride, |tw|) {
      StrideInside(4 * m, fstride, |tw|, 1, fstride, k);
      StrideInside(4 * m, fstride, |tw|, 2, 2 * fstride, k);
      StrideInside(4 * m, fstride, |tw|, 3, 3 * fstride, k);
    }
  }

  lemma StridedTwiddles(t: Region, tw: seq<Complex>, fstride: nat, m: nat)
    requires AllIn(t, tw, 0, |tw|) && fstride >= 1 && Advance(2 * m, fstride) <= |tw|
    ensures AllIn(t, Strided(tw, fstride, m), 0, m)
  {
    TwosReach(tw, fstride, m);
    forall k: nat | k < m ensures t(Strided(tw, fstride, m)[k]) {
      assert StepInside(k, fstride, |tw|);
    }
  }

  lemma ThreesTwiddles(t: Region, tw: seq<Complex>, fstride: nat, m: nat)
    requires AllIn(t, tw, 0, |tw|) && fstride >= 1 && Advance(4 * m, fstride) <= |tw|
    ensures forall k :: 0 <= k < m ==> AllThree(t, Threes(tw, fstride, m)[k])
  {
    FoursReach(tw, fstride, m);
    forall k: nat | k < m ensures AllThree(t, Threes(tw, fstride, m)[k]) {
      assert ThreeInside(k, fstride, |tw|);
    }
  }

  lemma Recombine2Quiet(discs: Regions, t: Region, k: int, j: int, plan: Plan, o: Out, at: Place, m: nat)
    requires Steady(discs, t, k, plan) && TWO_FROM <= j <= k && StageReaches(plan, 2 * m, |o.s|, at)
    requires AllIn(discs(j), o.s, at.base, at.base + 2 * m)
    ensures Quiet(discs(j), o, Recombine2(plan, o, at, m), at.base, at.base + 2 * m)
  {
    assert SteadyAt(discs, t, plan, j);
    StridedTwiddles(t, plan.tw, at.fstride, m);
    QuietStage2(plan.op2, discs(j), t, o, at.base, m, Strided(plan.tw, at.fstride, m), m);
  }

  lemma Recombine4Quiet(discs: Regions, t: Region, k: int, j: int, plan: Plan, o: Out, at: Place, m: nat)
    requires Steady(discs, t, k, plan) && 1 <= j <= k && StageReaches(plan, 4 * m, |o.s|, at)
    requires AllIn(discs(j), o.s, at.base, at.base + 4 * m)
    ensures Quiet(discs(j - 1), o, Recombine4(plan, o, at, m), at.base, at.base + 4 * m)
  {
    assert SteadyAt(discs, t, plan, j);
    ThreesTwiddles(t, plan.tw, at.fstride, m);
    QuietStage4(plan.op4, discs(j), discs(j - 1), t, o, at.base, m, Threes(plan.tw, at.fstride, m), m);
  }

  lemma CopyQuiet(d: Region, plan: Plan, o: Out, at: Place)
    requires AllIn(d, plan.input, 0, |plan.input|) && Reaches(plan, 1, |o.s|, at)
    ensures Quiet(d, o, Copied(plan, o, at), at.base, at.base + 1)
  {}

  ghost function QuietClaim(discs: Regions, k: int, plan: Plan, entries: nat): Claim {
    Claim((j: int, a: Out, b: Out, r: Out, u: Out, lo: nat, hi: nat) => |a.s| == entries
        && Quiet(discs(j), a, r, lo, hi),
          (n: nat, at: Place) => Reaches(plan, n, entries, at), plan, TWO_FROM, 1, k)
  }

  lemma QuietSteps(discs: Regions, t: Region, k: int, plan: Plan, entries: nat)
    requires Steady(discs, t, k, plan)
    ensures StepsKeep(QuietClaim(discs, k, plan, entries))
  {
    var c := QuietClaim(discs, k, plan, entries);
    forall i: int, j: int, a: Out, b: Out, r: Out, u: Out, lo: nat, hi: nat
        ensures RestartAt(c, i, j, a, b, r, u, lo, hi) {
      if |a.s| == entries && Quiet(discs(j), a, r, lo, hi) { QuietNothing(discs(i), r, hi); }
    }
    forall j: int, a: Out, b: Out, r: Out, u: Out, v: Out, w: Out, lo: nat, mid: nat, hi: nat
      ensures ThenAt(c, j, a, b, r, u, v, w, lo, mid, hi)
    {
      if lo <= mid <= hi && c.kept(j, a, b, r, u, lo, mid) && c.kept(j, r, u, v, w, mid, hi) {
        QuietThen(discs(j), a, r, v, lo, mid, hi);
      }
    }
    forall a: Out, b: Out, at: Place, n: nat, hi: nat ensures CopyAt(c, a, b, at, n, hi) {
      if |a.s| == entries && n == 1 && hi == at.base + n && Reaches(plan, 1, entries, at) {
        CopyQuiet(discs(k), plan, a, at);
      }
    }
    forall j: int, a: Out, b: Out, r: Out, u: Out, at: Place, m: nat, n: nat, hi: nat
      ensures TwoAt(c, j, a, b, r, u, at, m, n, hi)
    {
      QuietTwoAt(discs, t, k, plan, entries, j, a, b, r, u, at, m, n, hi);
    }
    forall j: int, a: Out, b: Out, r: Out, u: Out, at: Place, m: nat, n: nat, hi: nat
      ensures FourAt(c, j, a, b, r, u, at, m, n, hi)
    {
      QuietFourAt(discs, t, k, plan, entries, j, a, b, r, u, at, m, n, hi);
    }
    forall at: Place, p: nat, m: nat, n: nat, i: nat ensures PartAt(c, at, p, m, n, i) {
      AdvanceProduct(p, m);
      if i < p && m >= 1 && n == p * m && Reaches(plan, n, entries, at) { PartReaches(plan, p, m, entries, at, i); }
    }
  }

  lemma QuietTwoAt(discs: Regions, t: Region, k: int, plan: Plan, entries: nat, j: int, a: Out, b: Out, r: Out, u: Out,
                   at: Place, m: nat, n: nat, hi: nat)
    requires Steady(discs, t, k, plan)
    ensures TwoAt(QuietClaim(discs, k, plan, entries), j, a, b, r, u, at, m, n, hi)
  {
    if TWO_FROM <= j <= k && n == 2 * m && hi == at.base + n && Reaches(plan, n, entries, at) && |a.s| == entries
       && Quiet(discs(j), a, r, at.base, hi) {
      Recombine2Quiet(discs, t, k, j, plan, r, at, m);
      QuietAgain(discs(j), discs(j), a, r, Recombine2(plan, r, at, m), at.base, hi);
    }
  }

  lemma QuietFourAt(discs: Regions, t: Region, k: int, plan: Plan, entries: nat, j: int, a: Out, b: Out, r: Out, u: Out,
                    at: Place, m: nat, n: nat, hi: nat)
    requires Steady(discs, t, k, plan)
    ensures FourAt(QuietClaim(discs, k, plan, entries), j, a, b, r, u, at, m, n, hi)
  {
    if 1 <= j <= k && n == 4 * m && hi == at.base + n && Reaches(plan, n, entries, at) && |a.s| == entries
       && Quiet(discs(j), a, r, at.base, hi) {
      Recombine4Quiet(discs, t, k, j, plan, r, at, m);
      QuietAgain(discs(j), discs(j - 1), a, r, Recombine4(plan, r, at, m), at.base, hi);
    }
  }

  /** A whole transform of quiet butterflies prints and loses nothing, writes only its own
      entries, and moves its values out by one region for each factor of four. */
  lemma WorkQuiet(discs: Regions, t: Region, k: int, plan: Plan, fs: Factors, o: Out, at: Place)
    requires Steady(discs, t, k, plan) && FitsFrom(TWO_FROM, 1, k, fs) && Reaches(plan, Size(fs), |o.s|, at)
    ensures Quiet(discs(Left(k, fs)), o, Work(plan, fs, o, at), at.base, at.base + Size(fs))
  {
    QuietSteps(discs, t, k, plan, |o.s|);
    WorkKept(QuietClaim(discs, k, plan, |o.s|), fs, o, o, at, Size(fs), at.base + Size(fs));
  }

  // ----- Butterfly loops in any order

  /** Butterfly loops of radix 2 and 4 one after the other, in any order and anywhere. */
  datatype Loops = Done | Radix2(at: Place, m: nat, rest: Loops) | Radix4(at: Place, m: nat, rest: Loops)

  predicate LoopsReach(plan: Plan, entries: nat, ls: Loops) {
    match ls
    case Done => true
    case Radix2(at, m, rest) => StageReaches(plan, 2 * m, entries, at) && LoopsReach(plan, entries, rest)
    case Radix4(at, m, rest) => StageReaches(plan, 4 * m, entries, at) && LoopsReach(plan, entries, rest)
  }

  function Stages(plan: Plan, o: Out, ls: Loops): (r: Out)
    requires LoopsReach(plan, |o.s|, ls)
    ensures |r.s| == |o.s|
    decreases ls
  {
    match ls
    case Done => o
    case Radix2(at, m, rest) => Stages(plan, Recombine2(plan, o, at, m), rest)
    case Radix4(at, m, rest) => Stages(plan, Recombine4(plan, o, at, m), rest)
  }

  /** At every loop of radix 2 at least TWO_FROM of k is left, and at every one of radix 4 one. */
  predicate LoopsFit(k: int, ls: Loops) {
    match ls
    case Done => true
    case Radix2(_, _, rest) => k >= TWO_FROM && LoopsFit(k, rest)
    case Radix4(_, _, rest) => k >= 1 && LoopsFit(k - 1, rest)
  }

  /** k less the number of radix-4 loops. */
  function LeftAfter(k: int, ls: Loops): (j: int)
    ensures j <= k
    decreases ls
  {
    match ls
    case Done => k
    case Radix2(_, _, rest) => LeftAfter(k, rest)
    case Radix4(_, _, rest) => LeftAfter(k - 1, rest)
  }

  /** Nothing printed, nothing lost, and every entry in the region. */
  ghost predicate QuietAll(d: Region, o: Out, r: Out) {
    r.printed == o.printed && r.lost == o.lost && AllIn(d, r.s, 0, |r.s|)
  }

  lemma QuietElsewhere(c: Region, d: Region, o: Out, r: Out, lo: nat, hi: nat)
    requires Quiet(d, o, r, lo, hi) && AllIn(c, o.s, 0, |o.s|) && forall x :: c(x) ==> d(x)
    ensures QuietAll(d, o, r)
  {}

  lemma SomeIn(c: Region, s: seq<Complex>, lo: nat, hi: nat)
    requires AllIn(c, s, 0, |s|) && hi <= |s|
    ensures AllIn(c, s, lo, hi)
  {}

  lemma QuietAllThen(c: Region, d: Region, o: Out, a: Out, b: Out)
    requires QuietAll(c, o, a) && QuietAll(d, a, b)
    ensures QuietAll(d, o, b)
  {}

  lemma LoopQuiet2(discs: Regions, t: Region, k: int, j: int, plan: Plan, o: Out, at: Place, m: nat)
    requires Steady(discs, t, k, plan) && TWO_FROM <= j <= k && StageReaches(plan, 2 * m, |o.s|, at)
    requires AllIn(discs(j), o.s, 0, |o.s|)
    ensures QuietAll(discs(j), o, Recombine2(plan, o, at, m))
  {
    SomeIn(discs(j), o.s, at.base, at.base + 2 * m);
    Recombine2Quiet(discs, t, k, j, plan, o, at, m);
    QuietElsewhere(discs(j), discs(j), o, Recombine2(plan, o, at, m), at.base, at.base + 2 * m);
  }

  lemma LoopQuiet4(discs: Regions, t: Region, k: int, j: int, plan: Plan, o: Out, at: Place, m: nat)
    requires Steady(discs, t, k, plan) && 1 <= j <= k && StageReaches(plan, 4 * m, |o.s|, at)
    requires AllIn(discs(j), o.s, 0, |o.s|)
    ensures QuietAll(discs(j - 1), o, Recombine4(plan, o, at, m))
  {
    SomeIn(discs(j), o.s, at.base, at.base + 4 * m);
    Recombine4Quiet(discs, t, k, j, plan, o, at, m);
    assert SteadyAt(discs, t, plan, j);
    QuietElsewhere(discs(j), discs(j - 1), o, Recombine4(plan, o, at, m), at.base, at.base + 4 * m);
  }

  /** Quiet butterfly loops, in whatever order and on whatever entries, print and lose
      nothing, and each of radix 4 moves the values out by one region. */
  lemma {:induction false} LoopsQuiet(discs: Regions, t: Region, k: int, j: int, plan: Plan, o: Out, ls: Loops)
    requires Steady(discs, t, k, plan) && LoopsFit(j, ls) && j <= k && LoopsReach(plan, |o.s|, ls)
    requires AllIn(discs(j), o.s, 0, |o.s|)
    ensures QuietAll(discs(LeftAfter(j, ls)), o, Stages(plan, o, ls))
    decreases ls
  {
    match ls
    case Done =>
    case Radix2(at, m, rest) =>
      LoopQuiet2(discs, t, k, j, plan, o, at, m);
      var r := Recombine2(plan, o, at, m);
      LoopsQuiet(discs, t, k, j, plan, r, rest);
      QuietAllThen(discs(j), discs(LeftAfter(j, rest)), o, r, Stages(plan, r, rest));
    case Radix4(at, m, rest) =>
      LoopQuiet4(discs, t, k, j, plan, o, at, m);
      var r := Recombine4(plan, o, at, m);
      LoopsQuiet(discs, t, k, j - 1, plan, r, rest);
      QuietAllThen(discs(j - 1), discs(LeftAfter(j - 1, rest)), o, r, Stages(plan, r, rest));
  }

  // ----- What a transform starts from

  /** The same count, the same losses, and the same entries lo..hi. */
  predicate Agree(a: Out, b: Out, lo: nat, hi: nat) {
    a.printed == b.printed && a.lost == b.lost && SameOn(a.s, b.s, lo, hi)
  }

  lemma {:induction false} Stage2Agrees(op: Op2, a: Out, b: Out, base: nat, m: nat, tw: seq<Complex>, k: nat)
    requires k <= m <= |tw| && base + 2 * m <= |a.s| && Agree(a, b, base, base + 2 * m)
    ensures Agree(Stage2(op, a, base, m, tw, k), Stage2(op, b, base, m, tw, k), base, base + 2 * m)
    ensures SameOutside(a.s, Stage2(op, a, base, m, tw, k).s, base, base + 2 * m)
  {
    if k > 0 { Stage2Agrees(op, a, b, base, m, tw, k - 1); }
  }

  lemma {:induction false} Stage4Agrees(op: Op4, a: Out, b: Out, base: nat, m: nat, tw: seq<Three>, k: nat)
    requires k <= m <= |tw| && base + 4 * m <= |a.s| && Agree(a, b, base, base + 4 * m)
    ensures Agree(Stage4(op, a, base, m, tw, k), Stage4(op, b, base, m, tw, k), base, base + 4 * m)
  {
    if k > 0 {
      Stage4Agrees(op, a, b, base, m, tw, k - 1);
      PutsAgree(op, Stage4(op, a, base, m, tw, k - 1), Stage4(op, b, base, m, tw, k - 1), base, m, k - 1, tw[k - 1]);
    }
  }

  lemma PutsAgree(op: Op4, r: Out, u: Out, base: nat, m: nat, k: nat, tw: Three)
    requires k < m && base + 4 * m <= |r.s| && Agree(r, u, base, base + 4 * m)
    ensures Agree(PutQuad(r, base + k, m, op(TakeFour(r.s, base + k, m), tw)),
                  PutQuad(u, base + k, m, op(TakeFour(u.s, base + k, m), tw)), base, base + 4 * m)
  {
    assert TakeFour(r.s, base + k, m) == TakeFour(u.s, base + k, m);
  }

  lemma {:induction false} Stage4Frame(op: Op4, o: Out, base: nat, m: nat, tw: seq<Three>, k: nat)
    requires k <= m <= |tw| && base + 4 * m <= |o.s|
    ensures SameOutside(o.s, Stage4(op, o, base, m, tw, k).s, base, base + 4 * m)
  {
    if k > 0 { Stage4Frame(op, o, base, m, tw, k - 1); }
  }

  /** Both runs leave the same on lo..hi, and nothing else changes. */
  predicate Alike(a: Out, b: Out, r: Out, u: Out, lo: nat, hi: nat) {
    Agree(r, u, lo, hi) && SameOutside(a.s, r.s, lo, hi) && SameOutside(b.s, u.s, lo, hi)
  }

  lemma AlikeThen(a: Out, b: Out, r: Out, u: Out, v: Out, w: Out, lo: nat, mid: nat, hi: nat)
    requires lo <= mid <= hi && Alike(a, b, r, u, lo, mid) && Alike(r, u, v, w, mid, hi)
    ensures Alike(a, b, v, w, lo, hi)
  {}

  lemma AlikeAgain(a: Out, b: Out, r: Out, u: Out, v: Out, w: Out, lo: nat, hi: nat)
    requires Alike(a, b, r, u, lo, hi) && Alike(r, u, v, w, lo, hi)
    ensures Alike(a, b, v, w, lo, hi)
  {}

  ghost function AlikeClaim(plan: Plan, g: int, k: int): Claim {
    Claim((j: int, a: Out, b: Out, r: Out, u: Out, lo: nat, hi: nat) => Alike(a, b, r, u, lo, hi), (n: nat,
        at: Place) => true, plan, g, g, k)
  }

  lemma AlikeSteps(plan: Plan, g: int, k: int)
    ensures StepsKeep(AlikeClaim(plan, g, k))
  {
    var c := AlikeClaim(plan, g, k);
    forall j: int, a: Out, b: Out, r: Out, u: Out, v: Out, w: Out, lo: nat, mid: nat, hi: nat
      ensures ThenAt(c, j, a, b, r, u, v, w, lo, mid, hi) {
      if lo <= mid <= hi && Alike(a, b, r, u, lo, mid) && Alike(r, u, v, w, mid, hi) {
        AlikeThen(a, b, r, u, v, w, lo, mid, hi);
      }
    }
    forall j: int, a: Out, b: Out, r: Out, u: Out, at: Place, m: nat, n: nat, hi: nat
      ensures TwoAt(c, j, a, b, r, u, at, m, n, hi)
    {
      if |r.s| == |u.s| && hi == at.base + 2 * m <= |r.s| && Alike(a, b, r, u, at.base, hi) {
        TwoAlike(plan, a, b, r, u, at, m);
      }
    }
    forall j: int, a: Out, b: Out, r: Out, u: Out, at: Place, m: nat, n: nat, hi: nat
      ensures FourAt(c, j, a, b, r, u, at, m, n, hi)
    {
      if |r.s| == |u.s| && hi == at.base + 4 * m <= |r.s| && Alike(a, b, r, u, at.base, hi) {
        FourAlike(plan, a, b, r, u, at, m);
      }
    }
  }

  lemma TwoAlike(plan: Plan, a: Out, b: Out, r: Out, u: Out, at: Place, m: nat)
    requires |r.s| == |u.s| && at.base + 2 * m <= |r.s| && Alike(a, b, r, u, at.base, at.base + 2 * m)
    ensures Alike(a, b, Recombine2(plan, r, at, m), Recombine2(plan, u, at, m), at.base, at.base + 2 * m)
  {
    var tw := Strided(plan.tw, at.fstride, m);
    Stage2Agrees(plan.op2, r, u, at.base, m, tw, m);
    Stage2Agrees(plan.op2, u, r, at.base, m, tw, m);
    AlikeAgain(a, b, r, u, Recombine2(plan, r, at, m), Recombine2(plan, u, at, m), at.base, at.base + 2 * m);
  }

  lemma FourAlike(plan: Plan, a: Out, b: Out, r: Out, u: Out, at: Place, m: nat)
    requires |r.s| == |u.s| && at.base + 4 * m <= |r.s| && Alike(a, b, r, u, at.base, at.base + 4 * m)
    ensures Alike(a, b, Recombine4(plan, r, at, m), Recombine4(plan, u, at, m), at.base, at.base + 4 * m)
  {
    var tw := Threes(plan.tw, at.fstride, m);
    Stage4Agrees(plan.op4, r, u, at.base, m, tw, m);
    Stage4Frame(plan.op4, r, at.base, m, tw, m);
    Stage4Frame(plan.op4, u, at.base, m, tw, m);
    AlikeAgain(a, b, r, u, Recombine4(plan, r, at, m), Recombine4(plan, u, at, m), at.base, at.base + 4 * m);
  }

  lemma {:induction false} FitsAll(g: int, k: int, fs: Factors)
    requires g <= Left(k, fs)
    ensures FitsFrom(g, g, k, fs)
  {
    match fs
    case One =>
    case Times2(rest) => FitsAll(g, k, rest);
    case Times4(rest) => FitsAll(g, k, rest);
  }

  /** What a transform leaves on its entries does not depend on what stood there, and it
      writes no others. */
  lemma WorkForgets(plan: Plan, fs: Factors, a: Out, b: Out, at: Place)
    requires at.base + Size(fs) <= |a.s| && Agree(a, b, at.base, at.base)
    ensures Agree(Work(plan, fs, a, at), Work(plan, fs, b, at), at.base, at.base + Size(fs))
    ensures SameOutside(a.s, Work(plan, fs, a, at).s, at.base, at.base + Size(fs))
  {
    var g := Left(0, fs);
    FitsAll(g, 0, fs);
    AlikeSteps(plan, g, 0);
    WorkKept(AlikeClaim(plan, g, 0), fs, a, b, at, Size(fs), at.base + Size(fs));
  }

  /** A transform that fills the array. */
  lemma WorkFills(plan: Plan, fs: Factors, a: Out, b: Out, at: Place)
    requires at.base == 0 && |a.s| == |b.s| == Size(fs) && a.printed == b.printed && a.lost == b.lost
    ensures Work(plan, fs, a, at) == Work(plan, fs, b, at)
  {
    WorkForgets(plan, fs, a, b, at);
    assert Work(plan, fs, a, at).s == Work(plan, fs, b, at).s;
  }

  // ----- In fixed point

  /** The discs of values, the sixth of radius SAMP_MAX. */
  ghost function Discs(h: int): Regions { j => c => Within(h, j, c) }

  ghost function Twiddles(h: int): Region { c => IsTwiddle(h, c) }

  /** The fixed-point butterflies, an input in the k-th disc, and twiddle factors. */
  ghost predicate Ready(h: int, k: int, inverse: bool, plan: Plan) {
    && Room(h, k) && h % 2 == 0 && IsBfly2(plan.op2, h) && IsBfly4(plan.op4, h, inverse)
    && (forall i :: 0 <= i < |plan.input| ==> Within(h, k, plan.input[i]))
    && forall i :: 0 <= i < |plan.tw| ==> IsTwiddle(h, plan.tw[i])
  }

  lemma Fixed2Quiet(h: int, j: int, op: Op2)
    requires Room(h, j) && j >= TWO_FROM && IsBfly2(op, h)
    ensures Quiet2(op, Discs(h)(j), Twiddles(h))
  {
    forall f, f2, tw | Within(h, j, f) && Within(h, j, f2) && IsTwiddle(h, tw)
      ensures QuietPair(Discs(h)(j), op(f, f2, tw))
    {
      Bfly2StaysInDisc(h, j, f, f2, tw);
      assert op(f, f2, tw) == Bfly2(h, f, f2, tw);
    }
  }

  lemma InDiscs(h: int, j: int, f: Four)
    ensures AllFour(Discs(h)(j), f) <==> AllWithin(h, j, f)
  {}

  lemma FixedQuad(h: int, j: int, inverse: bool, op: Op4, f: Four, tw: Three)
    requires Room(h, j) && h % 2 == 0 && j >= 1 && IsBfly4(op, h, inverse)
    requires AllFour(Discs(h)(j), f) && AllThree(Twiddles(h), tw)
    ensures QuietQuad(Discs(h)(j - 1), op(f, tw))
  {
    var q := Bfly4(h, f, tw, inverse);
    assert op(f, tw) == q;
    InDiscs(h, j, f);
    Bfly4Widens(h, j, f, tw, inverse);
    InDiscs(h, j - 1, q.f);
  }

  lemma Fixed4Quiet(h: int, j: int, inverse: bool, op: Op4)
    requires Room(h, j) && h % 2 == 0 && j >= 1 && IsBfly4(op, h, inverse)
    ensures Quiet4(op, Discs(h)(j), Discs(h)(j - 1), Twiddles(h))
  {
    forall f, tw | AllFour(Discs(h)(j), f) && AllThree(Twiddles(h), tw)
      ensures QuietQuad(Discs(h)(j - 1), op(f, tw))
    {
      FixedQuad(h, j, inverse, op, f, tw);
    }
  }

  lemma DiscsWiden(h: int, i: int, j: int)
    requires Room(h, i) && 0 <= j <= i
    ensures forall c :: Discs(h)(i)(c) ==> Discs(h)(j)(c)
  {
    RadiusPositive(h, i);
    forall c | Within(h, i, c) ensures Within(h, j, c) {
      ShortGrows(c, Radius(h, i), Radius(h, j));
    }
  }

  lemma FixedSteady(h: int, k: int, inverse: bool, plan: Plan)
    requires Ready(h, k, inverse, plan)
    ensures Steady(Discs(h), Twiddles(h), k, plan)
  {
    forall j | 0 <= j <= k ensures SteadyAt(Discs(h), Twiddles(h), plan, j) {
      if j >= TWO_FROM { Fixed2Quiet(h, j, plan.op2); }
      if j >= 1 {
        Fixed4Quiet(h, j, inverse, plan.op4);
        DiscsWiden(h, j, j - 1);
      }
    }
  }

  /** A whole fixed-point transform from an input in the k-th disc prints no overflow
      warning, loses nothing to any conversion, writes only its own entries, and ends one
      disc further out for each factor of four, as long as no disc runs out. From full scale,
      the sixth disc, that is six factors of four. */
  lemma TransformNeverOverflows(h: int, k: int, inverse: bool, plan: Plan, fs: Factors, o: Out, at: Place)
    requires Ready(h, k, inverse, plan) && FitsFrom(TWO_FROM, 1, k, fs) && Reaches(plan, Size(fs), |o.s|, at)
    ensures var r := Work(plan, fs, o, at);
      && r.printed == o.printed && r.lost == o.lost && SameOutside(o.s, r.s, at.base, at.base + Size(fs))
      && forall i :: at.base <= i < at.base + Size(fs) ==> Within(h, Left(k, fs), r.s[i])
  {
    FixedSteady(h, k, inverse, plan);
    WorkQuiet(Discs(h), Twiddles(h), k, plan, fs, o, at);
    QuietMeans(h, Left(k, fs), o, Work(plan, fs, o, at), at.base, at.base + Size(fs));
  }

  lemma QuietMeans(h: int, j: int, o: Out, r: Out, lo: nat, hi: nat)
    requires Quiet(Discs(h)(j), o, r, lo, hi)
    ensures hi <= |r.s| && r.printed == o.printed && r.lost == o.lost && SameOutside(o.s, r.s, lo, hi)
    ensures forall i :: lo <= i < hi ==> Within(h, j, r.s[i])
  {}

  /** Any fixed-point butterfly loops over values of the j-th disc, in whatever order and on
      whatever entries, print no overflow warning at all and lose nothing, as long as no disc
      runs out. */
  lemma StagesNeverOverflow(h: int, k: int, j: int, inverse: bool, plan: Plan, o: Out, ls: Loops)
    requires Ready(h, k, inverse, plan) && LoopsFit(j, ls) && j <= k && LoopsReach(plan, |o.s|, ls)
    requires forall i :: 0 <= i < |o.s| ==> Within(h, j, o.s[i])
    ensures var r := Stages(plan, o, ls);
      && r.printed == o.printed && r.lost == o.lost
      && forall i :: 0 <= i < |r.s| ==> Within(h, LeftAfter(j, ls), r.s[i])
  {
    FixedSteady(h, k, inverse, plan);
    LoopsQuiet(Discs(h), Twiddles(h), k, j, plan, o, ls);
  }

  // ----- In place

  /** kf_work on the array. The smaller transforms are done first to last, each on its own
      entries, and then the butterflies of this factor. */
  method KfWork(h: int, fout: array<Complex>, plan: Plan, inverse: bool, fs: Factors, at: Place, w0: nat, ghost o: Out)
    returns (warnings: nat)
    requires h >= 1 && IsBfly2(plan.op2, h) && IsBfly4(plan.op4, h, inverse)
    requires Reaches(plan, Size(fs), fout.Length, at) && Holds(fout, w0, o)
    modifies fout
    ensures Holds(fout, warnings, Work(plan, fs, o, at))
    decreases fs, 5
  {
    match fs
    case One =>
      fout[at.base] := plan.input[at.f];
      warnings := w0;
    case Times2(rest) =>
      var m := Size(rest);
      warnings := KfParts(h, fout, plan, inverse, rest, at, 2, w0, o);
      TwosReach(plan.tw, at.fstride, m);
      warnings := KfBfly2(h, fout, at.base, at.fstride, plan.tw, m, warnings, plan.op2, Strided(plan.tw, at.fstride, m),
                          Parts(plan, rest, o, at, 2, 2));
    case Times4(rest) =>
      var m := Size(rest);
      warnings := KfParts(h, fout, plan, inverse, rest, at, 4, w0, o);
      FoursReach(plan.tw, at.fstride, m);
      warnings := KfBfly4(h, fout, at.base, at.fstride, plan.tw, m, inverse, warnings, plan.op4,
                          Threes(plan.tw, at.fstride, m), Parts(plan, rest, o, at, 4, 4));
  }

  /** One turn of kf_work's loop: the i-th smaller transform. */
  method KfPart(h: int, fout: array<Complex>, plan: Plan, inverse: bool, rest: Factors, at: Place, p: nat, w0: nat,
                inner: Place, ghost i: nat, ghost o: Out)
    returns (warnings: nat)
    requires h >= 1 && IsBfly2(plan.op2, h) && IsBfly4(plan.op4, h, inverse) && inner == Inner(at, p, Size(rest), i)
    requires Reaches(plan, Size(rest), fout.Length, inner) && fout.Length == |o.s|
    requires inner.base <= |o.s| && Holds(fout, w0, Parts(plan, rest, o, at, p, i))
    modifies fout
    ensures Holds(fout, warnings, Parts(plan, rest, o, at, p, i + 1))
    decreases rest, 6
  {
    warnings := KfWork(h, fout, plan, inverse, rest, inner, w0, Parts(plan, rest, o, at, p, i));
  }

  /** The loop of kf_work over the p smaller transforms. */
  method KfParts(h: int, fout: array<Complex>, plan: Plan, inverse: bool, rest: Factors, at: Place, p: nat, w0: nat,
                 ghost o: Out)
    returns (warnings: nat)
    requires h >= 1 && IsBfly2(plan.op2, h) && IsBfly4(plan.op4, h, inverse)
    requires Reaches(plan, p * Size(rest), fout.Length, at) && Holds(fout, w0, o)
    modifies fout
    ensures at.base + Advance(p, Size(rest)) <= |o.s| && Holds(fout, warnings, Parts(plan, rest, o, at, p, p))
    decreases rest, 7
  {
    var m := Size(rest);
    warnings := w0;
    var i, base, f := 0, at.base, at.f;
    while i < p
      invariant 0 <= i <= p && base == at.base + Advance(i, m) <= |o.s| && f == at.f + Advance(i, at.hop)
      invariant Holds(fout, warnings, Parts(plan, rest, o, at, p, i))
    {
      PartReaches(plan, p, m, fout.Length, at, i);
      warnings := KfPart(h, fout, plan, inverse, rest, at, p, warnings, Place(base, f, p * at.fstride, p * at.hop), i,
          o);
      i, base, f := i + 1, base + m, f + at.hop;
    }
  }

  function PlanOf(h: int, inverse: bool, input: seq<Complex>, tw: seq<Complex>): Plan
    requires h >= 1
  {
    Plan(Fixed2(h), Fixed4(h, inverse), input, tw)
  }

  /** What kiss_fft_stride makes of an input and an output array. */
  function Whole(h: int, inverse: bool, input: seq<Complex>, tw: seq<Complex>, fs: Factors, stride: nat,
                 output: seq<Complex>): Out
    requires h >= 1 && Size(fs) <= |output|
  {
    Work(PlanOf(h, inverse, input, tw), fs, Out(output, 0, false), Place(0, 0, 1, stride))
  }

  /** The input in the k-th disc, twiddle factors, and enough discs for the factors. */
  ghost predicate Safe(h: int, k: int, input: seq<Complex>, tw: seq<Complex>, fs: Factors) {
    && Room(h, k) && h % 2 == 0 && FitsFrom(TWO_FROM, 1, k, fs)
    && (forall i :: 0 <= i < |input| ==> Within(h, k, input[i])) && forall i :: 0 <= i < |tw| ==> IsTwiddle(h, tw[i])
  }

  ghost predicate Silent(h: int, j: int, r: Out) {
    r.printed == 0 && !r.lost && forall i :: 0 <= i < |r.s| ==> Within(h, j, r.s[i])
  }

  lemma WholeNeverOverflows(h: int, k: int, inverse: bool, input: seq<Complex>, tw: seq<Complex>, fs: Factors,
                            stride: nat,
                            output: seq<Complex>)
    requires h >= 1 && |output| == |tw| == Size(fs) && Advance(Size(fs) - 1, stride) < |input|
    ensures Safe(h, k, input, tw, fs) ==> Silent(h, Left(k, fs), Whole(h, inverse, input, tw, fs, stride, output))
  {
    if Safe(h, k, input, tw, fs) {
      AdvanceProduct(Size(fs), 1);
      TransformNeverOverflows(h, k, inverse, PlanOf(h, inverse, input, tw), fs, Out(output, 0, false), Place(0, 0, 1,
          stride));
    }
  }

  /** The body of kiss_fft_stride. When the output is the input the transform goes by way of
      a buffer, and what that held before does not matter. */
  method RunFft(h: int, fin: array<Complex>, fout: array<Complex>, tw: seq<Complex>, inverse: bool, fs: Factors,
                stride: nat)
    returns (warnings: nat)
    requires h >= 1 && fout.Length == |tw| == Size(fs) && Advance(Size(fs) - 1, stride) < fin.Length
    modifies fout
    ensures Holds(fout, warnings, Whole(h, inverse, old(fin[..]), tw, fs, stride, old(fout[..])))
  {
    var plan, at := PlanOf(h, inverse, fin[..], tw), Place(0, 0, 1, stride);
    ghost var o := Out(fout[..], 0, false);
    AdvanceProduct(Size(fs), 1);
    if fin == fout {
      var tmpbuf := new Complex[Size(fs)];
      ghost var b := Out(tmpbuf[..], 0, false);
      warnings := KfWork(h, tmpbuf, plan, inverse, fs, at, 0, b);
      WorkFills(plan, fs, o, b, at);
      CopyInto(tmpbuf, fout);
    } else {
      warnings := KfWork(h, fout, plan, inverse, fs, at, 0, o);
    }
  }

  /** memcpy. */
  method CopyInto(from: array<Complex>, to: array<Complex>)
    requires from != to && from.Length == to.Length
    modifies to
    ensures to[..] == from[..]
  {
    forall i | 0 <= i < to.Length { to[i] := from[i]; }
  }
}
