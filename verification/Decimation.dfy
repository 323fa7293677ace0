/** What the recursion of kf_work (codec2-1.2.0/src/kiss_fft.c) computes: a property that
    butterflies carry from the outputs of the smaller transforms to those of the larger one
    holds of every output of a whole transform. */
module Decimation {
  import opened FixedPoint
  import opened Butterfly
  import opened Fft
  import opened Transform

  /** A property of a value as an output of the transform with these factors at this place:
      the number says which output. */
  type Output = (Factors, Place, nat, Complex) -> bool

  /** A value of the input is the output of the transform of length one. */
  ghost predicate LeafAt(out: Output, plan: Plan, at: Place) { out(One, at, 0, At(plan.input, at.f)) }

  ghost predicate PairGiven(out: Output, rest: Factors, at: Place, k: nat, a: Complex, b: Complex) {
    k < Size(rest) && out(rest, Inner(at, 2, Size(rest), 0), k, a) && out(rest, Inner(at, 2, Size(rest), 1), k, b)
  }

  /** The k-th outputs of two transforms, of the even and of the odd values, give outputs k
      and k + m. */
  ghost predicate PairAt(out: Output, plan: Plan, rest: Factors, at: Place, k: nat, a: Complex, b: Complex, q: nat) {
    q == k + Size(rest) && PairGiven(out, rest, at, k, a, b) ==>
      var p := plan.op2(a, b, TwiddleAt(plan.tw, k, at.fstride));
      out(Times2(rest), at, k, p.f) && out(Times2(rest), at, q, p.f2)
  }

  ghost predicate QuadGiven(out: Output, rest: Factors, at: Place, k: nat, f: Four) {
    k < Size(rest) && forall t: nat :: t < 4 ==> out(rest, Inner(at, 4, Size(rest), t), k, Entry(f, t))
  }

  /** The k-th outputs of four transforms give outputs k, k + m, k + 2m and k + 3m. */
  ghost predicate QuadAt(out: Output, plan: Plan, rest: Factors, at: Place, k: nat, f: Four, i: nat, q: nat) {
    i < 4 && q == k + Advance(i, Size(rest)) && QuadGiven(out, rest, at, k, f) ==>
      out(Times4(rest), at, q, Entry(plan.op4(f, ThreeOf(plan.tw, k, at.fstride)).f, i))
  }

  ghost predicate Carries(out: Output, plan: Plan) {
    && (forall at :: LeafAt(out, plan, at)) && (forall rest, at, k, a, b, q :: PairAt(out, plan, rest, at, k, a, b, q))
    && (forall rest, at, k, f, i, q :: QuadAt(out, plan, rest, at, k, f, i, q))
  }

  /** The entry q from the place's base on is the transform's output of that number. */
  ghost predicate OutputIs(out: Output, fs: Factors, at: Place, s: seq<Complex>, q: nat) {
    at.base + q < |s| && out(fs, at, q, s[at.base + q])
  }

  /** The entries from the place's base on are the transform's outputs in order. */
  ghost predicate Outputs(out: Output, fs: Factors, at: Place, s: seq<Complex>) {
    forall q: nat :: q < Size(fs) ==> OutputIs(out, fs, at, s, q)
  }

  lemma OutputAt(out: Output, fs: Factors, at: Place, s: seq<Complex>, q: nat, i: nat)
    requires Outputs(out, fs, at, s) && q < Size(fs) && i == at.base + q
    ensures i < |s| && out(fs, at, q, s[i])
  {
    assert OutputIs(out, fs, at, s, q);
  }

  /** Outputs stay when other entries are written. */
  lemma OutputsKept(out: Output, fs: Factors, at: Place, s: seq<Complex>, r: seq<Complex>, lo: nat, hi: nat)
    requires Outputs(out, fs, at, s) && SameOutside(s, r, lo, hi) && at.base + Size(fs) <= lo
    ensures Outputs(out, fs, at, r)
  {
    forall q: nat | q < Size(fs) ensures OutputIs(out, fs, at, r, q) { assert OutputIs(out, fs, at, s, q); }
  }

  // ----- Two transforms

  lemma PairOf(out: Output, plan: Plan, rest: Factors, at: Place, s: seq<Complex>, k: nat, m: nat, i: nat, j: nat,
               q: nat)
    requires Carries(out, plan) && m == Size(rest) && k < m && i == at.base + k && j == at.base + m + k && q == k + m
    requires Outputs(out, rest, Inner(at, 2, m, 0), s) && Outputs(out, rest, Inner(at, 2, m, 1), s)
    ensures j < |s| && var p := plan.op2(s[i], s[j], TwiddleAt(plan.tw, k, at.fstride));
      out(Times2(rest), at, k, p.f) && out(Times2(rest), at, q, p.f2)
  {
    AdvanceProduct(1, m);
    OutputAt(out, rest, Inner(at, 2, m, 0), s, k, i);
    OutputAt(out, rest, Inner(at, 2, m, 1), s, k, j);
    assert PairAt(out, plan, rest, at, k, s[i], s[j], q);
  }

  lemma IsOutput(out: Output, fs: Factors, at: Place, s: seq<Complex>, q: nat, i: nat, v: Complex)
    requires i == at.base + q < |s| && s[i] == v && out(fs, at, q, v)
    ensures OutputIs(out, fs, at, s, q)
  {}

  /** Entry i of a radix-2 stage, from the entries as the stage found them. */
  lemma RecombinedTwo(plan: Plan, o: Out, at: Place, m: nat, k: nat, i: nat, j: nat)
    requires at.base + 2 * m <= |o.s| && k < m && i == at.base + k && j == at.base + m + k
    ensures var r, p := Recombine2(plan, o, at, m).s, plan.op2(o.s[i], o.s[j], TwiddleAt(plan.tw, k, at.fstride));
      r[i] == p.f && r[j] == p.f2
  {
    var tws := Strided(plan.tw, at.fstride, m);
    assert tws[k] == TwiddleAt(plan.tw, k, at.fstride);
    StageIsParallel(plan.op2, o, at.base, m, tws, m);
  }

  lemma TwoOutput(out: Output, plan: Plan, rest: Factors, at: Place, o: Out, m: nat, k: nat, i: nat, j: nat, q: nat)
    requires Carries(out, plan) && m == Size(rest) && at.base + 2 * m <= |o.s| && k < m
    requires i == at.base + k && j == at.base + m + k && q == k + m
    requires Outputs(out, rest, Inner(at, 2, m, 0), o.s) && Outputs(out, rest, Inner(at, 2, m, 1), o.s)
    ensures var r := Recombine2(plan, o, at, m).s;
      OutputIs(out, Times2(rest), at, r, k) && OutputIs(out, Times2(rest), at, r, q)
  {
    PairOf(out, plan, rest, at, o.s, k, m, i, j, q);
    RecombinedTwo(plan, o, at, m, k, i, j);
    var r, p := Recombine2(plan, o, at, m).s, plan.op2(o.s[i], o.s[j], TwiddleAt(plan.tw, k, at.fstride));
    IsOutput(out, Times2(rest), at, r, k, i, p.f);
    IsOutput(out, Times2(rest), at, r, q, j, p.f2);
  }

  lemma TwoOutputs(out: Output, plan: Plan, rest: Factors, at: Place, o: Out, m: nat)
    requires Carries(out, plan) && m == Size(rest) && at.base + 2 * m <= |o.s|
    requires Outputs(out, rest, Inner(at, 2, m, 0), o.s) && Outputs(out, rest, Inner(at, 2, m, 1), o.s)
    ensures Outputs(out, Times2(rest), at, Recombine2(plan, o, at, m).s)
  {
    forall q: nat | q < 2 * m ensures OutputIs(out, Times2(rest), at, Recombine2(plan, o, at, m).s, q) {
      var k := if q < m then q else q - m;
      TwoOutput(out, plan, rest, at, o, m, k, at.base + k, at.base + m + k, k + m);
    }
  }

  // ----- Four transforms

  ghost predicate FourHeld(out: Output, rest: Factors, at: Place, s: seq<Complex>) {
    forall t: nat :: t < 4 ==> Outputs(out, rest, Inner(at, 4, Size(rest), t), s)
  }

  lemma EntryTaken(s: seq<Complex>, b: nat, m: nat, t: nat, i: nat)
    requires b + 3 * m < |s| && t < 4 && i == b + Advance(t, m)
    ensures i < |s| && Entry(TakeFour(s, b, m), t) == s[i]
  {
    AdvanceProduct(t, m);
  }

  lemma QuadPart(out: Output, rest: Factors, at: Place, s: seq<Complex>, k: nat, m: nat, b: nat, t: nat)
    requires m == Size(rest) && k < m && t < 4 && b == at.base + k && b + 3 * m < |s| && FourHeld(out, rest, at, s)
    ensures out(rest, Inner(at, 4, m, t), k, Entry(TakeFour(s, b, m), t))
  {
    EntryTaken(s, b, m, t, b + Advance(t, m));
    OutputAt(out, rest, Inner(at, 4, m, t), s, k, b + Advance(t, m));
  }

  lemma QuadOf(out: Output, plan: Plan, rest: Factors, at: Place, s: seq<Complex>, k: nat, m: nat, i: nat, b: nat,
               q: nat)
    requires Carries(out, plan) && m == Size(rest) && k < m && i < 4 && b == at.base + k && b + 3 * m < |s|
    requires FourHeld(out, rest, at, s) && q == k + Advance(i, m)
    ensures out(Times4(rest), at, q, Entry(plan.op4(TakeFour(s, b, m), ThreeOf(plan.tw, k, at.fstride)).f, i))
  {
    forall t: nat | t < 4 ensures out(rest, Inner(at, 4, m, t), k, Entry(TakeFour(s, b, m), t)) {
      QuadPart(out, rest, at, s, k, m, b, t);
    }
    assert QuadAt(out, plan, rest, at, k, TakeFour(s, b, m), i, q);
  }

  /** The entries of a radix-4 stage, from the entries as the stage found them. */
  lemma RecombinedFour(plan: Plan, o: Out, at: Place, m: nat, k: nat, b: nat)
    requires at.base + 4 * m <= |o.s| && k < m && b == at.base + k
    ensures TakeFour(Recombine4(plan, o, at, m).s, b, m)
         == plan.op4(TakeFour(o.s, b, m), ThreeOf(plan.tw, k, at.fstride)).f
  {
    Stage4IsParallel(plan.op4, o, at.base, m, Threes(plan.tw, at.fstride, m), m, k);
  }

  lemma EntryIs(out: Output, fs: Factors, at: Place, s: seq<Complex>, b: nat, m: nat, i: nat, q: nat, f: Four)
    requires b + 3 * m < |s| && i < 4 && at.base + q == b + Advance(i, m) && TakeFour(s, b, m) == f
    requires out(fs, at, q, Entry(f, i))
    ensures OutputIs(out, fs, at, s, q)
  {
    EntryTaken(s, b, m, i, at.base + q);
  }

  lemma FourOutput(out: Output, plan: Plan, rest: Factors, at: Place, o: Out, m: nat, k: nat, i: nat, q: nat, b: nat)
    requires Carries(out, plan) && m == Size(rest) && at.base + 4 * m <= |o.s| && k < m && i < 4
    requires FourHeld(out, rest, at, o.s) && q == k + Advance(i, m) && b == at.base + k && b + 3 * m < |o.s|
    ensures OutputIs(out, Times4(rest), at, Recombine4(plan, o, at, m).s, q)
  {
    QuadOf(out, plan, rest, at, o.s, k, m, i, b, q);
    RecombinedFour(plan, o, at, m, k, b);
    EntryIs(out, Times4(rest), at, Recombine4(plan, o, at, m).s, b, m, i, q,
            plan.op4(TakeFour(o.s, b, m), ThreeOf(plan.tw, k, at.fstride)).f);
  }

  lemma FourOutputs(out: Output, plan: Plan, rest: Factors, at: Place, o: Out, m: nat)
    requires Carries(out, plan) && m == Size(rest) && at.base + 4 * m <= |o.s| && FourHeld(out, rest, at, o.s)
    ensures Outputs(out, Times4(rest), at, Recombine4(plan, o, at, m).s)
  {
    forall q: nat | q < 4 * m ensures OutputIs(out, Times4(rest), at, Recombine4(plan, o, at, m).s, q) {
      var i := if q < m then 0 else if q < 2 * m then 1 else if q < 3 * m then 2 else 3;
      AdvanceProduct(i, m);
      FourOutput(out, plan, rest, at, o, m, q - i * m, i, q, at.base + q - i * m);
    }
  }

  // ----- The recursion

  lemma InnerEnds(at: Place, p: nat, m: nat, t: nat, i: nat)
    requires t < i
    ensures Inner(at, p, m, t).base + m <= at.base + Advance(i, m)
  {
    AdvanceProduct(t, m);
    AdvanceProduct(i, m);
    ProductOrder(t + 1, i, m);
    Less(t + 1, m);
  }

  /** The first i transforms have their outputs in place. */
  ghost predicate PartsHeld(out: Output, rest: Factors, at: Place, p: nat, i: nat, s: seq<Complex>) {
    forall t: nat :: t < i ==> Outputs(out, rest, Inner(at, p, Size(rest), t), s)
  }

  /** One more transform behind the first i leaves their outputs as they are. */
  lemma OneMore(out: Output, rest: Factors, at: Place, p: nat, i: nat, s: seq<Complex>, r: seq<Complex>, m: nat,
                inner: Place)
    requires PartsHeld(out, rest, at, p, i, s) && m == Size(rest) && inner == Inner(at, p, m, i)
    requires Outputs(out, rest, inner, r) && SameOutside(s, r, inner.base, inner.base + m)
    ensures PartsHeld(out, rest, at, p, i + 1, r)
  {
    forall t: nat | t < i + 1 ensures Outputs(out, rest, Inner(at, p, Size(rest), t), r) {
      if t < i {
        InnerEnds(at, p, m, t, i);
        OutputsKept(out, rest, Inner(at, p, m, t), s, r, inner.base, inner.base + m);
      }
    }
  }

  lemma {:induction false} PartComputes(out: Output, plan: Plan, rest: Factors, at: Place, p: nat, i: nat, o: Out,
                                        inner: Place)
    requires Carries(out, plan) && inner == Inner(at, p, Size(rest), i) && inner.base + Size(rest) <= |o.s|
    requires PartsHeld(out, rest, at, p, i, o.s)
    ensures PartsHeld(out, rest, at, p, i + 1, Work(plan, rest, o, inner).s)
    decreases rest, 5, 1
  {
    WorkComputes(out, plan, rest, o, inner);
    WorkForgets(plan, rest, o, o, inner);
    OneMore(out, rest, at, p, i, o.s, Work(plan, rest, o, inner).s, Size(rest), inner);
  }

  lemma {:induction false} PartsCompute(out: Output, plan: Plan, rest: Factors, o: Out, at: Place, p: nat, i: nat)
    requires Carries(out, plan) && at.base + Advance(i, Size(rest)) <= |o.s|
    ensures PartsHeld(out, rest, at, p, i, Parts(plan, rest, o, at, p, i).s)
    decreases rest, 6, i
  {
    if i > 0 {
      PartsCompute(out, plan, rest, o, at, p, i - 1);
      PartComputes(out, plan, rest, at, p, i - 1, Parts(plan, rest, o, at, p, i - 1), Inner(at, p, Size(rest), i - 1));
    }
  }

  /** What single values have and butterflies carry on, every output of a transform has. */
  lemma {:induction false} WorkComputes(out: Output, plan: Plan, fs: Factors, o: Out, at: Place)
    requires Carries(out, plan) && at.base + Size(fs) <= |o.s|
    ensures Outputs(out, fs, at, Work(plan, fs, o, at).s)
    decreases fs, 5, 0
  {
    match fs
    case One => assert LeafAt(out, plan, at);
    case Times2(rest) =>
      AdvanceProduct(2, Size(rest));
      PartsCompute(out, plan, rest, o, at, 2, 2);
      TwoOutputs(out, plan, rest, at, Parts(plan, rest, o, at, 2, 2), Size(rest));
    case Times4(rest) =>
      AdvanceProduct(4, Size(rest));
      PartsCompute(out, plan, rest, o, at, 4, 4);
      FourOutputs(out, plan, rest, at, Parts(plan, rest, o, at, 4, 4), Size(rest));
  }
}
