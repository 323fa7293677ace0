/** The coherent frequency shift of src/util.cpp over exact reals, with the complex
    primitives of src/comp_prim.h. */
module Oscillator {

  datatype Comp = Comp(re: real, im: real)

  const ONE := Comp(1.0, 0.0)

  function CMult(a: Comp, b: Comp): Comp { Comp(a.re * b.re - a.im * b.im, a.re * b.im + a.im * b.re) }

  function CConj(a: Comp): Comp { Comp(a.re, -a.im) }

  /** The square of cabsolute. */
  function Norm(a: Comp): real { a.re * a.re + a.im * a.im }

  predicate Unit(a: Comp) { Norm(a) == 1.0 }

  // ----- Complex algebra

  lemma MultAssoc(a: Comp, b: Comp, c: Comp)
    ensures CMult(CMult(a, b), c) == CMult(a, CMult(b, c))
  {}

  lemma MultNorm(a: Comp, b: Comp)
    ensures Norm(CMult(a, b)) == Norm(a) * Norm(b)
  {}

  lemma ConjMult(a: Comp, b: Comp)
    ensures CConj(CMult(a, b)) == CMult(CConj(a), CConj(b))
  {}

  /** A unit's conjugate is its inverse. */
  lemma ConjInverse(a: Comp)
    requires Unit(a)
    ensures CMult(a, CConj(a)) == ONE
  {}

  function Power(a: Comp, n: nat): Comp { if n == 0 then ONE else CMult(Power(a, n - 1), a) }

  lemma {:induction false} PowerUnit(a: Comp, n: nat)
    requires Unit(a)
    ensures Unit(Power(a, n))
  {
    if n > 0 {
      PowerUnit(a, n - 1);
      MultNorm(Power(a, n - 1), a);
    }
  }

  lemma {:induction false} PowerSum(a: Comp, m: nat, n: nat)
    ensures Power(a, m + n) == CMult(Power(a, m), Power(a, n))
  {
    if n == 0 {
      assert CMult(Power(a, m), ONE) == Power(a, m);
    } else {
      PowerSum(a, m, n - 1);
      MultAssoc(Power(a, m), Power(a, n - 1), a);
    }
  }

  lemma {:induction false} ConjPower(a: Comp, n: nat)
    ensures CConj(Power(a, n)) == Power(CConj(a), n)
  {
    if n > 0 {
      ConjPower(a, n - 1);
      ConjMult(Power(a, n - 1), a);
    }
  }

  // ----- The shift

  /** The oscillator after n steps from a phase. */
  function PhaseAt(phase: Comp, step: Comp, n: nat): Comp { CMult(phase, Power(step, n)) }

  /** Closed form of a shifted block: sample i turned by the phase and i + 1 steps. */
  function Shifted(samples: seq<Comp>, phase: Comp, step: Comp): (r: seq<Comp>)
    ensures |r| == |samples|
    ensures forall i :: 0 <= i < |r| ==> r[i] == CMult(samples[i], PhaseAt(phase, step, i + 1))
  {
    seq(|samples|, i requires 0 <= i < |samples| => CMult(samples[i], PhaseAt(phase, step, i + 1)))
  }

  /** Division of both components, as the phase is normalised. */
  function Over(a: Comp, m: real): Comp
    requires m != 0.0
  {
    Comp(a.re / m, a.im / m)
  }

  /** m is cabsolute of a, and not zero. */
  predicate IsMagnitude(m: real, a: Comp) { m > 0.0 && m * m == Norm(a) }

  /** freq_shift_coh. step stands for the unit the sine and cosine of the offset give, mag
      for the square root cabsolute takes for the final phase. Out-parameters: the block
      and the normalised phase. */
  method FreqShiftCoh(rx: array<Comp>, out: array<Comp>, nin: nat, step: Comp, phase0: Comp, mag: real)
    returns (phase: Comp)
    requires nin <= rx.Length && nin <= out.Length && Unit(step)
    requires IsMagnitude(mag, PhaseAt(phase0, step, nin))
    modifies out
    ensures out[..nin] == Shifted(old(rx[..nin]), phase0, step)
    ensures forall i :: nin <= i < out.Length ==> out[i] == old(out[i])
    ensures phase == Over(PhaseAt(phase0, step, nin), mag)
  {
    phase := phase0;
    assert CMult(phase0, ONE) == phase0;
    ghost var goal := Shifted(rx[..nin], phase0, step);
    var i := 0;
    while i < nin
      invariant 0 <= i <= nin && phase == PhaseAt(phase0, step, i)
      invariant forall j :: 0 <= j < i ==> out[j] == goal[j]
      invariant forall j :: i <= j < rx.Length ==> rx[j] == old(rx[j])
      invariant forall j :: nin <= j < out.Length ==> out[j] == old(out[j])
    {
      MultAssoc(phase0, Power(step, i), step);
      phase := CMult(phase, step);
      assert rx[i] == old(rx[..nin])[i];
      out[i] := CMult(rx[i], phase);
      i := i + 1;
    }
    assert out[..nin] == goal;
    phase := Comp(phase.re / mag, phase.im / mag);
  }

  lemma PhaseNorm(phase0: Comp, step: Comp, n: nat)
    requires Unit(step)
    ensures Norm(PhaseAt(phase0, step, n)) == Norm(phase0)
  {
    PowerUnit(step, n);
    MultNorm(phase0, Power(step, n));
  }

  /** The normalised phase is a unit whatever the phase on entry, and it is the exact phase
      if and only if the phase on entry is a unit. */
  lemma PhaseNormalised(phase0: Comp, step: Comp, n: nat, mag: real)
    requires Unit(step) && IsMagnitude(mag, PhaseAt(phase0, step, n))
    ensures var p := PhaseAt(phase0, step, n);
      Unit(Over(p, mag)) && (Over(p, mag) == p <==> Unit(phase0))
  {
    PhaseNorm(phase0, step, n);
    Normalise(PhaseAt(phase0, step, n), mag);
    UnitMagnitude(mag, Norm(phase0));
    SameOver(PhaseAt(phase0, step, n), mag);
  }

  /** Dividing by the magnitude is multiplying by its inverse. */
  lemma Normalise(p: Comp, mag: real)
    requires IsMagnitude(mag, p)
    ensures Unit(Over(p, mag))
  {
    var k := 1.0 / mag;
    Quotient(p.re, mag, k);
    Quotient(p.im, mag, k);
    MultNorm(Comp(k, 0.0), p);
    InverseSquares(k, mag, k * k, mag * mag);
  }

  lemma Quotient(x: real, m: real, k: real)
    requires m > 0.0 && k == 1.0 / m
    ensures x / m == k * x && k * m == 1.0
  {}

  lemma InverseSquares(k: real, m: real, kk: real, mm: real)
    requires k * m == 1.0 && kk == k * k && mm == m * m
    ensures kk * mm == 1.0
  {}

  lemma RootOfOne(m: real)
    requires m > 0.0 && m * m == 1.0
    ensures m == 1.0
  {}

  /** Every sample keeps its squared magnitude. */
  lemma ShiftKeepsMagnitude(samples: seq<Comp>, phase: Comp, step: Comp, i: nat)
    requires i < |samples| && Unit(phase) && Unit(step)
    ensures Norm(Shifted(samples, phase, step)[i]) == Norm(samples[i])
  {
    PowerUnit(step, i + 1);
    MultNorm(phase, Power(step, i + 1));
    MultNorm(samples[i], PhaseAt(phase, step, i + 1));
  }

  /** The exact phase after two blocks is that after one. */
  lemma PhaseSum(phase: Comp, step: Comp, m: nat, n: nat)
    ensures PhaseAt(PhaseAt(phase, step, m), step, n) == PhaseAt(phase, step, m + n)
  {
    PowerSum(step, m, n);
    MultAssoc(phase, Power(step, m), Power(step, n));
  }

  lemma MultOver(a: Comp, b: Comp, m: real)
    requires m > 0.0
    ensures CMult(a, Over(b, m)) == Over(CMult(a, b), m) && CMult(Over(a, m), b) == Over(CMult(a, b), m)
  {
    var k := 1.0 / m;
    Quotient(a.re, m, k);
    Quotient(a.im, m, k);
    Quotient(b.re, m, k);
    Quotient(b.im, m, k);
    Quotient(CMult(a, b).re, m, k);
    Quotient(CMult(a, b).im, m, k);
    ScaledProducts(a, b, k);
  }

  lemma ScaledProducts(a: Comp, b: Comp, k: real)
    ensures CMult(a, Comp(k * b.re, k * b.im)) == Comp(k * CMult(a, b).re, k * CMult(a, b).im)
    ensures CMult(Comp(k * a.re, k * a.im), b) == Comp(k * CMult(a, b).re, k * CMult(a, b).im)
  {}

  /** Without the normalisation two calls would always do what one does. */
  lemma ShiftSplit(a: seq<Comp>, b: seq<Comp>, phase: Comp, step: Comp)
    ensures Shifted(a + b, phase, step) == Shifted(a, phase, step) + Shifted(b, PhaseAt(phase, step, |a|), step)
  {
    var whole, parts := Shifted(a + b, phase, step), Shifted(a, phase, step) + Shifted(b, PhaseAt(phase, step, |a|),
        step);
    forall i | 0 <= i < |a + b| ensures whole[i] == parts[i] {
      if i >= |a| { PhaseSum(phase, step, |a|, i - |a| + 1); }
    }
  }

  /** Starting from a phase divided by m divides every shifted sample by m. */
  lemma ShiftOver(x: Comp, phase: Comp, step: Comp, n: nat, m: real)
    requires m > 0.0
    ensures PhaseAt(Over(phase, m), step, n) == Over(PhaseAt(phase, step, n), m)
    ensures CMult(x, PhaseAt(Over(phase, m), step, n)) == Over(CMult(x, PhaseAt(phase, step, n)), m)
  {
    MultOver(phase, Power(step, n), m);
    MultOver(x, PhaseAt(phase, step, n), m);
  }

  lemma SameOver(x: Comp, m: real)
    requires m > 0.0
    ensures Over(x, m) == x <==> m == 1.0 || x == Comp(0.0, 0.0)
  {
    DivideSame(x.re, m, x.re / m);
    DivideSame(x.im, m, x.im / m);
  }

  lemma DivideSame(x: real, m: real, y: real)
    requires m > 0.0 && y == x / m
    ensures y == x <==> m == 1.0 || x == 0.0
  {
    assert y * m == x;
    if y == x && m != 1.0 { NoZeroDivisor(x, m - 1.0); }
  }

  lemma NoZeroDivisor(x: real, n: real)
    requires n != 0.0 && x * n == 0.0
    ensures x == 0.0
  {}

  lemma ZeroProduct(x: Comp, p: Comp)
    requires Norm(p) > 0.0
    ensures CMult(x, p) == Comp(0.0, 0.0) <==> x == Comp(0.0, 0.0)
  {
    if CMult(x, p) == Comp(0.0, 0.0) {
      MultNorm(x, p);
      NoZeroDivisor(Norm(x), Norm(p));
      ZeroNorm(x.re, x.im);
    }
  }

  lemma ZeroNorm(x: real, y: real)
    requires x * x + y * y == 0.0
    ensures x == y == 0.0
  {
    SquarePositive(x);
    SquarePositive(y);
  }

  lemma SquarePositive(x: real)
    ensures x * x >= 0.0 && (x * x == 0.0 ==> x == 0.0)
  {
    if x != 0.0 && x * x == 0.0 { NoZeroDivisor(x, x); }
  }

  predicate AllZero(b: seq<Comp>) { forall i :: 0 <= i < |b| ==> b[i] == Comp(0.0, 0.0) }

  lemma SameShift(b: seq<Comp>, phase: Comp, step: Comp, m: real)
    requires Unit(step) && m > 0.0 && Norm(phase) > 0.0
    ensures Shifted(b, phase, step) == Shifted(b, Over(phase, m), step) <==> m == 1.0 || AllZero(b)
  {
    var r, t := Shifted(b, phase, step), Shifted(b, Over(phase, m), step);
    forall i | 0 <= i < |b| ensures r[i] == t[i] <==> m == 1.0 || b[i] == Comp(0.0, 0.0) {
      ShiftOver(b[i], phase, step, i + 1, m);
      SameOver(CMult(b[i], PhaseAt(phase, step, i + 1)), m);
      PhaseNorm(phase, step, i + 1);
      ZeroProduct(b[i], PhaseAt(phase, step, i + 1));
    }
  }

  lemma UnitMagnitude(m: real, n: real)
    requires m > 0.0 && m * m == n
    ensures n > 0.0 && (m == 1.0 <==> n == 1.0)
  {
    SquarePositive(m);
    if n == 1.0 { RootOfOne(m); }
  }

  /** A block shifted in two calls, the second starting from the normalised phase the first
      leaves, comes out as in one call if and only if the phase on entry is a unit or the
      second half is silent. */
  lemma ShiftInTwoCalls(a: seq<Comp>, b: seq<Comp>, phase: Comp, step: Comp, mag: real)
    requires Unit(step) && IsMagnitude(mag, PhaseAt(phase, step, |a|))
    ensures var q := Over(PhaseAt(phase, step, |a|), mag);
      (Shifted(a + b, phase, step) == Shifted(a, phase, step) + Shifted(b, q, step)) <==> (Unit(phase) || AllZero(b))
  {
    var p := PhaseAt(phase, step, |a|);
    var head, r, t := Shifted(a, phase, step), Shifted(b, p, step), Shifted(b, Over(p, mag), step);
    PhaseNorm(phase, step, |a|);
    UnitMagnitude(mag, Norm(p));
    ShiftSplit(a, b, phase, step);
    SameShift(b, p, step, mag);
    SameTail(head, r, t);
  }

  lemma SameTail(head: seq<Comp>, r: seq<Comp>, t: seq<Comp>)
    requires |r| == |t|
    ensures head + r == head + t <==> r == t
  {
    assert (head + r)[|head|..] == r && (head + t)[|head|..] == t;
  }

  /** The phase two calls leave is the phase one call leaves, whatever the phase on entry. */
  lemma PhaseInTwoCalls(phase: Comp, step: Comp, m: nat, n: nat, mag: real)
    requires Unit(step) && IsMagnitude(mag, PhaseAt(phase, step, m))
    ensures var q := Over(PhaseAt(phase, step, m), mag);
      && IsMagnitude(1.0, PhaseAt(q, step, n)) && IsMagnitude(mag, PhaseAt(phase, step, m + n))
      && Over(PhaseAt(q, step, n), 1.0) == Over(PhaseAt(phase, step, m + n), mag)
  {
    var p := PhaseAt(phase, step, m);
    PhaseNorm(phase, step, m);
    PhaseNorm(phase, step, m + n);
    Normalise(p, mag);
    PhaseNorm(Over(p, mag), step, n);
    ShiftOver(ONE, p, step, n, mag);
    PhaseSum(phase, step, m, n);
  }

  /** Shifting by the opposite offset from the conjugate phase undoes a shift. */
  lemma OppositeShiftUndoes(samples: seq<Comp>, phase: Comp, step: Comp)
    requires Unit(phase) && Unit(step)
    ensures Shifted(Shifted(samples, phase, step), CConj(phase), CConj(step)) == samples
  {
    var there := Shifted(samples, phase, step);
    var back := Shifted(there, CConj(phase), CConj(step));
    forall i | 0 <= i < |samples| ensures back[i] == samples[i] {
      var p := PhaseAt(phase, step, i + 1);
      PowerUnit(step, i + 1);
      MultNorm(phase, Power(step, i + 1));
      ConjPower(step, i + 1);
      ConjMult(phase, Power(step, i + 1));
      MultAssoc(samples[i], p, CConj(p));
      ConjInverse(p);
    }
  }

  // ----- Click tuning

  const FCENTRE := 1500.0

  /** Within 10 Hz of the centre a click means the centre. */
  function Tuned(freq: real): real {
    if FCENTRE - 10.0 < freq < FCENTRE + 10.0 then FCENTRE else freq
  }

  /** clickTune: the transmit and the receive offset. */
  method ClickTune(freq: real) returns (tx: real, rx: real)
    ensures FCENTRE + tx == Tuned(freq) && rx == -tx
    ensures freq <= 1490.0 || freq >= 1510.0 ==> tx == freq - 1500.0 && rx == 1500.0 - freq
    ensures 1490.0 < freq < 1510.0 ==> tx == rx == 0.0
  {
    var f := freq;
    var apart := if FCENTRE - f < 0.0 then f - FCENTRE else FCENTRE - f;
    if apart < 10.0 {
      f := FCENTRE;
    }
    tx := f - FCENTRE;
    rx := FCENTRE - f;
  }

  /** The step of an offset is a unit, and opposite offsets have conjugate steps: cosine is
      even and sine is odd. */
  ghost predicate IsStep(unit: real -> Comp) {
    forall f: real {:trigger unit(f)} :: Unit(unit(f)) && unit(-f) == CConj(unit(f))
  }

  /** A signal shifted by the tuned transmit offset and then by the tuned receive offset,
      from conjugate phases, is the signal. */
  lemma TunedShiftsCancel(freq: real, samples: seq<Comp>, phase: Comp, unit: real -> Comp)
    requires IsStep(unit) && Unit(phase)
    ensures var tx, rx := Tuned(freq) - FCENTRE, FCENTRE - Tuned(freq);
      Shifted(Shifted(samples, phase, unit(tx)), CConj(phase), unit(rx)) == samples
  {
    var tx := Tuned(freq) - FCENTRE;
    assert Unit(unit(tx)) && unit(-tx) == CConj(unit(tx));
    assert FCENTRE - Tuned(freq) == -tx;
    OppositeShiftUndoes(samples, phase, unit(tx));
  }

  // ----- What a shift does to a tone

  ghost predicate AddsAt(unit: real -> Comp, f: real, g: real) { unit(f + g) == CMult(unit(f), unit(g)) }

  /** Steps of frequencies: adding frequencies multiplies their steps. */
  ghost predicate AddsUp(unit: real -> Comp) { forall f, g :: AddsAt(unit, f, g) }

  lemma MultCommutes(a: Comp, b: Comp)
    ensures CMult(a, b) == CMult(b, a)
  {}

  /** cmult is multiplication of complex numbers: bilinear, commutative, with one neutral
      and i squared minus one. */
  lemma MultIsComplex(a: Comp, b: Comp, c: Comp, r: real)
    ensures CMult(Comp(a.re + b.re, a.im + b.im), c)
         == Comp(CMult(a, c).re + CMult(b, c).re, CMult(a, c).im + CMult(b, c).im)
    ensures CMult(Comp(r * a.re, r * a.im), c) == Comp(r * CMult(a, c).re, r * CMult(a, c).im)
    ensures CMult(a, c) == CMult(c, a) && CMult(ONE, c) == c
    ensures CMult(Comp(0.0, 1.0), Comp(0.0, 1.0)) == Comp(-1.0, 0.0)
  {
    MultScaled(r, a.re, a.im, c.re, c.im);
    MultScaled(r, a.re, a.im, c.im, -c.re);
  }

  lemma MultScaled(r: real, x: real, y: real, u: real, v: real)
    ensures (r * x) * u - (r * y) * v == r * (x * u - y * v)
  {}

  lemma {:induction false} PowerOfProduct(a: Comp, b: Comp, n: nat)
    ensures Power(CMult(a, b), n) == CMult(Power(a, n), Power(b, n))
  {
    if n > 0 {
      var p, q := Power(a, n - 1), Power(b, n - 1);
      PowerOfProduct(a, b, n - 1);
      Interchange(p, q, a, b);
    }
  }

  lemma Interchange(p: Comp, q: Comp, a: Comp, b: Comp)
    ensures CMult(CMult(p, q), CMult(a, b)) == CMult(CMult(p, a), CMult(q, b))
  {
    MultAssoc(p, q, CMult(a, b));
    MultAssoc(q, a, b);
    MultCommutes(q, a);
    MultAssoc(a, q, b);
    MultAssoc(p, a, CMult(q, b));
  }

  /** A tone of frequency f shifted by an offset is a tone of their sum. */
  lemma ToneShifted(f: real, offset: real, samples: seq<Comp>, phase: Comp, unit: real -> Comp, i: nat)
    requires AddsUp(unit) && i < |samples| && samples[i] == Power(unit(f), i + 1)
    ensures Shifted(samples, phase, unit(offset))[i] == CMult(phase, Power(unit(f + offset), i + 1))
  {
    var p, q := Power(unit(f), i + 1), Power(unit(offset), i + 1);
    assert AddsAt(unit, f, offset);
    PowerOfProduct(unit(f), unit(offset), i + 1);
    MultCommutes(p, CMult(phase, q));
    MultAssoc(phase, q, p);
    MultCommutes(q, p);
  }

  /** clickTune does what it is for: a tone at a frequency clicked 10 Hz or more from the
      centre, shifted by the receive offset, stands at 1500 Hz. */
  lemma TunedToneCentred(freq: real, samples: seq<Comp>, phase: Comp, unit: real -> Comp, i: nat)
    requires AddsUp(unit) && i < |samples| && samples[i] == Power(unit(freq), i + 1)
    requires freq <= 1490.0 || freq >= 1510.0
    ensures Shifted(samples, phase, unit(FCENTRE - Tuned(freq)))[i] == CMult(phase, Power(unit(1500.0), i + 1))
  {
    ToneShifted(freq, FCENTRE - Tuned(freq), samples, phase, unit, i);
    assert freq + (FCENTRE - Tuned(freq)) == 1500.0;
  }
}
